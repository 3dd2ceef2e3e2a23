/** How the weights of a dialogue divide the range a random number is drawn from. */
module ChoiceSpec {
  import opened Options

  /** An option of a dialogue: a conversation and its weight. The option list may hold null entries. */
  datatype Choice = Choice(conversationId: int, weight: real)

  function Present(options: seq<Option<Choice>>): seq<Choice> {
    if options == [] then []
    else
      var last := options[|options| - 1];
      Present(options[..|options| - 1]) + if last.Some? then [last.value] else []
  }

  lemma PresentNext(options: seq<Option<Choice>>, x: nat)
    requires x < |options|
    ensures var before, after := Present(options[..x]), Present(options[..x + 1]);
      && after == before + (if options[x].Some? then [options[x].value] else [])
      && Sum(after, |after|) == Sum(before, |before|) + if options[x].Some? then options[x].value.weight else 0.0
  {
    assert options[..x + 1][..x] == options[..x];
    var before := Present(options[..x]);
    if options[x].Some? {
      SumOfPrefix(before, [options[x].value], |before|);
    } else {
      assert before + [] == before;
    }
  }

  /** The weight of the first k choices. */
  function Sum(choices: seq<Choice>, k: nat): real
    requires k <= |choices|
  {
    if k == 0 then 0.0 else Sum(choices, k - 1) + choices[k - 1].weight
  }

  ghost predicate NonNegative(choices: seq<Choice>) {
    forall i :: 0 <= i < |choices| ==> choices[i].weight >= 0.0
  }

  lemma {:induction false} SumGrows(choices: seq<Choice>, i: nat, j: nat)
    requires NonNegative(choices) && i <= j <= |choices|
    ensures Sum(choices, i) <= Sum(choices, j)
    decreases j
  {
    if i < j {
      SumGrows(choices, i, j - 1);
    }
  }

  lemma {:induction false} SumOfPrefix(choices: seq<Choice>, more: seq<Choice>, k: nat)
    requires k <= |choices|
    ensures Sum(choices + more, k) == Sum(choices, k)
  {
    if k > 0 {
      SumOfPrefix(choices, more, k - 1);
    }
  }

  /** The part of the range that belongs to choice i: open below, closed above; the first one is closed. */
  predicate Covers(choices: seq<Choice>, silence: real, i: nat, draw: real)
    requires i < |choices|
  {
    && (if i == 0 then silence <= draw else silence + Sum(choices, i) < draw)
    && draw <= silence + Sum(choices, i + 1)
  }

  /** The intervals are disjoint ... */
  lemma IntervalsAreDisjoint(choices: seq<Choice>, silence: real, i: nat, j: nat, draw: real)
    requires NonNegative(choices) && i < j < |choices|
    ensures !(Covers(choices, silence, i, draw) && Covers(choices, silence, j, draw))
  {
    SumGrows(choices, i + 1, j);
  }

  /** ... and together cover everything from the silence weight up to the end of the range. */
  lemma {:induction false} IntervalsCover(choices: seq<Choice>, silence: real, draw: real, k: nat) returns (i: nat)
    requires 0 < k <= |choices| && silence <= draw <= silence + Sum(choices, k)
    ensures i < k && Covers(choices, silence, i, draw)
    decreases k
  {
    i := k - 1;
    if k > 1 && draw <= silence + Sum(choices, k - 1) {
      i := IntervalsCover(choices, silence, draw, k - 1);
    }
  }

  /** Which choice a draw selects; None is silence. */
  ghost predicate Selects(choices: seq<Choice>, silence: real, draw: real, picked: Option<nat>) {
    match picked
    case Some(i) => i < |choices| && Covers(choices, silence, i, draw)
    case None => forall i :: 0 <= i < |choices| ==> !Covers(choices, silence, i, draw)
  }

  /** A draw selects silence exactly below the silence weight, or if there is nothing to choose. */
  lemma SilenceIff(choices: seq<Choice>, silence: real, draw: real)
    requires NonNegative(choices) && 0.0 <= silence && 0.0 <= draw <= Sum(choices, |choices|) + silence
    ensures Selects(choices, silence, draw, None) <==> draw < silence || choices == []
  {
    if draw >= silence && choices != [] {
      var i := IntervalsCover(choices, silence, draw, |choices|);
    } else {
      forall i | 0 <= i < |choices| ensures !Covers(choices, silence, i, draw) {
        SumGrows(choices, 0, i);
      }
    }
  }

  /** A choice can be drawn at all exactly if it has weight, or stands first and so owns the boundary draw. */
  lemma DrawableIff(choices: seq<Choice>, silence: real, i: nat)
    requires NonNegative(choices) && i < |choices|
    ensures (exists draw: real ::
              silence <= draw <= silence + Sum(choices, |choices|) && Covers(choices, silence, i, draw))
       <==> choices[i].weight > 0.0 || i == 0
  {
    SumGrows(choices, 0, i);
    SumGrows(choices, i + 1, |choices|);
    assert Covers(choices, silence, i, silence + Sum(choices, i + 1)) <==> choices[i].weight > 0.0 || i == 0;
  }

  /** What the second loop looks for: the first running weight that the draw does not exceed. */
  ghost predicate FirstReached(choices: seq<Choice>, silence: real, draw: real, picked: Option<nat>) {
    match picked
    case Some(i) =>
      && i < |choices| && silence <= draw <= silence + Sum(choices, i + 1)
      && forall j :: 0 < j <= i ==> silence + Sum(choices, j) < draw
    case None => draw < silence || forall j :: 0 < j <= |choices| ==> silence + Sum(choices, j) < draw
  }

  lemma FirstReachedIsSelected(choices: seq<Choice>, silence: real, draw: real, picked: Option<nat>)
    requires NonNegative(choices) && FirstReached(choices, silence, draw, picked)
    ensures Selects(choices, silence, draw, picked)
  {
    if picked.None? {
      forall i | 0 <= i < |choices| ensures !Covers(choices, silence, i, draw) {
        SumGrows(choices, 0, i);
      }
    }
  }
}

/** Get_Random_Conversation of ConversationControl.cpp. */
module WeightedChoice {
  import opened Options
  import opened ChoiceSpec

  /** The draw covers the whole range, and what is returned is what it selects. */
  ghost predicate Drawn(choices: seq<Choice>, silence: real, random: (real, real) -> real, conversation: Option<int>) {
    var draw := random(0.0, Sum(choices, |choices|) + silence);
    match conversation
    case None => FirstReached(choices, silence, draw, None)
    case Some(id) =>
      exists i: nat :: i < |choices| && choices[i].conversationId == id && FirstReached(choices, silence, draw, Some(i))
  }

  /** With weights that make sense, an option is picked unless the draw falls in the silence. */
  lemma DrawnSelects(choices: seq<Choice>, silence: real, random: (real, real) -> real, conversation: Option<int>)
    requires NonNegative(choices) && 0.0 <= silence
    requires 0.0 <= random(0.0, Sum(choices, |choices|) + silence) <= Sum(choices, |choices|) + silence
    requires Drawn(choices, silence, random, conversation)
    ensures var draw := random(0.0, Sum(choices, |choices|) + silence);
      && (conversation.None? <==> draw < silence || choices == [])
      && (conversation.Some? ==> exists i: nat :: Selects(choices, silence, draw, Some(i))
                                                  && choices[i].conversationId == conversation.value)
  {
    var draw := random(0.0, Sum(choices, |choices|) + silence);
    SilenceIff(choices, silence, draw);
    match conversation
    case None => FirstReachedIsSelected(choices, silence, draw, None);
    case Some(id) =>
      var i: nat :| i < |choices| && choices[i].conversationId == id && FirstReached(choices, silence, draw, Some(i));
      FirstReachedIsSelected(choices, silence, draw, Some(i));
  }

  method GetRandomConversation(options: seq<Option<Choice>>, silence: real, random: (real, real) -> real)
    returns (conversation: Option<int>)
    ensures Drawn(Present(options), silence, random, conversation)
  {
    ghost var choices := Present(options);
    var ids: seq<int>, weights: seq<real> := [], [];
    var total := 0.0;
    var x := 0;
    while x < |options|
      invariant x <= |options| && Collected(Present(options[..x]), ids, weights)
      invariant total == Sum(Present(options[..x]), |ids|)
    {
      PresentNext(options, x);
      if options[x].Some? {
        ids := ids + [options[x].value.conversationId];
        weights := weights + [options[x].value.weight];
        total := total + options[x].value.weight;
      }
      x := x + 1;
    }
    assert options[..x] == options;
    var rand := random(0.0, total + silence);
    ghost var draw := rand;
    conversation := None;
    if rand >= silence {
      rand := rand - silence;
      var current := 0.0;
      x := 0;
      while x < |weights|
        invariant x <= |weights| && current == Sum(choices, x)
        invariant forall j :: 0 < j <= x ==> silence + Sum(choices, j) < draw
      {
        current := current + weights[x];
        if rand <= current {
          assert FirstReached(choices, silence, draw, Some(x));
          return Some(ids[x]);
        }
        x := x + 1;
      }
    }
  }

  ghost predicate Collected(choices: seq<Choice>, ids: seq<int>, weights: seq<real>) {
    && |ids| == |weights| == |choices|
    && forall i :: 0 <= i < |choices| ==> ids[i] == choices[i].conversationId && weights[i] == choices[i].weight
  }
}
