/** Replacing every leftmost, non-overlapping occurrence of a pattern. */
module SubstitutionSpec {
  function Replace(s: string, p: string, r: string): string
    requires p != ""
    decreases |s|
  {
    if s == "" then ""
    else if p <= s then r + Replace(s[|p|..], p, r)
    else [s[0]] + Replace(s[1..], p, r)
  }

  function Matches(s: string, p: string): nat
    requires p != ""
    decreases |s|
  {
    if s == "" then 0
    else if p <= s then 1 + Matches(s[|p|..], p)
    else Matches(s[1..], p)
  }

  /** strstr finds p in s at offset `at` and nowhere before. */
  ghost predicate IsFirst(s: string, p: string, at: nat) {
    at <= |s| && p <= s[at..] && forall j :: 0 <= j < at ==> !(p <= s[j..])
  }

  ghost predicate IsAbsent(s: string, p: string) {
    forall j :: 0 <= j <= |s| ==> !(p <= s[j..])
  }

  // ---- Laws ---------------------------------------------------------------------------------

  lemma {:induction false} LengthLaw(s: string, p: string, r: string)
    requires p != ""
    ensures |Replace(s, p, r)| == |s| + Matches(s, p) * (|r| - |p|)
    decreases |s|
  {
    if s != "" {
      if p <= s {
        var rest := s[|p|..];
        LengthLaw(rest, p, r);
        assert (1 + Matches(rest, p)) * (|r| - |p|) == (|r| - |p|) + Matches(rest, p) * (|r| - |p|);
      } else {
        LengthLaw(s[1..], p, r);
      }
    }
  }

  lemma {:induction false} ReplacingByItselfIsIdentity(s: string, p: string)
    requires p != ""
    ensures Replace(s, p, p) == s
    decreases |s|
  {
    if s != "" {
      if p <= s {
        ReplacingByItselfIsIdentity(s[|p|..], p);
        assert s == p + s[|p|..];
      } else {
        ReplacingByItselfIsIdentity(s[1..], p);
      }
    }
  }

  /** Up to the first occurrence nothing changes. */
  lemma {:induction false} ReplaceAtFirst(s: string, p: string, r: string, at: nat)
    requires p != "" && IsFirst(s, p, at)
    ensures at + |p| <= |s|
    ensures Replace(s, p, r) == s[..at] + r + Replace(s[at + |p|..], p, r)
    decreases at
  {
    if at == 0 {
      assert s[0..] == s;
    } else {
      assert s[0..] == s;
      forall j | 0 <= j < at - 1 ensures !(p <= s[1..][j..]) {
        assert s[1..][j..] == s[j + 1..];
      }
      assert s[1..][at - 1..] == s[at..];
      ReplaceAtFirst(s[1..], p, r, at - 1);
      assert s[1..][at - 1 + |p|..] == s[at + |p|..];
      assert [s[0]] + s[1..][..at - 1] == s[..at];
    }
  }

  /** One turn of the loop, with the text collected so far in front. */
  lemma ReplaceStep(text: string, s: string, p: string, r: string, at: nat)
    requires p != "" && IsFirst(s, p, at)
    ensures at + |p| <= |s|
    ensures text + Replace(s, p, r) == text + s[..at] + r + Replace(s[at + |p|..], p, r)
  {
    ReplaceAtFirst(s, p, r, at);
  }

  /** A text without the pattern stays as it is, and only such a text has no match. */
  lemma {:induction false} ReplaceAbsent(s: string, p: string, r: string)
    requires p != ""
    ensures IsAbsent(s, p) ==> Replace(s, p, r) == s
    ensures IsAbsent(s, p) <==> Matches(s, p) == 0
    decreases |s|
  {
    if s != "" {
      assert s[0..] == s;
      if !(p <= s) {
        ReplaceAbsent(s[1..], p, r);
        assert forall j :: 0 <= j <= |s| - 1 ==> s[1..][j..] == s[j + 1..];
        assert forall j :: 1 <= j <= |s| ==> s[j..] == s[1..][j - 1..];
      }
    }
  }

  /** The scan moves forward after a match exactly when the pattern is not empty. */
  lemma AdvancesIff(s: string, p: string, at: nat)
    requires IsFirst(s, p, at)
    ensures |s[at..][|p|..]| < |s| <==> p != ""
  {
    if p == "" {
      assert p <= s[0..];
    }
  }
}

/** luaL_gsub (lauxlib.c), built on the buffer. */
module Substitution {
  import opened LuaValues
  import opened LuaStates
  import opened BufferSpec
  import opened Buffers
  import opened SubstitutionSpec

  /** The C library's strstr; -1 stands for NULL. */
  method StrStr(s: string, p: string) returns (at: int)
    ensures at >= 0 ==> IsFirst(s, p, at)
    ensures at < 0 ==> IsAbsent(s, p)
  {
    at := 0;
    while at <= |s|
      invariant 0 <= at <= |s| + 1
      invariant forall j :: 0 <= j < at ==> !(p <= s[j..])
    {
      if p <= s[at..] {
        return;
      }
      at := at + 1;
    }
    at := -1;
  }

  /** luaL_addlstring, seen only as adding to the text. */
  method Append(b: Buffer, s: string)
    requires b.Valid()
    modifies b`p, b`lvl, b`pieces, b.L`top, b.L.slots, b.buffer
    ensures b.Valid()
    ensures b.State().Text() == old(b.State().Text()) + s
  {
    WithStringText(b.buffer.Length, b.State(), s);
    b.AddString(s);
  }

  /** The loop of luaL_gsub. An empty pattern would make it run forever, so callers must not pass one. */
  method AddReplaced(b: Buffer, s: string, p: string, r: string)
    requires b.Valid() && p != ""
    modifies b`p, b`lvl, b`pieces, b.L`top, b.L.slots, b.buffer
    ensures b.Valid()
    ensures b.State().Text() == old(b.State().Text()) + Replace(s, p, r)
  {
    ghost var text := b.State().Text();
    ghost var goal := text + Replace(s, p, r);
    var rest := s;
    var wild := StrStr(rest, p);
    while wild >= 0
      invariant b.Valid() && b.State().Text() == text
      invariant wild >= 0 ==> IsFirst(rest, p, wild)
      invariant wild < 0 ==> IsAbsent(rest, p)
      invariant text + Replace(rest, p, r) == goal
      decreases |rest|
    {
      ReplaceStep(text, rest, p, r, wild);
      Append(b, rest[..wild]);
      Append(b, r);
      text := text + rest[..wild] + r;
      rest := rest[wild + |p|..];
      wild := StrStr(rest, p);
    }
    ReplaceAbsent(rest, p, r);
    Append(b, rest);
  }

  method Gsub(L: LuaState, bufsiz: nat, s: string, p: string, r: string) returns (result: string)
    requires L.Valid() && L.top + LIMIT + 1 <= L.limit && 0 < bufsiz
    requires p != ""
    modifies L`top, L.slots
    ensures L.Valid()
    ensures result == Replace(s, p, r)
    ensures L.Contents() == old(L.Contents()) + [Str(result)]
  {
    var b := new Buffer(L, bufsiz);
    AddReplaced(b, s, p, r);
    b.PushResult();
    result := L.At(-1).s;
  }
}
