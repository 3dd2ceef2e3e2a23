/** What convertData keeps of a Lua value and what ReturnDataLua makes of it again (LuaThread.cpp). */
module MessageSpec {
  import opened Options

  /** A double, apart from rounding. */
  datatype Num = Finite(r: real) | Infinite(negative: bool) | NotANumber

  datatype Scalar = SBoolean(b: bool) | SNumber(n: Num) | SString(s: string)

  /** Table keys; functions, userdata and threads are other keys. */
  datatype Key = ScalarKey(s: Scalar) | OtherKey(id: nat)

  /** Lua data without cycles, tables by content. */
  datatype LuaData = LNil | LScalar(s: Scalar) | LTable(fields: map<Key, LuaData>) | LOther(id: nat)

  /** A LuaDataMessage; the entries of a table lie in the order of their addresses, which may be any order. */
  datatype Message = MScalar(s: Scalar) | MTable(entries: seq<MEntry>)
  datatype MEntry = MEntry(key: Message, value: Message)

  /** How the Lua number scanner reads a string, if it does; LuaJIT's reads "nan" and "inf" too. */
  type Scanner = string -> Option<Num>

  /** A string as C sees it. */
  function CText(s: string): string {
    if s == "" || s[0] == '\0' then "" else [s[0]] + CText(s[1..])
  }

  /** A scalar on its way through a message: the number test comes first, so numeric strings become numbers. */
  function Normal(num: Scanner, s: Scalar): Scalar {
    match s
    case SString(t) => (match num(t) case Some(n) => SNumber(n) case None => SString(CText(t)))
    case _ => s
  }

  /** convertData returns NULL for everything else. */
  predicate Convertible(v: LuaData) {
    v.LScalar? || v.LTable?
  }

  /** The entries of a table for which both key and value can be converted. */
  function KeptKeys(fields: map<Key, LuaData>): set<Key> {
    set k | k in fields && k.ScalarKey? && Convertible(fields[k])
  }

  /** `order` names each member of `keys` once. */
  ghost predicate Lists<T(!new)>(order: seq<T>, keys: set<T>) {
    && (forall i, j :: 0 <= i < j < |order| ==> order[i] != order[j])
    && (forall k :: k in order <==> k in keys)
  }

  /** r is a possible result of convertData(v): table entries may come in any order. */
  ghost predicate Converts(num: Scanner, v: LuaData, r: Option<Message>)
    decreases v
  {
    match v
    case LScalar(s) => r == Some(MScalar(Normal(num, s)))
    case LTable(fields) =>
      && r.Some? && r.value.MTable?
      && exists order :: Lists(order, KeptKeys(fields)) && EntriesOf(num, v, order, r.value.entries)
    case _ => r == None
  }

  ghost predicate EntriesOf(num: Scanner, v: LuaData, order: seq<Key>, entries: seq<MEntry>)
    requires v.LTable? && forall k :: k in order ==> k in KeptKeys(v.fields)
    decreases v, 0
  {
    && |entries| == |order|
    && forall i :: 0 <= i < |order| ==>
      && order[i] in KeptKeys(v.fields)
      && entries[i].key == MScalar(Normal(num, order[i].s))
      && Converts(num, v.fields[order[i]], Some(entries[i].value))
  }

  /** The message of a value has scalar keys only. */
  predicate ScalarKeyed(m: Message) {
    m.MTable? ==> forall e :: e in m.entries ==> e.key.MScalar? && ScalarKeyed(e.value)
  }

  /** Keys that lua_settable accepts; on any other it raises an error. */
  predicate IsKey(m: Message) {
    m.MScalar? && m.s != SNumber(NotANumber)
  }

  /** ReturnDataLua gets through the first n entries, or through the whole message, without an error. */
  predicate StorableEntries(m: Message, n: nat)
    requires m.MTable? && n <= |m.entries|
    decreases m, 0
  {
    forall i :: 0 <= i < n ==> IsKey(m.entries[i].key) && Storable(m.entries[i].value)
  }

  predicate Storable(m: Message)
    decreases m, 1
  {
    m.MTable? ==> StorableEntries(m, |m.entries|)
  }

  /** ReturnDataLua: entries are stored in order, so of two equal keys the later one wins. */
  function Returned(m: Message): (v: LuaData)
    requires Storable(m)
    ensures Convertible(v)
    decreases m
  {
    match m
    case MScalar(s) => LScalar(s)
    case MTable(es) => LTable(ReturnedFields(m, |es|))
  }

  /** The fields stored by the first n entries. */
  function ReturnedFields(m: Message, n: nat): map<Key, LuaData>
    requires m.MTable? && n <= |m.entries| && StorableEntries(m, n)
    decreases m, n
  {
    if n == 0 then map[]
    else
      ReturnedFields(m, n - 1)[ScalarKey(m.entries[n - 1].key.s) := Returned(m.entries[n - 1].value)]
  }

  /** What a value means when every scalar is read through f; a table is the relation between keys and meanings. */
  datatype Meaning = Plain(s: Scalar) | Mapping(pairs: set<(Scalar, Meaning)>)

  ghost function Denote(f: Scalar -> Scalar, v: LuaData): Meaning
    requires Convertible(v)
    decreases v
  {
    match v
    case LScalar(s) => Plain(f(s))
    case LTable(fields) => Mapping(set k | k in KeptKeys(fields) :: (f(k.s), Denote(f, fields[k])))
  }

  /** The meaning as it is, and the meaning after normalisation. */
  ghost function Observe(v: LuaData): Meaning
    requires Convertible(v)
  {
    Denote(s => s, v)
  }

  ghost function Normalised(num: Scanner, v: LuaData): Meaning
    requires Convertible(v)
  {
    Denote(s => Normal(num, s), v)
  }

  /** No two kept entries of a table, at any depth, collide with different meanings. */
  ghost predicate Consistent(num: Scanner, v: LuaData)
    decreases v
  {
    v.LTable? ==>
      && (forall a, b :: a in KeptKeys(v.fields) && b in KeptKeys(v.fields) && Normal(num, a.s) == Normal(num, b.s) ==>
        Normalised(num, v.fields[a]) == Normalised(num, v.fields[b]))
      && (forall k :: k in KeptKeys(v.fields) ==> Consistent(num, v.fields[k]))
  }

  /** No kept key of a table, at any depth, becomes a NaN. */
  ghost predicate KeysStorable(num: Scanner, v: LuaData)
    decreases v
  {
    v.LTable? ==>
      forall k :: k in KeptKeys(v.fields) ==> Normal(num, k.s) != SNumber(NotANumber) && KeysStorable(num, v.fields[k])
  }

  // ---- Laws ---------------------------------------------------------------------------------

  /** Every stored field comes from an entry, and every entry's key has a field. */
  lemma {:induction false} FieldsFromEntries(m: Message, n: nat)
    requires m.MTable? && n <= |m.entries| && StorableEntries(m, n)
    ensures forall k :: k in ReturnedFields(m, n) ==> k.ScalarKey? && exists i :: StoredBy(m, n, k, i)
    ensures forall i :: 0 <= i < n ==> ScalarKey(m.entries[i].key.s) in ReturnedFields(m, n)
  {
    if n > 0 {
      hide ReturnedFields, Returned, StorableEntries;
      FieldsStep(m, n);
      FieldsFromEntries(m, n - 1);
      var last := m.entries[n - 1];
      forall k | k in ReturnedFields(m, n) ensures k.ScalarKey? && exists i :: StoredBy(m, n, k, i) {
        if k == ScalarKey(last.key.s) {
          assert StoredBy(m, n, k, n - 1);
        } else {
          var i :| StoredBy(m, n - 1, k, i);
          assert StoredBy(m, n, k, i);
        }
      }
    }
  }

  lemma FieldsStep(m: Message, n: nat)
    requires m.MTable? && 0 < n <= |m.entries| && StorableEntries(m, n)
    ensures StorableEntries(m, n - 1)
    ensures forall i :: 0 <= i < n ==> IsKey(m.entries[i].key) && Storable(m.entries[i].value)
    ensures var last := m.entries[n - 1];
      ReturnedFields(m, n) == ReturnedFields(m, n - 1)[ScalarKey(last.key.s) := Returned(last.value)]
  {
  }

  /** Of the entries with one key the last is the one that stays. */
  lemma {:induction false} LastEntryWins(m: Message, n: nat, i: nat)
    requires m.MTable? && i < n <= |m.entries| && StorableEntries(m, n)
    requires forall j :: i < j < n ==> m.entries[j].key != m.entries[i].key
    ensures var k := ScalarKey(m.entries[i].key.s);
      k in ReturnedFields(m, n) && ReturnedFields(m, n)[k] == Returned(m.entries[i].value)
    decreases n
  {
    hide ReturnedFields, Returned, StorableEntries;
    FieldsStep(m, n);
    if i < n - 1 {
      LastEntryWins(m, n - 1, i);
      assert m.entries[n - 1].key != m.entries[i].key;
    }
  }

  ghost predicate StoredBy(m: Message, n: nat, k: Key, i: int)
    requires m.MTable? && n <= |m.entries| && StorableEntries(m, n) && k in ReturnedFields(m, n)
  {
    0 <= i < n && k == ScalarKey(m.entries[i].key.s)
    && ReturnedFields(m, n)[k] == Returned(m.entries[i].value)
  }

  /** A conversion only produces scalar keys. */
  lemma {:induction false} ConvertedIsScalarKeyed(num: Scanner, v: LuaData, m: Message)
    requires Converts(num, v, Some(m))
    ensures ScalarKeyed(m) && Convertible(v)
    decreases v
  {
    if v.LTable? {
      var order :| Lists(order, KeptKeys(v.fields)) && EntriesOf(num, v, order, m.entries);
      forall i | 0 <= i < |order| ensures ScalarKeyed(m.entries[i].value) {
        ConvertedIsScalarKeyed(num, v.fields[order[i]], m.entries[i].value);
      }
    }
  }

  lemma StorableUnfolded(m: Message)
    requires m.MTable?
    ensures Storable(m) <==>
      forall i :: 0 <= i < |m.entries| ==> IsKey(m.entries[i].key) && Storable(m.entries[i].value)
  {
  }

  lemma KeysStorableUnfolded(num: Scanner, v: LuaData)
    requires v.LTable?
    ensures KeysStorable(num, v) <==>
      forall k :: k in KeptKeys(v.fields) ==> Normal(num, k.s) != SNumber(NotANumber) && KeysStorable(num, v.fields[k])
  {
  }

  /** One table of a conversion, once its values are settled. */
  lemma TableStorableIff(num: Scanner, v: LuaData, m: Message, order: seq<Key>)
    requires v.LTable? && m.MTable?
    requires Lists(order, KeptKeys(v.fields)) && EntriesOf(num, v, order, m.entries)
    requires forall i :: 0 <= i < |order| ==> (Storable(m.entries[i].value) <==> KeysStorable(num, v.fields[order[i]]))
    ensures Storable(m) <==> KeysStorable(num, v)
  {
    hide Normal, Converts, Storable, StorableEntries, KeysStorable;
    StorableUnfolded(m);
    KeysStorableUnfolded(num, v);
    forall i | 0 <= i < |order|
      ensures order[i] in KeptKeys(v.fields)
      ensures IsKey(m.entries[i].key) <==> Normal(num, order[i].s) != SNumber(NotANumber)
    {
    }
    forall k | k in KeptKeys(v.fields) ensures exists i :: 0 <= i < |order| && order[i] == k {
      assert k in order;
    }
  }

  /** A converted value can be stored again exactly if none of its keys becomes a NaN. */
  lemma {:induction false} StorableIff(num: Scanner, v: LuaData, m: Message)
    requires Converts(num, v, Some(m))
    ensures Storable(m) <==> KeysStorable(num, v)
    decreases v
  {
    hide Storable, StorableEntries, KeysStorable;
    if v.LTable? {
      var order :| Lists(order, KeptKeys(v.fields)) && EntriesOf(num, v, order, m.entries);
      forall i | 0 <= i < |order| ensures Storable(m.entries[i].value) <==> KeysStorable(num, v.fields[order[i]]) {
        StorableIff(num, v.fields[order[i]], m.entries[i].value);
      }
      TableStorableIff(num, v, m, order);
    } else {
      ScalarsAreStorable(num, v, m);
    }
  }

  lemma ScalarsAreStorable(num: Scanner, v: LuaData, m: Message)
    requires !v.LTable? && m.MScalar?
    ensures Storable(m) && KeysStorable(num, v)
  {
  }

  /** A normal form that some Lua value has is consistent: a table cannot map one key to two meanings. */
  lemma {:induction false} ObservedIsConsistent(num: Scanner, u: LuaData, x: LuaData)
    requires Convertible(u) && Convertible(x) && Normalised(num, u) == Observe(x)
    ensures Consistent(num, u)
    decreases u
  {
    if u.LTable? {
      forall k | k in KeptKeys(u.fields)
        ensures ScalarKey(Normal(num, k.s)) in KeptKeys(x.fields)
        ensures Normalised(num, u.fields[k]) == Observe(x.fields[ScalarKey(Normal(num, k.s))])
        ensures Consistent(num, u.fields[k])
      {
        assert (Normal(num, k.s), Normalised(num, u.fields[k])) in Normalised(num, u).pairs;
        var kx :| kx in KeptKeys(x.fields)
          && (kx.s, Observe(x.fields[kx])) == (Normal(num, k.s), Normalised(num, u.fields[k]));
        ObservedIsConsistent(num, u.fields[k], x.fields[kx]);
      }
    }
  }

  /** m is an outcome for the table v whose entries, taken in `order`, are each rebuilt right. */
  ghost predicate EntriesRebuilt(num: Scanner, v: LuaData, m: Message, order: seq<Key>) {
    && v.LTable? && m.MTable? && Storable(m)
    && Lists(order, KeptKeys(v.fields)) && EntriesOf(num, v, order, m.entries)
    && forall i :: 0 <= i < |order| ==>
      Storable(m.entries[i].value)
      && Observe(Returned(m.entries[i].value)) == Normalised(num, v.fields[order[i]])
  }

  /** A stored field has the key and the meaning of some entry of the original table. */
  lemma FieldOrigin(num: Scanner, v: LuaData, m: Message, order: seq<Key>, k: Key) returns (origin: Key)
    requires EntriesRebuilt(num, v, m, order) && k in ReturnedFields(m, |m.entries|)
    ensures k in KeptKeys(ReturnedFields(m, |m.entries|)) && origin in KeptKeys(v.fields)
    ensures k.s == Normal(num, origin.s)
    ensures Observe(ReturnedFields(m, |m.entries|)[k]) == Normalised(num, v.fields[origin])
  {
    FieldsFromEntries(m, |m.entries|);
    var i :| StoredBy(m, |m.entries|, k, i);
    origin := order[i];
    assert origin in KeptKeys(v.fields);
  }

  lemma OriginHasField(num: Scanner, v: LuaData, m: Message, order: seq<Key>, k: Key)
    requires EntriesRebuilt(num, v, m, order) && k in KeptKeys(v.fields)
    ensures ScalarKey(Normal(num, k.s)) in ReturnedFields(m, |m.entries|)
  {
    FieldsFromEntries(m, |m.entries|);
    assert k in order;
    var i :| 0 <= i < |order| && order[i] == k;
    assert m.entries[i].key == MScalar(Normal(num, k.s));
  }

  /** The rebuilt table has the normalised pairs, if none of them collide. */
  lemma TableRoundTrip(num: Scanner, v: LuaData, m: Message, order: seq<Key>)
    requires EntriesRebuilt(num, v, m, order) && Consistent(num, v)
    ensures Observe(Returned(m)) == Normalised(num, v)
  {
    hide EntriesRebuilt;
    assert v.LTable? && m.MTable? && Storable(m) by { Shapes(num, v, m, order); }
    var fields := ReturnedFields(m, |m.entries|);
    forall p | p in Observe(Returned(m)).pairs ensures p in Normalised(num, v).pairs {
      var k :| k in KeptKeys(fields) && p == (k.s, Observe(fields[k]));
      var origin := FieldOrigin(num, v, m, order, k);
    }
    forall p | p in Normalised(num, v).pairs ensures p in Observe(Returned(m)).pairs {
      var k :| k in KeptKeys(v.fields) && p == (Normal(num, k.s), Normalised(num, v.fields[k]));
      OriginHasField(num, v, m, order, k);
      var origin := FieldOrigin(num, v, m, order, ScalarKey(Normal(num, k.s)));
    }
  }

  lemma Shapes(num: Scanner, v: LuaData, m: Message, order: seq<Key>)
    requires EntriesRebuilt(num, v, m, order)
    ensures v.LTable? && m.MTable? && Storable(m)
  {
  }

  lemma {:induction false} RoundTrip(num: Scanner, v: LuaData, m: Message)
    requires Converts(num, v, Some(m)) && Consistent(num, v) && KeysStorable(num, v)
    ensures Storable(m) && Convertible(v) && Observe(Returned(m)) == Normalised(num, v)
    decreases v
  {
    StorableIff(num, v, m);
    if v.LTable? {
      var order :| Lists(order, KeptKeys(v.fields)) && EntriesOf(num, v, order, m.entries);
      forall i | 0 <= i < |order|
        ensures Storable(m.entries[i].value)
        ensures Observe(Returned(m.entries[i].value)) == Normalised(num, v.fields[order[i]])
      {
        RoundTrip(num, v.fields[order[i]], m.entries[i].value);
      }
      TableRoundTrip(num, v, m, order);
    }
  }

  /**
   * Whatever order the entries come in, sending a value rebuilds its normalised form exactly when, after
   * normalisation, no kept key is a NaN and no two kept entries of a table collide with different meanings.
   */
  lemma RoundTripIff(num: Scanner, v: LuaData, m: Message)
    requires Converts(num, v, Some(m))
    ensures Convertible(v)
    ensures Storable(m) && Observe(Returned(m)) == Normalised(num, v) <==> Consistent(num, v) && KeysStorable(num, v)
  {
    ConvertedIsScalarKeyed(num, v, m);
    StorableIff(num, v, m);
    if Consistent(num, v) && KeysStorable(num, v) {
      RoundTrip(num, v, m);
    } else if Storable(m) && Observe(Returned(m)) == Normalised(num, v) {
      ObservedIsConsistent(num, v, Returned(m));
    }
  }

  /** A table with the one key "nan" can be sent; on the way back it raises an error. */
  lemma NanKeyRaises(num: Scanner, x: Scalar, m: Message)
    requires num("nan") == Some(NotANumber)
    requires Converts(num, LTable(map[ScalarKey(SString("nan")) := LScalar(x)]), Some(m))
    ensures Consistent(num, LTable(map[ScalarKey(SString("nan")) := LScalar(x)])) && !Storable(m)
  {
    hide Converts, Storable, StorableEntries;
    var k, v := ScalarKey(SString("nan")), LTable(map[ScalarKey(SString("nan")) := LScalar(x)]);
    StorableIff(num, v, m);
    KeysStorableUnfolded(num, v);
    assert k in KeptKeys(v.fields) && Normal(num, k.s) == SNumber(NotANumber);
  }

  lemma CollidingKeys(num: Scanner, a: bool)
    requires num("1") == Some(Finite(1.0))
    ensures !Consistent(num, Colliding(a)) && KeysStorable(num, Colliding(a)) && Convertible(Colliding(a))
  {
    var v, p, q := Colliding(a), ScalarKey(SNumber(Finite(1.0))), ScalarKey(SString("1"));
    assert p in KeptKeys(v.fields) && q in KeptKeys(v.fields) && Normal(num, p.s) == Normal(num, q.s);
    assert Normalised(num, v.fields[p]) == Plain(SBoolean(a)) && Normalised(num, v.fields[q]) == Plain(SBoolean(!a));
  }

  /** Of the entries for 1 and "1" only one comes back. */
  lemma CollisionLosesAnEntry(num: Scanner, a: bool, m: Message)
    requires num("1") == Some(Finite(1.0))
    requires Converts(num, Colliding(a), Some(m))
    ensures !Consistent(num, Colliding(a)) && Convertible(Colliding(a))
    ensures Storable(m) && Observe(Returned(m)) != Normalised(num, Colliding(a))
  {
    hide Converts, Consistent, KeysStorable, Storable, StorableEntries, Observe, Normalised, Returned;
    hide Colliding, Convertible;
    CollidingKeys(num, a);
    StorableIff(num, Colliding(a), m);
    RoundTripIff(num, Colliding(a), m);
  }

  function Colliding(a: bool): LuaData {
    LTable(map[ScalarKey(SNumber(Finite(1.0))) := LScalar(SBoolean(a)),
               ScalarKey(SString("1")) := LScalar(SBoolean(!a))])
  }

  // ---- What arrives -----------------------------------------------------------------------------

  /** C sees a string up to its first NUL character. */
  lemma {:induction false} CTextStopsAtNul(s: string)
    ensures CText(s) <= s && '\0' !in CText(s)
    ensures |CText(s)| == |s| || s[|CText(s)|] == '\0'
    decreases |s|
  {
    if s != "" {
      CTextStopsAtNul(s[1..]);
    }
  }

  lemma CTextEndsAt(s: string, k: nat)
    requires k < |s| && s[k] == '\0' && '\0' !in s[..k]
    ensures CText(s) == s[..k]
  {
    CTextStopsAtNul(s);
    assert forall i :: 0 <= i < k ==> s[..k][i] == s[i];
    assert forall i :: 0 <= i < |CText(s)| ==> CText(s)[i] == s[i];
  }

  /** A scalar that a message leaves as it is: no numeric string, and no string with a NUL character. */
  predicate IsClean(num: Scanner, s: Scalar) {
    s.SString? ==> num(s.s) == None && '\0' !in s.s
  }

  lemma CleanIffNormal(num: Scanner, s: Scalar)
    ensures IsClean(num, s) <==> Normal(num, s) == s
  {
    if s.SString? {
      CTextStopsAtNul(s.s);
    }
  }

  /** Clean scalars arrive as they are, numeric strings as their numbers, other strings up to the first NUL. */
  lemma ScalarArrives(num: Scanner, x: Scalar, m: Message)
    requires Converts(num, LScalar(x), Some(m))
    ensures Storable(m) && (Returned(m) == LScalar(x) <==> IsClean(num, x))
    ensures x.SString? && num(x.s).Some? ==> Returned(m) == LScalar(SNumber(num(x.s).value))
    ensures x.SString? && num(x.s).None? ==> forall k :: 0 <= k < |x.s| && x.s[k] == '\0' && '\0' !in x.s[..k] ==>
      Returned(m) == LScalar(SString(x.s[..k]))
  {
    CleanIffNormal(num, x);
    if x.SString? && num(x.s).None? {
      forall k | 0 <= k < |x.s| && x.s[k] == '\0' && '\0' !in x.s[..k] ensures CText(x.s) == x.s[..k] {
        CTextEndsAt(x.s, k);
      }
    }
  }

  /** A value without the entries that cannot be sent: scalar keys and scalar or table values remain. */
  ghost function Sendable(v: LuaData): LuaData
    decreases v
  {
    match v
    case LTable(fields) =>
      LTable(map k | k in fields && k.ScalarKey? && (fields[k].LScalar? || fields[k].LTable?) :: Sendable(fields[k]))
    case _ => v
  }

  /** Every scalar that can be sent is clean; no key is a NaN, which holds of every Lua table. */
  ghost predicate AllClean(num: Scanner, v: LuaData)
    decreases v
  {
    match v
    case LScalar(s) => IsClean(num, s)
    case LTable(fields) =>
      forall k :: k in fields && k.ScalarKey? && (fields[k].LScalar? || fields[k].LTable?) ==>
        IsClean(num, k.s) && k.s != SNumber(NotANumber) && AllClean(num, fields[k])
    case _ => true
  }

  /** Entries under different keys are stored side by side. */
  lemma {:induction false} FieldsSideBySide(m: Message, n: nat, order: seq<Key>)
    requires m.MTable? && n <= |m.entries| == |order| && StorableEntries(m, n)
    requires forall i, j :: 0 <= i < j < |order| ==> order[i] != order[j]
    requires forall i :: 0 <= i < n ==> order[i] == ScalarKey(m.entries[i].key.s)
    ensures forall k :: k in ReturnedFields(m, n) <==> k in order[..n]
    ensures forall i :: 0 <= i < n ==>
      order[i] in ReturnedFields(m, n) && ReturnedFields(m, n)[order[i]] == Returned(m.entries[i].value)
  {
    if n > 0 {
      hide ReturnedFields, Returned, StorableEntries;
      FieldsStep(m, n);
      FieldsSideBySide(m, n - 1, order);
      var last, before := m.entries[n - 1], ReturnedFields(m, n - 1);
      assert ReturnedFields(m, n) == before[order[n - 1] := Returned(last.value)];
      assert order[..n] == order[..n - 1] + [order[n - 1]];
      forall i | 0 <= i < n
        ensures order[i] in ReturnedFields(m, n) && ReturnedFields(m, n)[order[i]] == Returned(m.entries[i].value)
      {
        assert i < n - 1 ==> order[i] != order[n - 1] && order[i] in before;
      }
    }
  }

  lemma KeysArrive(num: Scanner, v: LuaData, m: Message, order: seq<Key>)
    requires v.LTable? && m.MTable? && AllClean(num, v)
    requires Lists(order, KeptKeys(v.fields)) && EntriesOf(num, v, order, m.entries)
    ensures |m.entries| == |order|
    ensures forall i :: 0 <= i < |order| ==> IsKey(m.entries[i].key) && order[i] == ScalarKey(m.entries[i].key.s)
  {
    forall i | 0 <= i < |order| ensures m.entries[i].key == MScalar(order[i].s) && IsKey(m.entries[i].key) {
      CleanIffNormal(num, order[i].s);
    }
  }

  /** One table, once its values have arrived. */
  lemma TableArrives(num: Scanner, v: LuaData, m: Message, order: seq<Key>)
    requires v.LTable? && m.MTable? && AllClean(num, v)
    requires Lists(order, KeptKeys(v.fields)) && EntriesOf(num, v, order, m.entries)
    requires forall i :: 0 <= i < |order| ==>
      Storable(m.entries[i].value) && Returned(m.entries[i].value) == Sendable(v.fields[order[i]])
    ensures Storable(m) && Returned(m) == Sendable(v)
  {
    KeysArrive(num, v, m, order);
    hide Normal, Converts, AllClean, EntriesOf, Sendable, Storable, StorableEntries, Returned, ReturnedFields, KeptKeys;
    MeaningUnfolded(v);
    StorableUnfolded(m);
    ReturnedUnfolded(m);
    FieldsSideBySide(m, |order|, order);
    assert order[..|order|] == order;
    var fields, wanted := ReturnedFields(m, |order|), Sendable(v).fields;
    forall i | 0 <= i < |order| ensures order[i] in wanted && fields[order[i]] == wanted[order[i]] {
      assert order[i] in KeptKeys(v.fields);
    }
    SameMap(fields, wanted, order);
  }

  lemma SameMap<K, V>(a: map<K, V>, b: map<K, V>, order: seq<K>)
    requires (forall k :: k in a <==> k in order) && (forall k :: k in b <==> k in order)
    requires forall i :: 0 <= i < |order| ==> order[i] in a && order[i] in b && a[order[i]] == b[order[i]]
    ensures a == b
  {
    forall k | k in a ensures k in b && a[k] == b[k] {
      var i :| 0 <= i < |order| && order[i] == k;
    }
  }

  lemma ReturnedUnfolded(m: Message)
    requires m.MTable? && Storable(m)
    ensures StorableEntries(m, |m.entries|) && Returned(m) == LTable(ReturnedFields(m, |m.entries|))
  {
  }

  lemma {:induction false} CleanArrives(num: Scanner, v: LuaData, m: Message)
    requires Converts(num, v, Some(m)) && AllClean(num, v)
    ensures Storable(m) && Returned(m) == Sendable(v)
    decreases v
  {
    if v.LTable? {
      var order :| Lists(order, KeptKeys(v.fields)) && EntriesOf(num, v, order, m.entries);
      forall i | 0 <= i < |order|
        ensures Storable(m.entries[i].value) && Returned(m.entries[i].value) == Sendable(v.fields[order[i]])
      {
        assert order[i] in KeptKeys(v.fields);
        CleanArrives(num, v.fields[order[i]], m.entries[i].value);
      }
      TableArrives(num, v, m, order);
    } else {
      CleanIffNormal(num, v.s);
    }
  }

  /** One table, without the tables in it. */
  lemma MeaningUnfolded(x: LuaData)
    requires x.LTable?
    ensures Observe(x) == Mapping(set k | k in KeptKeys(x.fields) :: (k.s, Observe(x.fields[k])))
    ensures Sendable(x) == LTable(map k | k in KeptKeys(x.fields) :: Sendable(x.fields[k]))
  {
    assert Sendable(x).fields == map k | k in KeptKeys(x.fields) :: Sendable(x.fields[k]);
  }

  lemma SameMeaning(x: LuaData, y: LuaData)
    requires x.LTable? && y.LTable? && Observe(x) == Observe(y)
    requires forall k, l :: k in KeptKeys(x.fields) && l in KeptKeys(y.fields) ==>
      (Observe(x.fields[k]) == Observe(y.fields[l]) <==> Sendable(x.fields[k]) == Sendable(y.fields[l]))
    ensures Sendable(x) == Sendable(y)
  {
    MeaningUnfolded(x);
    MeaningUnfolded(y);
    hide Observe, Denote, Sendable;
    forall k | k in KeptKeys(x.fields)
      ensures k in KeptKeys(y.fields) && Sendable(x.fields[k]) == Sendable(y.fields[k])
    {
      assert (k.s, Observe(x.fields[k])) in Observe(y).pairs;
      var l :| l in KeptKeys(y.fields) && (l.s, Observe(y.fields[l])) == (k.s, Observe(x.fields[k]));
      assert l == k;
    }
    forall l | l in KeptKeys(y.fields) ensures l in KeptKeys(x.fields) {
      assert (l.s, Observe(y.fields[l])) in Observe(x).pairs;
      var k :| k in KeptKeys(x.fields) && (k.s, Observe(x.fields[k])) == (l.s, Observe(y.fields[l]));
      assert l == k;
    }
    assert Sendable(x).fields == Sendable(y).fields;
  }

  lemma SameFields(x: LuaData, y: LuaData)
    requires x.LTable? && y.LTable? && Sendable(x) == Sendable(y)
    requires forall k, l :: k in KeptKeys(x.fields) && l in KeptKeys(y.fields) ==>
      (Observe(x.fields[k]) == Observe(y.fields[l]) <==> Sendable(x.fields[k]) == Sendable(y.fields[l]))
    ensures Observe(x) == Observe(y)
  {
    MeaningUnfolded(x);
    MeaningUnfolded(y);
    hide Observe, Denote, Sendable;
    assert Sendable(x).fields.Keys == KeptKeys(x.fields) && Sendable(y).fields.Keys == KeptKeys(y.fields);
    forall k | k in KeptKeys(x.fields) ensures Observe(x.fields[k]) == Observe(y.fields[k]) {
      assert Sendable(x).fields[k] == Sendable(x.fields[k]) && Sendable(y).fields[k] == Sendable(y.fields[k]);
    }
    assert Observe(x).pairs == Observe(y).pairs;
  }

  /** Meanings tell values apart: what two values have in common if they mean the same is all that can be sent. */
  lemma {:induction false} MeaningDetermines(x: LuaData, y: LuaData)
    requires Convertible(x) && Convertible(y)
    ensures Observe(x) == Observe(y) <==> Sendable(x) == Sendable(y)
    decreases x
  {
    if x.LTable? && y.LTable? {
      forall k, l | k in KeptKeys(x.fields) && l in KeptKeys(y.fields)
        ensures Observe(x.fields[k]) == Observe(y.fields[l]) <==> Sendable(x.fields[k]) == Sendable(y.fields[l])
      {
        MeaningDetermines(x.fields[k], y.fields[l]);
      }
      if Observe(x) == Observe(y) {
        SameMeaning(x, y);
      } else if Sendable(x) == Sendable(y) {
        SameFields(x, y);
      }
    }
  }

  lemma {:induction false} SendableTwice(v: LuaData)
    requires Convertible(v)
    ensures Convertible(Sendable(v)) && Sendable(Sendable(v)) == Sendable(v)
    decreases v
  {
    if v.LTable? {
      MeaningUnfolded(v);
      MeaningUnfolded(Sendable(v));
      forall k | k in KeptKeys(v.fields) ensures Convertible(Sendable(v.fields[k])) {
        SendableTwice(v.fields[k]);
      }
      forall k | k in KeptKeys(v.fields) ensures Sendable(Sendable(v.fields[k])) == Sendable(v.fields[k]) {
        SendableTwice(v.fields[k]);
      }
      assert KeptKeys(Sendable(v).fields) == KeptKeys(v.fields);
    }
  }

  /** A value without NUL characters and numeric strings comes back as it was, less what cannot be sent. */
  lemma NormalValuesComeBack(num: Scanner, v: LuaData, m: Message)
    requires Converts(num, v, Some(m)) && AllClean(num, v)
    ensures Storable(m) && Returned(m) == Sendable(v)
    ensures Convertible(v) && Observe(Returned(m)) == Observe(v)
  {
    CleanArrives(num, v, m);
    SendableTwice(v);
    MeaningDetermines(Sendable(v), v);
  }
}

/** convertData and ReturnDataLua on the stack of a worker (LuaThread.cpp). */
module Messages {
  import opened Options
  import opened StackSpec
  import opened MessageSpec

  /** A key as a value on the stack. */
  function KeyValue(k: Key): LuaData {
    match k
    case ScalarKey(s) => LScalar(s)
    case OtherKey(id) => LOther(id)
  }

  function InsertAt<T>(s: seq<T>, pos: nat, x: T): (r: seq<T>)
    requires pos <= |s|
    ensures |r| == |s| + 1
    ensures forall i :: 0 <= i < |r| ==> r[i] == if i < pos then s[i] else if i == pos then x else s[i - 1]
  {
    s[..pos] + [x] + s[pos..]
  }

  /** The entries made so far are those of the kept keys visited so far, in some order. */
  ghost predicate MadeFrom(num: Scanner, v: LuaData, visited: set<Key>, order: seq<Key>, entries: seq<MEntry>)
    requires v.LTable?
  {
    && Lists(order, KeptKeys(v.fields) * visited)
    && EntriesOf(num, v, order, entries)
  }

  /** A kept key adds one entry wherever its address puts it; a dropped key adds none. */
  lemma MadeNext(num: Scanner, v: LuaData, visited: set<Key>, order: seq<Key>, entries: seq<MEntry>,
                 k: Key, key: Option<Message>, value: Option<Message>, pos: nat)
    requires v.LTable? && MadeFrom(num, v, visited, order, entries) && k in v.fields && k !in visited
    requires Converts(num, KeyValue(k), key) && Converts(num, v.fields[k], value) && pos <= |order| == |entries|
    ensures key.Some? && value.Some? <==> k in KeptKeys(v.fields)
    ensures key.Some? && value.Some? ==>
      MadeFrom(num, v, visited + {k}, InsertAt(order, pos, k), InsertAt(entries, pos, MEntry(key.value, value.value)))
    ensures !(key.Some? && value.Some?) ==> MadeFrom(num, v, visited + {k}, order, entries)
  {
    if key.Some? && value.Some? {
      var order', entries' := InsertAt(order, pos, k), InsertAt(entries, pos, MEntry(key.value, value.value));
      InsertedLists(order, KeptKeys(v.fields) * visited, pos, k);
      assert KeptKeys(v.fields) * visited + {k} == KeptKeys(v.fields) * (visited + {k});
      forall i | 0 <= i < |order'|
        ensures order'[i] in KeptKeys(v.fields) && entries'[i].key == MScalar(Normal(num, order'[i].s))
        ensures Converts(num, v.fields[order'[i]], Some(entries'[i].value))
      {
        if i < pos {
          assert order'[i] == order[i] && entries'[i] == entries[i];
        } else if i > pos {
          assert order'[i] == order[i - 1] && entries'[i] == entries[i - 1];
        }
      }
    } else {
      assert KeptKeys(v.fields) * visited == KeptKeys(v.fields) * (visited + {k});
    }
  }

  lemma InsertedLists<T(!new)>(order: seq<T>, keys: set<T>, pos: nat, k: T)
    requires Lists(order, keys) && k !in keys && pos <= |order|
    ensures Lists(InsertAt(order, pos, k), keys + {k})
  {
    var after := InsertAt(order, pos, k);
    forall x ensures x in after <==> x in keys + {k} {
      if x in order {
        var i :| 0 <= i < |order| && order[i] == x;
        assert after[if i < pos then i else i + 1] == x;
      }
      assert after[pos] == k;
    }
  }

  class Worker {
    var stack: seq<LuaData>
    const num: Scanner

    constructor (num: Scanner)
      ensures stack == [] && this.num == num
    {
      stack := [];
      this.num := num;
    }

    function At(n: int): LuaData
      reads this
      requires IsSlotIndex(|stack|, n)
    {
      stack[Position(|stack|, n)]
    }

    /**
     * lua_next: pops the previous key, then pushes a key that has not been visited and its value, or nothing
     * when the traversal is over. Which key comes next is up to the table.
     */
    method Next(fields: map<Key, LuaData>, visited: set<Key>, ghost base: seq<LuaData>) returns (more: bool, k: Key)
      requires visited <= fields.Keys && |stack| == |base| + 1 && stack[..|base|] == base
      modifies this
      ensures more <==> visited != fields.Keys
      ensures more ==> k in fields && k !in visited && stack == base + [KeyValue(k), fields[k]]
      ensures !more ==> stack == base
    {
      k := OtherKey(0);
      stack := stack[..|stack| - 1];
      more := visited != fields.Keys;
      if more {
        assert exists x :: x in fields && x !in visited;
        k :| k in fields && k !in visited;
        stack := stack + [KeyValue(k), fields[k]];
      }
    }

    /** A table inside a table lies on the top of the stack, which is where the C code looks for it. */
    method ConvertData(n: int, insideTable: bool, ghost v: LuaData) returns (r: Option<Message>)
      requires IsSlotIndex(|stack|, n) && At(n) == v
      requires if insideTable then v.LTable? ==> stack[|stack| - 1] == v else n > 0
      modifies this
      ensures stack == old(stack)
      ensures Converts(num, v, r)
      ensures v.LScalar? && IsClean(num, v.s) ==> r == Some(MScalar(v.s))
      decreases v.LTable?, v
    {
      if v.LScalar? {
        CleanIffNormal(num, v.s);
      }
      var x := At(n);
      if x.LScalar? && x.s.SNumber? {
        return Some(MScalar(SNumber(x.s.n)));
      } else if x.LScalar? && x.s.SString? && num(x.s.s).Some? {
        return Some(MScalar(SNumber(num(x.s.s).value)));
      } else if x.LScalar? && x.s.SString? {
        return Some(MScalar(SString(CText(x.s.s))));
      } else if x.LScalar? {
        return Some(MScalar(SBoolean(x.s.b)));
      } else if x.LTable? {
        var at := if insideTable then |stack| else n;
        var entries := ConvertTable(at, v);
        return Some(MTable(entries));
      }
      return None;
    }

    method ConvertTable(n: int, ghost v: LuaData) returns (entries: seq<MEntry>)
      requires 1 <= n <= |stack| && At(n) == v && v.LTable?
      modifies this
      ensures stack == old(stack)
      ensures Converts(num, v, Some(MTable(entries)))
      decreases true, v, 0
    {
      ghost var base := stack;
      var fields, visited: set<Key> := At(n).fields, {};
      ghost var order: seq<Key> := [];
      entries := [];
      stack := stack + [LNil];
      var more, k := Next(fields, visited, base);
      while more
        invariant visited <= fields.Keys && MadeFrom(num, v, visited, order, entries)
        invariant more ==> k in fields && k !in visited && stack == base + [KeyValue(k), fields[k]]
        invariant !more ==> visited == fields.Keys && stack == base
        decreases fields.Keys - visited, more
      {
        var key := ConvertData(-2, true, KeyValue(k));
        var value := ConvertData(-1, true, fields[k]);
        var pos: nat :| pos <= |entries|;
        MadeNext(num, v, visited, order, entries, k, key, value, pos);
        if key.Some? && value.Some? {
          entries := InsertAt(entries, pos, MEntry(key.value, value.value));
          order := InsertAt(order, pos, k);
        }
        stack := stack[..|stack| - 1];
        visited := visited + {k};
        more, k := Next(fields, visited, base);
      }
      assert KeptKeys(fields) * visited == KeptKeys(fields);
    }

    /**
     * ReturnDataLua. The result is how many values it leaves on the stack; None is the error of lua_settable,
     * after which the caller's frame is gone.
     */
    method ReturnData(m: Message) returns (pushed: Option<nat>)
      requires ScalarKeyed(m)
      modifies this
      ensures pushed.Some? <==> Storable(m)
      ensures pushed.Some? ==> pushed.value == 1 && stack == old(stack) + [Returned(m)]
      decreases m
    {
      if m.MScalar? {
        stack := stack + [LScalar(m.s)];
      } else {
        ghost var base := stack;
        stack := stack + [LTable(map[])];
        for i := 0 to |m.entries|
          invariant StorableEntries(m, i) && stack == base + [LTable(ReturnedFields(m, i))]
        {
          var e := m.entries[i];
          assert e in m.entries;
          var pushedKey := ReturnData(e.key);
          var pushedValue := ReturnData(e.value);
          if pushedValue.None? {
            return None;
          }
          var stored := SetTable(base, ReturnedFields(m, i), e.key.s, Returned(e.value));
          if !stored {
            return None;
          }
        }
      }
      return Some(1);
    }

    /** lua_settable(L, -3), which raises an error on a NaN key. */
    method SetTable(ghost base: seq<LuaData>, ghost fields: map<Key, LuaData>, ghost s: Scalar, ghost v: LuaData)
      returns (stored: bool)
      requires stack == base + [LTable(fields)] + [LScalar(s)] + [v]
      modifies this
      ensures stored <==> s != SNumber(NotANumber)
      ensures stored ==> stack == base + [LTable(fields[ScalarKey(s) := v])]
    {
      var at := |stack| - 3;
      assert stack[at] == LTable(fields) && stack[at + 1] == LScalar(s) && stack[at + 2] == v;
      if stack[at + 1].s == SNumber(NotANumber) {
        return false;
      }
      var table := stack[at].fields[ScalarKey(stack[at + 1].s) := stack[at + 2]];
      stack := stack[..at] + [LTable(table)];
      return true;
    }
  }
}
