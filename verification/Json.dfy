/** JSON values as JavaScript holds them, and the structural operations on them. */
module Json {
  import opened JsText

  /** A number is kept as its numeral, so that no rounding enters the model. */
  datatype Json =
    | Null
    | Bool(b: bool)
    | Num(numeral: Numeral)
    | Str(s: Text)
    | Arr(items: seq<Json>)
    | Obj(members: seq<Member>)

  datatype Member = Member(key: Text, value: Json)

  // ---------- Numerals (RFC 8259, section 6) ----------

  predicate IsDigit(c: CodeUnit) {
    0x30 <= c <= 0x39
  }

  predicate AllDigits(t: Text) {
    forall i :: 0 <= i < |t| ==> IsDigit(t[i])
  }

  /** A unit that can stand in a numeral: a digit, `+`, `-`, `.`, `e` or `E`. */
  predicate IsNumeralUnit(c: CodeUnit) {
    IsDigit(c) || c in {0x2B, 0x2D, 0x2E, 0x45, 0x65}
  }

  predicate IsInt(t: Text) {
    t != [] && AllDigits(t) && (t[0] == 0x30 ==> |t| == 1)
  }

  predicate IsFraction(t: Text) {
    t == [] || (t[0] == 0x2E && |t| >= 2 && AllDigits(t[1..]))
  }

  predicate IsExponent(t: Text) {
    t == [] || (t[0] in {0x45, 0x65} &&
      var digits := if |t| >= 2 && t[1] in {0x2B, 0x2D} then t[2..] else t[1..];
      digits != [] && AllDigits(digits))
  }

  /** `[ minus ] int [ frac ] [ exp ]`, for some way of cutting the text in three. */
  predicate IsNumeral(t: Text) {
    && (forall i :: 0 <= i < |t| ==> IsNumeralUnit(t[i]))
    && var body := if t != [] && t[0] == 0x2D then t[1..] else t;
      exists i, j | 0 <= i <= j <= |body| ::
        IsInt(body[..i]) && IsFraction(body[i..j]) && IsExponent(body[j..])
  }

  lemma ZeroIsNumeral()
    ensures IsNumeral([0x30])
  {
    var t: Text := [0x30];
    assert IsInt(t[..1]) && IsFraction(t[1..1]) && IsExponent(t[1..]);
  }

  type Numeral = t: Text | IsNumeral(t) witness (ZeroIsNumeral(); [0x30])

  // ---------- Object members ----------

  /** The value of a member, or None where JavaScript would give `undefined`. */
  function Lookup(ms: seq<Member>, key: Text): Option<Json> {
    if ms == [] then None
    else if ms[0].key == key then Some(ms[0].value)
    else Lookup(ms[1..], key)
  }

  /** Sets a property: in place where the key exists, at the end otherwise. */
  function Put(ms: seq<Member>, key: Text, value: Json): seq<Member> {
    if ms == [] then [Member(key, value)]
    else if ms[0].key == key then [Member(key, value)] + ms[1..]
    else [ms[0]] + Put(ms[1..], key, value)
  }

  predicate UniqueKeys(ms: seq<Member>) {
    forall i, j :: 0 <= i < j < |ms| ==> ms[i].key != ms[j].key
  }

  /** Every object in the tree has pairwise different keys, as JavaScript objects do. */
  predicate DistinctKeys(v: Json) {
    match v
    case Arr(items) => forall i :: 0 <= i < |items| ==> DistinctKeys(items[i])
    case Obj(ms) => UniqueKeys(ms) && forall i :: 0 <= i < |ms| ==> DistinctKeys(ms[i].value)
    case _ => true
  }

  lemma {:induction false} LookupFindsKey(ms: seq<Member>, key: Text)
    ensures Lookup(ms, key).None? ==> forall i :: 0 <= i < |ms| ==> ms[i].key != key
    ensures Lookup(ms, key).Some? ==> exists i :: 0 <= i < |ms| && ms[i] == Member(key, Lookup(ms, key).value)
  {
    if ms != [] {
      LookupFindsKey(ms[1..], key);
      if ms[0].key == key {
        assert ms[0] == Member(key, Lookup(ms, key).value);
      } else if Lookup(ms, key).Some? {
        var i :| 0 <= i < |ms[1..]| && ms[1..][i] == Member(key, Lookup(ms, key).value);
        assert ms[i + 1] == Member(key, Lookup(ms, key).value);
      }
    }
  }

  /** Writing a property and reading any property back. */
  lemma {:induction false} LookupPut(ms: seq<Member>, key: Text, value: Json, other: Text)
    ensures Lookup(Put(ms, key, value), other) == if other == key then Some(value) else Lookup(ms, other)
  {
    if ms != [] {
      if ms[0].key == key {
        assert Put(ms, key, value)[1..] == ms[1..];
      } else {
        LookupPut(ms[1..], key, value, other);
        assert Put(ms, key, value)[1..] == Put(ms[1..], key, value);
      }
    }
  }

  /** The last write to a property wins. */
  lemma {:induction false} PutPut(ms: seq<Member>, key: Text, first: Json, second: Json)
    ensures Put(Put(ms, key, first), key, second) == Put(ms, key, second)
  {
    if ms != [] {
      if ms[0].key == key {
        assert Put(ms, key, first)[1..] == ms[1..];
      } else {
        PutPut(ms[1..], key, first, second);
        assert Put(ms, key, first)[1..] == Put(ms[1..], key, first);
      }
    }
  }

  /** A new key goes last. */
  lemma {:induction false} PutNew(ms: seq<Member>, key: Text, value: Json)
    requires Lookup(ms, key).None?
    ensures Put(ms, key, value) == ms + [Member(key, value)]
  {
    if ms != [] {
      PutNew(ms[1..], key, value);
      assert [ms[0]] + (ms[1..] + [Member(key, value)]) == ms + [Member(key, value)];
    }
  }

  /** An existing key keeps its place; every other member is untouched. */
  lemma {:induction false} PutExisting(ms: seq<Member>, key: Text, value: Json)
    requires Lookup(ms, key).Some?
    ensures var r := Put(ms, key, value);
      |r| == |ms| && forall i :: 0 <= i < |ms| ==> r[i].key == ms[i].key && (r[i] == ms[i] || r[i].value == value)
  {
    if ms[0].key != key {
      PutExisting(ms[1..], key, value);
    }
  }

  lemma {:induction false} PutUniqueKeys(ms: seq<Member>, key: Text, value: Json)
    requires UniqueKeys(ms)
    ensures UniqueKeys(Put(ms, key, value))
  {
    if Lookup(ms, key).Some? {
      PutExisting(ms, key, value);
    } else {
      PutNew(ms, key, value);
      LookupFindsKey(ms, key);
    }
  }

  lemma {:induction false} PutDistinct(ms: seq<Member>, key: Text, value: Json)
    requires DistinctKeys(Obj(ms)) && DistinctKeys(value)
    ensures DistinctKeys(Obj(Put(ms, key, value)))
  {
    PutUniqueKeys(ms, key, value);
    if Lookup(ms, key).Some? {
      PutExisting(ms, key, value);
    } else {
      PutNew(ms, key, value);
    }
  }

  // ---------- Repeated keys ----------

  /** Sets the members one after the other, as JSON.parse does when it fills an object. */
  function PutAll(acc: seq<Member>, ms: seq<Member>): seq<Member>
    decreases |ms|
  {
    if ms == [] then acc else PutAll(Put(acc, ms[0].key, ms[0].value), ms[1..])
  }

  /** The tree with each repeated key collapsed to its last value. */
  function Collapse(v: Json): Json
    decreases v, 1
  {
    match v
    case Arr(items) => Arr(CollapseItems(items))
    case Obj(ms) => Obj(PutAll([], CollapseMembers(ms)))
    case _ => v
  }

  function CollapseItems(items: seq<Json>): (r: seq<Json>)
    decreases items, 0
    ensures |r| == |items|
  {
    if items == [] then [] else [Collapse(items[0])] + CollapseItems(items[1..])
  }

  function CollapseMembers(ms: seq<Member>): (r: seq<Member>)
    decreases ms, 0
    ensures |r| == |ms|
  {
    if ms == [] then [] else [Member(ms[0].key, Collapse(ms[0].value))] + CollapseMembers(ms[1..])
  }

  lemma {:induction false} PutAllFresh(acc: seq<Member>, ms: seq<Member>)
    requires UniqueKeys(acc + ms)
    ensures PutAll(acc, ms) == acc + ms
    decreases |ms|
  {
    if ms == [] {
      assert acc + ms == acc;
    } else {
      LookupFindsKey(acc, ms[0].key);
      assert (acc + ms)[|acc|] == ms[0];
      assert forall i :: 0 <= i < |acc| ==> (acc + ms)[i] == acc[i];
      PutNew(acc, ms[0].key, ms[0].value);
      assert acc + [ms[0]] + ms[1..] == acc + ms;
      PutAllFresh(acc + [ms[0]], ms[1..]);
    }
  }

  /** A tree without repeated keys is left alone by the collapsing of JSON.parse. */
  lemma {:induction false} CollapseDistinct(v: Json)
    requires DistinctKeys(v)
    ensures Collapse(v) == v
    decreases v, 1
  {
    match v {
      case Arr(items) => CollapseDistinctItems(items);
      case Obj(ms) =>
        CollapseDistinctMembers(ms);
        assert [] + ms == ms;
        PutAllFresh([], ms);
      case _ =>
    }
  }

  lemma {:induction false} CollapseDistinctItems(items: seq<Json>)
    requires forall i :: 0 <= i < |items| ==> DistinctKeys(items[i])
    ensures CollapseItems(items) == items
    decreases items, 0
  {
    if items != [] {
      CollapseDistinct(items[0]);
      CollapseDistinctItems(items[1..]);
    }
  }

  lemma {:induction false} CollapseDistinctMembers(ms: seq<Member>)
    requires forall i :: 0 <= i < |ms| ==> DistinctKeys(ms[i].value)
    ensures CollapseMembers(ms) == ms
    decreases ms, 0
  {
    if ms != [] {
      CollapseDistinct(ms[0].value);
      CollapseDistinctMembers(ms[1..]);
    }
  }

  lemma {:induction false} PutAllDistinct(acc: seq<Member>, ms: seq<Member>)
    requires DistinctKeys(Obj(acc)) && forall i :: 0 <= i < |ms| ==> DistinctKeys(ms[i].value)
    ensures DistinctKeys(Obj(PutAll(acc, ms)))
    decreases |ms|
  {
    if ms != [] {
      PutDistinct(acc, ms[0].key, ms[0].value);
      PutAllDistinct(Put(acc, ms[0].key, ms[0].value), ms[1..]);
    }
  }

  /** What JSON.parse builds never has a repeated key. */
  lemma {:induction false} CollapseIsDistinct(v: Json)
    ensures DistinctKeys(Collapse(v))
    decreases v, 1
  {
    match v {
      case Arr(items) => CollapseItemsDistinct(items);
      case Obj(ms) =>
        CollapseMembersDistinct(ms);
        PutAllDistinct([], CollapseMembers(ms));
      case _ =>
    }
  }

  lemma {:induction false} CollapseItemsDistinct(items: seq<Json>)
    ensures forall i :: 0 <= i < |items| ==> DistinctKeys(CollapseItems(items)[i])
    decreases items, 0
  {
    if items != [] {
      CollapseIsDistinct(items[0]);
      CollapseItemsDistinct(items[1..]);
    }
  }

  lemma {:induction false} CollapseMembersDistinct(ms: seq<Member>)
    ensures forall i :: 0 <= i < |ms| ==> DistinctKeys(CollapseMembers(ms)[i].value)
    decreases ms, 0
  {
    if ms != [] {
      CollapseIsDistinct(ms[0].value);
      CollapseMembersDistinct(ms[1..]);
    }
  }
}
