/** The structural meaning of the type rewriting: references become names. */
module Substitution {
  import opened JsText
  import opened Json

  const DEFINED := U("defined")

  /** The reference `{"defined": name}`, and what every occurrence of it becomes. */
  datatype Rule = Rule(name: Text, target: Text)

  function Ref(name: Text): Json {
    Obj([Member(DEFINED, Str(name))])
  }

  function Subst(v: Json, r: Rule): Json
    decreases v, 1
  {
    if v == Ref(r.name) then Str(r.target)
    else match v
      case Arr(items) => Arr(SubstItems(items, r))
      case Obj(ms) => Obj(SubstMembers(ms, r))
      case _ => v
  }

  function SubstItems(items: seq<Json>, r: Rule): (s: seq<Json>)
    decreases items, 0
    ensures |s| == |items| && forall i :: 0 <= i < |s| ==> s[i] == Subst(items[i], r)
  {
    if items == [] then [] else [Subst(items[0], r)] + SubstItems(items[1..], r)
  }

  function SubstMembers(ms: seq<Member>, r: Rule): (s: seq<Member>)
    decreases ms, 0
    ensures |s| == |ms| && forall i :: 0 <= i < |s| ==> s[i] == Member(ms[i].key, Subst(ms[i].value, r))
  {
    if ms == [] then [] else [Member(ms[0].key, Subst(ms[0].value, r))] + SubstMembers(ms[1..], r)
  }

  /** One pass for each rule, in order. */
  function SubstEach(v: Json, rules: seq<Rule>): Json
    decreases |rules|
  {
    if rules == [] then v else SubstEach(Subst(v, rules[0]), rules[1..])
  }

  lemma {:induction false} SubstKeepsDistinctKeys(v: Json, r: Rule)
    requires DistinctKeys(v)
    ensures DistinctKeys(Subst(v, r))
  {
    match v {
      case Arr(items) =>
        forall i | 0 <= i < |items| ensures DistinctKeys(Subst(items[i], r)) {
          SubstKeepsDistinctKeys(items[i], r);
        }
      case Obj(ms) =>
        forall i | 0 <= i < |ms| ensures DistinctKeys(Subst(ms[i].value, r)) {
          SubstKeepsDistinctKeys(ms[i].value, r);
        }
      case _ =>
    }
  }

  // ---------- Counting references ----------

  /** How many subtrees are the reference to `name`. */
  function Count(v: Json, name: Text): nat
    decreases v, 1
  {
    if v == Ref(name) then 1
    else match v
      case Arr(items) => CountItems(items, name)
      case Obj(ms) => CountMembers(ms, name)
      case _ => 0
  }

  function CountItems(items: seq<Json>, name: Text): nat
    decreases items, 0
  {
    if items == [] then 0 else Count(items[0], name) + CountItems(items[1..], name)
  }

  function CountMembers(ms: seq<Member>, name: Text): nat
    decreases ms, 0
  {
    if ms == [] then 0 else Count(ms[0].value, name) + CountMembers(ms[1..], name)
  }

  lemma {:induction false} CountItemsZero(items: seq<Json>, name: Text)
    ensures CountItems(items, name) == 0 <==> forall i :: 0 <= i < |items| ==> Count(items[i], name) == 0
  {
    if items != [] {
      CountItemsZero(items[1..], name);
      if forall i :: 0 <= i < |items[1..]| ==> Count(items[1..][i], name) == 0 {
        assert forall i :: 0 < i < |items| ==> items[i] == items[1..][i - 1];
      } else {
        var i :| 0 <= i < |items[1..]| && Count(items[1..][i], name) != 0;
        assert Count(items[i + 1], name) != 0;
      }
    }
  }

  lemma {:induction false} CountMembersZero(ms: seq<Member>, name: Text)
    ensures CountMembers(ms, name) == 0 <==> forall i :: 0 <= i < |ms| ==> Count(ms[i].value, name) == 0
  {
    if ms != [] {
      CountMembersZero(ms[1..], name);
      if forall i :: 0 <= i < |ms[1..]| ==> Count(ms[1..][i].value, name) == 0 {
        assert forall i :: 0 < i < |ms| ==> ms[i] == ms[1..][i - 1];
      } else {
        var i :| 0 <= i < |ms[1..]| && Count(ms[1..][i].value, name) != 0;
        assert Count(ms[i + 1].value, name) != 0;
      }
    }
  }

  /** A pass leaves exactly the trees without the reference unchanged. */
  lemma {:induction false} SubstFixesIffNoRef(v: Json, r: Rule)
    ensures Subst(v, r) == v <==> Count(v, r.name) == 0
  {
    match v {
      case Arr(items) =>
        CountItemsZero(items, r.name);
        forall i | 0 <= i < |items| ensures Subst(items[i], r) == items[i] <==> Count(items[i], r.name) == 0 {
          SubstFixesIffNoRef(items[i], r);
        }
        if Subst(v, r) == v {
          assert forall i :: 0 <= i < |items| ==> SubstItems(items, r)[i] == Subst(items[i], r);
        }
      case Obj(ms) =>
        if v != Ref(r.name) {
          CountMembersZero(ms, r.name);
          forall i | 0 <= i < |ms|
            ensures Subst(ms[i].value, r) == ms[i].value <==> Count(ms[i].value, r.name) == 0
          {
            SubstFixesIffNoRef(ms[i].value, r);
          }
          if Subst(v, r) == v {
            assert forall i :: 0 <= i < |ms| ==> SubstMembers(ms, r)[i] == ms[i];
          }
        }
      case _ =>
    }
  }

  /** A reference whose name is itself a reference: one pass turns it into a new reference. */
  function Nested(name: Text): Json {
    Obj([Member(DEFINED, Ref(name))])
  }

  /** How many subtrees are a reference to the reference to `name`. */
  function CountNested(v: Json, name: Text): nat
    decreases v, 1
  {
    if v == Nested(name) then 1
    else match v
      case Arr(items) => CountNestedItems(items, name)
      case Obj(ms) => CountNestedMembers(ms, name)
      case _ => 0
  }

  function CountNestedItems(items: seq<Json>, name: Text): nat
    decreases items, 0
  {
    if items == [] then 0 else CountNested(items[0], name) + CountNestedItems(items[1..], name)
  }

  function CountNestedMembers(ms: seq<Member>, name: Text): nat
    decreases ms, 0
  {
    if ms == [] then 0 else CountNested(ms[0].value, name) + CountNestedMembers(ms[1..], name)
  }

  /** A pass removes its own references and no others. It makes new ones, to the name it writes, out of the
      references to its references and out of nothing else. */
  lemma {:induction false} CountAfter(v: Json, r: Rule, name: Text)
    ensures Count(Subst(v, r), name)
         == (if name == r.name then 0 else Count(v, name)) + (if name == r.target then CountNested(v, r.name) else 0)
    decreases v, 1
  {
    match v {
      case Arr(items) => CountAfterItems(items, r, name);
      case Obj(ms) =>
        if v == Ref(r.name) || v == Ref(name) {
          RefCounts(v.members[0].value.s, r, name);
        } else if v == Nested(r.name) {
          NestedCounts(r, name);
        } else {
          SubstMakesRef(v, r, name);
          CountAfterMembers(ms, r, name);
        }
      case _ =>
    }
  }

  lemma {:induction false} RefCounts(word: Text, r: Rule, name: Text)
    ensures Count(Ref(word), name) == if word == name then 1 else 0
    ensures CountNested(Ref(word), r.name) == 0
    ensures Subst(Ref(word), r) == if word == r.name then Str(r.target) else Ref(word)
  {
    var ms := [Member(DEFINED, Str(word))];
    assert ms[1..] == [];
    assert CountMembers(ms, name) == 0 && CountNestedMembers(ms, r.name) == 0;
    assert SubstMembers(ms, r) == ms;
  }

  lemma {:induction false} NestedCounts(r: Rule, name: Text)
    ensures Count(Nested(r.name), name) == if name == r.name then 1 else 0
    ensures Subst(Nested(r.name), r) == Ref(r.target)
    ensures Count(Ref(r.target), name) == if name == r.target then 1 else 0
  {
    var ms := [Member(DEFINED, Ref(r.name))];
    assert ms[1..] == [];
    RefCounts(r.name, r, name);
    RefCounts(r.target, r, name);
    assert CountMembers(ms, name) == Count(Ref(r.name), name);
    assert SubstMembers(ms, r) == [Member(DEFINED, Str(r.target))];
  }

  /** The rewritten object is a reference only if it was one, or was a reference to the rewritten reference. */
  lemma {:induction false} SubstMakesRef(v: Json, r: Rule, name: Text)
    requires v.Obj? && v != Ref(r.name)
    ensures Subst(v, r) == Ref(name) <==> v == Ref(name) || (name == r.target && v == Nested(r.name))
  {
    if |v.members| == 1 {
      assert v.members == [v.members[0]];
      assert SubstMembers(v.members, r) == [Member(v.members[0].key, Subst(v.members[0].value, r))];
    }
  }

  lemma {:induction false} CountAfterItems(items: seq<Json>, r: Rule, name: Text)
    ensures CountItems(SubstItems(items, r), name)
         == (if name == r.name then 0 else CountItems(items, name))
            + (if name == r.target then CountNestedItems(items, r.name) else 0)
    decreases items, 0
  {
    if items != [] {
      CountAfter(items[0], r, name);
      CountAfterItems(items[1..], r, name);
      assert SubstItems(items, r)[1..] == SubstItems(items[1..], r);
    }
  }

  lemma {:induction false} CountAfterMembers(ms: seq<Member>, r: Rule, name: Text)
    ensures CountMembers(SubstMembers(ms, r), name)
         == (if name == r.name then 0 else CountMembers(ms, name))
            + (if name == r.target then CountNestedMembers(ms, r.name) else 0)
    decreases ms, 0
  {
    if ms != [] {
      CountAfter(ms[0].value, r, name);
      CountAfterMembers(ms[1..], r, name);
      assert SubstMembers(ms, r)[1..] == SubstMembers(ms[1..], r);
    }
  }

  // ---------- Two passes ----------

  /** Both rules at once, in one traversal; where they name the same reference the first one wins. */
  function SubstBoth(v: Json, a: Rule, b: Rule): Json
    decreases v, 1
  {
    if v == Ref(a.name) then Str(a.target)
    else if v == Ref(b.name) then Str(b.target)
    else match v
      case Arr(items) => Arr(SubstBothItems(items, a, b))
      case Obj(ms) => Obj(SubstBothMembers(ms, a, b))
      case _ => v
  }

  function SubstBothItems(items: seq<Json>, a: Rule, b: Rule): (s: seq<Json>)
    decreases items, 0
    ensures |s| == |items| && forall i :: 0 <= i < |s| ==> s[i] == SubstBoth(items[i], a, b)
  {
    if items == [] then [] else [SubstBoth(items[0], a, b)] + SubstBothItems(items[1..], a, b)
  }

  function SubstBothMembers(ms: seq<Member>, a: Rule, b: Rule): (s: seq<Member>)
    decreases ms, 0
    ensures |s| == |ms| && forall i :: 0 <= i < |s| ==> s[i] == Member(ms[i].key, SubstBoth(ms[i].value, a, b))
  {
    if ms == [] then [] else [Member(ms[0].key, SubstBoth(ms[0].value, a, b))] + SubstBothMembers(ms[1..], a, b)
  }

  lemma {:induction false} SecondPassSeesTheInput(v: Json, a: Rule, b: Rule)
    requires a.target != b.name
    ensures Subst(Subst(v, a), b) == SubstBoth(v, a, b)
  {
    match v {
      case Arr(items) =>
        forall i | 0 <= i < |items| ensures Subst(Subst(items[i], a), b) == SubstBoth(items[i], a, b) {
          SecondPassSeesTheInput(items[i], a, b);
        }
        assert SubstItems(SubstItems(items, a), b) == SubstBothItems(items, a, b);
      case Obj(ms) =>
        if v != Ref(a.name) {
          SubstMakesRef(v, a, b.name);
          forall i | 0 <= i < |ms| ensures Subst(Subst(ms[i].value, a), b) == SubstBoth(ms[i].value, a, b) {
            SecondPassSeesTheInput(ms[i].value, a, b);
          }
          assert SubstMembers(SubstMembers(ms, a), b) == SubstBothMembers(ms, a, b);
        }
      case _ =>
    }
  }

  lemma {:induction false} SubstNested(name: Text, r: Rule)
    ensures Subst(Nested(name), r) == if r.name == name then Ref(r.target) else Nested(name)
  {
    var inner := Subst(Ref(name), r);
    assert inner == if r.name == name then Str(r.target) else Ref(name) by {
      assert SubstMembers([Member(DEFINED, Str(name))], r) == [Member(DEFINED, Str(name))];
    }
    assert SubstMembers([Member(DEFINED, Ref(name))], r) == [Member(DEFINED, inner)];
  }

  /** Two passes amount to one simultaneous substitution, on every tree, exactly when the
      first does not write the name that the second looks for. */
  lemma {:induction false} PassesAreSimultaneous(a: Rule, b: Rule)
    ensures (forall v :: Subst(Subst(v, a), b) == SubstBoth(v, a, b)) <==> a.target != b.name
  {
    if a.target != b.name {
      forall v ensures Subst(Subst(v, a), b) == SubstBoth(v, a, b) {
        SecondPassSeesTheInput(v, a, b);
      }
    } else {
      var v := Nested(a.name);
      SubstNested(a.name, a);
      assert Subst(Subst(v, a), b) == Str(b.target);
      assert SubstBoth(v, a, b).Obj?;
    }
  }

  /** A pass can be repeated without effect, on every tree, exactly when it does not write
      the name that it looks for. */
  lemma {:induction false} PassIsIdempotent(r: Rule)
    ensures (forall v :: Subst(Subst(v, r), r) == Subst(v, r)) <==> r.target != r.name
  {
    if r.target != r.name {
      forall v ensures Subst(Subst(v, r), r) == Subst(v, r) {
        CountAfter(v, r, r.name);
        SubstFixesIffNoRef(Subst(v, r), r);
      }
    } else {
      var v := Nested(r.name);
      SubstNested(r.name, r);
      assert Subst(Subst(v, r), r) == Str(r.target);
    }
  }

  lemma {:induction false} SubstBothSymmetric(v: Json, a: Rule, b: Rule)
    requires a.name != b.name
    ensures SubstBoth(v, a, b) == SubstBoth(v, b, a)
  {
    match v {
      case Arr(items) =>
        forall i | 0 <= i < |items| ensures SubstBoth(items[i], a, b) == SubstBoth(items[i], b, a) {
          SubstBothSymmetric(items[i], a, b);
        }
        assert SubstBothItems(items, a, b) == SubstBothItems(items, b, a);
      case Obj(ms) =>
        forall i | 0 <= i < |ms| ensures SubstBoth(ms[i].value, a, b) == SubstBoth(ms[i].value, b, a) {
          SubstBothSymmetric(ms[i].value, a, b);
        }
        assert SubstBothMembers(ms, a, b) == SubstBothMembers(ms, b, a);
      case _ =>
    }
  }

  /** Neither rule writes what the other looks for. */
  predicate Independent(a: Rule, b: Rule) {
    a.name != b.name && a.target != b.name && b.target != a.name
  }

  lemma {:induction false} IndependentPassesCommute(v: Json, a: Rule, b: Rule)
    requires Independent(a, b)
    ensures Subst(Subst(v, a), b) == Subst(Subst(v, b), a)
  {
    SecondPassSeesTheInput(v, a, b);
    SecondPassSeesTheInput(v, b, a);
    SubstBothSymmetric(v, a, b);
  }

  /** The order of two different passes does not matter, on every tree, exactly when they are independent. */
  lemma {:induction false} PassesCommute(a: Rule, b: Rule)
    ensures (forall v :: Subst(Subst(v, a), b) == Subst(Subst(v, b), a)) <==> a == b || Independent(a, b)
  {
    if Independent(a, b) {
      forall v ensures Subst(Subst(v, a), b) == Subst(Subst(v, b), a) {
        IndependentPassesCommute(v, a, b);
      }
    } else if a != b {
      var v := if a.name == b.name then Ref(a.name) else Nested(if a.target == b.name then a.name else b.name);
      if a.name == b.name {
        assert Subst(v, a) == Str(a.target) && Subst(v, b) == Str(b.target);
      } else if a.target == b.name {
        PassesInterfere(a, b);
      } else {
        PassesInterfere(b, a);
      }
      assert Subst(Subst(v, a), b) != Subst(Subst(v, b), a);
    }
  }

  lemma {:induction false} PassesInterfere(a: Rule, b: Rule)
    requires a.name != b.name && a.target == b.name
    ensures Subst(Subst(Nested(a.name), a), b) != Subst(Subst(Nested(a.name), b), a)
  {
  }
}
