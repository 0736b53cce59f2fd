/** Laws of the instruction-list edit: names and repetition. */
module IdlLaws {
  import opened JsText
  import opened Json
  import opened Substitution
  import opened IdlEdit

  // ---------- The literals differ ----------

  lemma KeysDiffer()
    ensures NAME != ACCOUNTS && NAME != DEFINED && ACCOUNTS != DEFINED
    ensures INSTRUCTIONS != DEFINED && INSTRUCTIONS != NAME && INSTRUCTIONS != ACCOUNTS
  {
  }

  const CONSUME_EVENTS_NAME := U("consumeEvents")
  const CONSUME_GIVEN_EVENTS_NAME := U("consumeGivenEvents")

  lemma InsertedNames()
    ensures NameOf(CONSUME_EVENTS) == Some(Str(CONSUME_EVENTS_NAME))
    ensures NameOf(CONSUME_GIVEN_EVENTS) == Some(Str(CONSUME_GIVEN_EVENTS_NAME))
    ensures NameOf(EVENT_AUTHORITY) == Some(Str(U("eventAuthority")))
    ensures NameOf(PROGRAM) == Some(Str(U("program")))
    ensures |{CREATE_MARKET, CONSUME_EVENTS_NAME, CONSUME_GIVEN_EVENTS_NAME}| == 3
    ensures U("eventAuthority") != U("program")
  {
    assert |CREATE_MARKET| == 12 && |CONSUME_EVENTS_NAME| == 13 && |CONSUME_GIVEN_EVENTS_NAME| == 18;
    assert |U("eventAuthority")| == 14 && |U("program")| == 7;
    assert CREATE_MARKET != CONSUME_EVENTS_NAME;
    assert CREATE_MARKET != CONSUME_GIVEN_EVENTS_NAME;
    assert CONSUME_EVENTS_NAME != CONSUME_GIVEN_EVENTS_NAME;
  }

  // ---------- Names ----------

  /** `v.name`; None is undefined. */
  function NameOf(v: Json): Option<Json> {
    if v.Obj? then Lookup(v.members, NAME) else None
  }

  function Names(items: seq<Json>): (names: seq<Option<Json>>)
    ensures |names| == |items| && forall i :: 0 <= i < |items| ==> names[i] == NameOf(items[i])
  {
    seq(|items|, i requires 0 <= i < |items| => NameOf(items[i]))
  }

  predicate Distinct<T(==)>(xs: seq<T>) {
    forall i, j :: 0 <= i < j < |xs| ==> xs[i] != xs[j]
  }

  lemma {:induction false} DistinctConcat<T>(a: seq<T>, b: seq<T>)
    ensures Distinct(a + b) <==> Distinct(a) && Distinct(b) && forall x :: x in a ==> x !in b
  {
    var ab := a + b;
    assert forall i :: 0 <= i < |a| ==> ab[i] == a[i];
    assert forall i :: 0 <= i < |b| ==> ab[|a| + i] == b[i];
    if Distinct(ab) {
      forall i, j | 0 <= i < j < |b| ensures b[i] != b[j] {
        assert ab[|a| + i] != ab[|a| + j];
      }
      forall i, j | 0 <= i < |a| && 0 <= j < |b| ensures a[i] != b[j] {
        assert ab[i] != ab[|a| + j];
      }
    } else {
      var i, j :| 0 <= i < j < |ab| && ab[i] == ab[j];
      if j < |a| {
        assert a[i] == a[j];
      } else if i < |a| {
        assert a[i] in a && b[j - |a|] in b;
      } else {
        assert b[i - |a|] == b[j - |a|];
      }
    }
  }

  lemma {:induction false} DistinctTwoMore<T>(xs: seq<T>, x: T, y: T)
    requires x != y
    ensures Distinct(xs + [x, y]) <==> Distinct(xs) && x !in xs && y !in xs
  {
    DistinctConcat(xs, [x, y]);
    assert x in [x, y] && y in [x, y];
  }

  /** The sequence with element `c` moved to the front. */
  function ToFront<T>(xs: seq<T>, c: nat): seq<T>
    requires c < |xs|
  {
    [xs[c]] + (xs[..c] + xs[c + 1..])
  }

  /** Moving one element to the front does not change whether all are different. */
  lemma {:induction false} DistinctMoved<T>(xs: seq<T>, c: nat)
    requires c < |xs|
    ensures Distinct(ToFront(xs, c)) <==> Distinct(xs)
    ensures forall x :: x in ToFront(xs, c) <==> x in xs
  {
    var a, x, b := xs[..c], xs[c], xs[c + 1..];
    assert xs == a + ([x] + b);
    DistinctConcat(a, [x] + b);
    DistinctConcat([x], b);
    DistinctConcat([x], a + b);
    DistinctConcat(a, b);
  }

  lemma {:induction false} NamesOfEdited(first: Json, items: seq<Json>, c: nat, x: Json, y: Json)
    requires c < |items| && NameOf(first) == NameOf(items[c])
    ensures var names := Names(items);
      Names([first] + (items[..c] + items[c + 1..]) + [x, y])
      == [names[c]] + (names[..c] + names[c + 1..]) + [NameOf(x), NameOf(y)]
  {
  }

  lemma {:induction false} NamesAfterEdit(items: seq<Json>, c: int, accounts: seq<Json>)
    requires NoNulls(items) && OnlyNamed(items, CREATE_MARKET, c)
    requires Spread(Lookup(items[c].members, ACCOUNTS)) == Some(accounts)
    ensures var names := Names(items);
      EditList(items).Done?
      && Names(EditList(items).value)
         == [names[c]] + (names[..c] + names[c + 1..])
            + [Some(Str(CONSUME_EVENTS_NAME)), Some(Str(CONSUME_GIVEN_EVENTS_NAME))]
  {
    var longer := accounts + [EVENT_AUTHORITY, PROGRAM];
    EditKeepsTheOthers(items, c, accounts);
    KeysDiffer();
    InsertedNames();
    LookupPut(items[c].members, ACCOUNTS, Arr(longer), NAME);
    NamesOfEdited(WithAccounts(items[c], longer), items, c, CONSUME_EVENTS, CONSUME_GIVEN_EVENTS);
  }

  /** With one createMarket, the instruction names of the result are all different exactly when
      those of the input are and the input had neither of the two consume instructions. */
  lemma {:induction false} EditedNamesDistinct(items: seq<Json>, c: int, accounts: seq<Json>)
    requires NoNulls(items) && OnlyNamed(items, CREATE_MARKET, c)
    requires Spread(Lookup(items[c].members, ACCOUNTS)) == Some(accounts)
    ensures EditList(items).Done?
    ensures Distinct(Names(EditList(items).value)) <==>
      Distinct(Names(items))
      && Some(Str(CONSUME_EVENTS_NAME)) !in Names(items)
      && Some(Str(CONSUME_GIVEN_EVENTS_NAME)) !in Names(items)
  {
    var names := Names(items);
    NamesAfterEdit(items, c, accounts);
    InsertedNames();
    DistinctMoved(names, c);
    DistinctTwoMore(ToFront(names, c), Some(Str(CONSUME_EVENTS_NAME)), Some(Str(CONSUME_GIVEN_EVENTS_NAME)));
  }

  /** The account names of the extended createMarket are all different exactly when those of the
      input are and it had neither of the two inserted accounts. */
  lemma {:induction false} ExtendedAccountNamesDistinct(accounts: seq<Json>)
    ensures Distinct(Names(accounts + [EVENT_AUTHORITY, PROGRAM])) <==>
      Distinct(Names(accounts))
      && Some(Str(U("eventAuthority"))) !in Names(accounts)
      && Some(Str(U("program"))) !in Names(accounts)
  {
    InsertedNames();
    DistinctTwoMore(Names(accounts), Some(Str(U("eventAuthority"))), Some(Str(U("program"))));
    assert Names(accounts + [EVENT_AUTHORITY, PROGRAM])
        == Names(accounts) + [Some(Str(U("eventAuthority"))), Some(Str(U("program")))];
  }

  // ---------- Repetition ----------

  function Repeat(xs: seq<Json>, n: nat): seq<Json> {
    if n == 0 then [] else Repeat(xs, n - 1) + xs
  }

  lemma {:induction false} RepeatOnce(xs: seq<Json>)
    ensures Repeat(xs, 1) == xs
  {
  }

  /** The edit applied to its own result, n times in all. */
  function EditListTimes(items: seq<Json>, n: nat): Outcome<seq<Json>> {
    if n == 0 then Done(items)
    else match EditListTimes(items, n - 1)
      case Done(edited) => EditList(edited)
      case failed => failed
  }

  /** What n edits make of a list whose only createMarket is at `c`. */
  function Accumulated(items: seq<Json>, c: nat, accounts: seq<Json>, n: nat): seq<Json>
    requires c < |items| && items[c].Obj?
  {
    [WithAccounts(items[c], accounts + Repeat([EVENT_AUTHORITY, PROGRAM], n))]
    + (items[..c] + items[c + 1..]) + Repeat([CONSUME_EVENTS, CONSUME_GIVEN_EVENTS], n)
  }

  lemma {:induction false} RepeatedAreNotCreateMarket(n: nat)
    ensures var r := Repeat([CONSUME_EVENTS, CONSUME_GIVEN_EVENTS], n);
      NoNulls(r) && forall i :: 0 <= i < |r| ==> !NameIs(r[i], CREATE_MARKET)
  {
    InsertedNames();
    if n > 0 {
      RepeatedAreNotCreateMarket(n - 1);
    }
  }

  /** After an edit, createMarket is at the front and still unique, and its accounts are the extended ones. */
  lemma {:induction false} AccumulatedShape(items: seq<Json>, c: nat, accounts: seq<Json>, n: nat)
    requires NoNulls(items) && OnlyNamed(items, CREATE_MARKET, c)
    ensures var list := Accumulated(items, c, accounts, n);
      NoNulls(list) && OnlyNamed(list, CREATE_MARKET, 0) && list[0].Obj?
      && Lookup(list[0].members, ACCOUNTS) == Some(Arr(accounts + Repeat([EVENT_AUTHORITY, PROGRAM], n)))
  {
    var list := Accumulated(items, c, accounts, n);
    var others := items[..c] + items[c + 1..];
    var extended := Arr(accounts + Repeat([EVENT_AUTHORITY, PROGRAM], n));
    var inserted := Repeat([CONSUME_EVENTS, CONSUME_GIVEN_EVENTS], n);
    KeysDiffer();
    LookupPut(items[c].members, ACCOUNTS, extended, ACCOUNTS);
    LookupPut(items[c].members, ACCOUNTS, extended, NAME);
    RepeatedAreNotCreateMarket(n);
    forall i | 0 < i < |list| ensures !list[i].Null? && !NameIs(list[i], CREATE_MARKET) {
      if i <= |others| {
        assert list[i] == others[i - 1];
        assert others[i - 1] == if i - 1 < c then items[i - 1] else items[i];
      } else {
        assert list[i] == inserted[i - 1 - |others|];
      }
    }
  }

  lemma {:induction false} AccumulatedStep(items: seq<Json>, c: nat, accounts: seq<Json>, n: nat)
    requires NoNulls(items) && OnlyNamed(items, CREATE_MARKET, c)
    ensures EditList(Accumulated(items, c, accounts, n)) == Done(Accumulated(items, c, accounts, n + 1))
  {
    var list := Accumulated(items, c, accounts, n);
    var before := accounts + Repeat([EVENT_AUTHORITY, PROGRAM], n);
    var after := before + [EVENT_AUTHORITY, PROGRAM];
    AccumulatedShape(items, c, accounts, n);
    EditKeepsTheOthers(list, 0, before);
    AppendLast(accounts, Repeat([EVENT_AUTHORITY, PROGRAM], n), [EVENT_AUTHORITY, PROGRAM]);
    PutPut(items[c].members, ACCOUNTS, Arr(before), Arr(after));
    AppendBehind(list, items[..c] + items[c + 1..], Repeat([CONSUME_EVENTS, CONSUME_GIVEN_EVENTS], n),
                 WithAccounts(items[c], after), [CONSUME_EVENTS, CONSUME_GIVEN_EVENTS]);
  }

  lemma AppendLast(a: seq<Json>, b: seq<Json>, c: seq<Json>)
    ensures (a + b) + c == a + (b + c)
  {
  }

  /** Replacing the head of a list and appending to it. */
  lemma AppendBehind(list: seq<Json>, others: seq<Json>, added: seq<Json>, head: Json, more: seq<Json>)
    requires list != [] && list[1..] == others + added
    ensures [head] + (list[..0] + list[1..]) + more == [head] + others + (added + more)
  {
  }

  lemma {:induction false} AccumulatedOnce(items: seq<Json>, c: nat, accounts: seq<Json>)
    requires NoNulls(items) && OnlyNamed(items, CREATE_MARKET, c)
    requires Spread(Lookup(items[c].members, ACCOUNTS)) == Some(accounts)
    ensures EditListTimes(items, 1) == Done(Accumulated(items, c, accounts, 1))
  {
    EditKeepsTheOthers(items, c, accounts);
    assert EditListTimes(items, 0) == Done(items);
    RepeatOnce([EVENT_AUTHORITY, PROGRAM]);
    RepeatOnce([CONSUME_EVENTS, CONSUME_GIVEN_EVENTS]);
  }

  /** n edits, n at least 1, of a list with one createMarket: the original accounts and n copies of the
      two inserted ones; the other instructions and n copies of the two inserted ones. */
  lemma {:induction false} EditRepeated(items: seq<Json>, c: nat, accounts: seq<Json>, n: nat)
    requires NoNulls(items) && OnlyNamed(items, CREATE_MARKET, c)
    requires Spread(Lookup(items[c].members, ACCOUNTS)) == Some(accounts)
    requires n >= 1
    ensures EditListTimes(items, n) == Done(Accumulated(items, c, accounts, n))
  {
    hide Accumulated, EditList, OnlyNamed, Lookup;
    if n == 1 {
      AccumulatedOnce(items, c, accounts);
    } else {
      EditRepeated(items, c, accounts, n - 1);
      AccumulatedStep(items, c, accounts, n - 1);
    }
  }
}
