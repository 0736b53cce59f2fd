/** Whether every defined name that an IDL refers to has an entry among its types. */
module Closure {
  import opened JsText
  import opened Json
  import opened Substitution
  import opened TypeRewrite
  import opened IdlEdit
  import opened IdlLaws
  import opened EditAndRewrite
  import opened Convert

  const TYPES := U("types")

  // ---------- Names referred to ----------

  /** How an object can use a name in its `defined` member. */
  datatype Use =
    | Any    // the member is the name
    | Wide   // the member is the name, and the object has other members, so that a pass leaves it alone
    | Nested // the member is itself the reference to the name, so that a pass turns it into a string

  predicate UsedBy(ms: seq<Member>, name: Text, use: Use) {
    match use
    case Any => Lookup(ms, DEFINED) == Some(Str(name))
    case Wide => Lookup(ms, DEFINED) == Some(Str(name)) && |ms| > 1
    case Nested => Lookup(ms, DEFINED) == Some(Ref(name))
  }

  /** Some object of the tree uses the name. */
  predicate Uses(v: Json, name: Text, use: Use) {
    match v
    case Arr(items) => exists i :: 0 <= i < |items| && Uses(items[i], name, use)
    case Obj(ms) => UsedBy(ms, name, use) || exists i :: 0 <= i < |ms| && Uses(ms[i].value, name, use)
    case _ => false
  }

  /** Some object of the tree has a member `defined` that is the name. */
  predicate RefersTo(v: Json, name: Text) {
    Uses(v, name, Any)
  }

  // ---------- One pass ----------

  /** What a pass makes of the uses of a name. Its own references are gone, but not where they have other
      members; and a reference in a `defined` member makes the target a name referred to. */
  predicate UsesAfter(v: Json, r: Rule, name: Text, use: Use) {
    match use
    case Any =>
      || Uses(v, name, if name == r.name then Wide else Any)
      || (name == r.target && Uses(v, r.name, Nested))
    case Wide => Uses(v, name, Wide)
    case Nested => name != r.name && Uses(v, name, Nested)
  }

  /** The same for the one object, apart from what it contains. */
  predicate UsedByAfter(ms: seq<Member>, r: Rule, name: Text, use: Use) {
    match use
    case Any =>
      || UsedBy(ms, name, if name == r.name then Wide else Any)
      || (name == r.target && UsedBy(ms, r.name, Nested))
    case Wide => UsedBy(ms, name, Wide)
    case Nested => name != r.name && UsedBy(ms, name, Nested)
  }

  lemma {:induction false} RefUses(word: Text, name: Text, use: Use)
    ensures Uses(Ref(word), name, use) <==> name == word && use == Any
  {
    var ms := [Member(DEFINED, Str(word))];
    assert !Uses(ms[0].value, name, use);
  }

  lemma {:induction false} UsedBySubst(ms: seq<Member>, r: Rule, name: Text, use: Use)
    requires use == Any || name != r.target
    requires Obj(ms) != Ref(r.name)
    ensures UsedBy(SubstMembers(ms, r), name, use) <==> UsedByAfter(ms, r, name, use)
  {
    LookupSubst(ms, DEFINED, r);
    if Lookup(ms, DEFINED).Some? && Lookup(ms, DEFINED).value.Obj? && Lookup(ms, DEFINED).value != Ref(r.name) {
      if use == Nested {
        SubstMakesRef(Lookup(ms, DEFINED).value, r, name);
      }
    }
    assert |ms| == 1 ==> ms == [ms[0]];
  }

  lemma AfterInItems(items: seq<Json>, r: Rule, name: Text, use: Use)
    ensures UsesAfter(Arr(items), r, name, use) <==>
      exists i :: 0 <= i < |items| && UsesAfter(items[i], r, name, use)
  {
  }

  lemma AfterInMembers(ms: seq<Member>, r: Rule, name: Text, use: Use)
    ensures UsesAfter(Obj(ms), r, name, use) <==>
      UsedByAfter(ms, r, name, use) || exists i :: 0 <= i < |ms| && UsesAfter(ms[i].value, r, name, use)
  {
    hide UsedBy;
  }

  lemma {:induction false} UsesInItems(items: seq<Json>, r: Rule, name: Text, use: Use)
    requires forall i :: 0 <= i < |items| ==>
      (Uses(Subst(items[i], r), name, use) <==> UsesAfter(items[i], r, name, use))
    ensures Uses(Arr(SubstItems(items, r)), name, use) <==> UsesAfter(Arr(items), r, name, use)
  {
    hide Subst, UsesAfter;
    AfterInItems(items, r, name, use);
    assert forall i :: 0 <= i < |items| ==> SubstItems(items, r)[i] == Subst(items[i], r);
  }

  lemma {:induction false} UsesInMembers(ms: seq<Member>, r: Rule, name: Text, use: Use)
    requires UsedBy(SubstMembers(ms, r), name, use) <==> UsedByAfter(ms, r, name, use)
    requires forall i :: 0 <= i < |ms| ==>
      (Uses(Subst(ms[i].value, r), name, use) <==> UsesAfter(ms[i].value, r, name, use))
    ensures Uses(Obj(SubstMembers(ms, r)), name, use) <==> UsesAfter(Obj(ms), r, name, use)
  {
    hide UsedBy, UsedByAfter, Subst, UsesAfter;
    AfterInMembers(ms, r, name, use);
    assert forall i :: 0 <= i < |ms| ==> SubstMembers(ms, r)[i].value == Subst(ms[i].value, r);
  }

  /** What a tree refers to after a pass, whatever its `defined` members look like. */
  lemma {:induction false} UsesAfterPass(v: Json, r: Rule, name: Text, use: Use)
    requires use == Any || name != r.target
    ensures Uses(Subst(v, r), name, use) <==> UsesAfter(v, r, name, use)
  {
    match v {
      case Arr(items) =>
        forall i | 0 <= i < |items|
          ensures Uses(Subst(items[i], r), name, use) <==> UsesAfter(items[i], r, name, use)
        {
          UsesAfterPass(items[i], r, name, use);
        }
        UsesInItems(items, r, name, use);
      case Obj(ms) =>
        if v == Ref(r.name) {
          RefUses(r.name, name, use);
          RefUses(r.name, name, Wide);
          RefUses(r.name, r.name, Nested);
        } else {
          forall i | 0 <= i < |ms|
            ensures Uses(Subst(ms[i].value, r), name, use) <==> UsesAfter(ms[i].value, r, name, use)
          {
            UsesAfterPass(ms[i].value, r, name, use);
          }
          UsedBySubst(ms, r, name, use);
          UsesInMembers(ms, r, name, use);
        }
      case _ =>
    }
  }

  /** The rewriting removes `usize` and `NodeHandle` from the names referred to, but not where the object has
      other members; and it adds `u64` or `u32` where a `defined` member is itself such a reference. */
  lemma {:induction false} RefersAfterRewriting(v: Json, name: Text)
    ensures RefersTo(Rewritten(v), name) <==>
      || Uses(v, name, if name == USIZE.name || name == NODE_HANDLE.name then Wide else Any)
      || (name == USIZE.target && Uses(v, USIZE.name, Nested))
      || (name == NODE_HANDLE.target && Uses(v, NODE_HANDLE.name, Nested))
  {
    RulesAreIndependent();
    var once := Subst(v, USIZE);
    UsesAfterPass(once, NODE_HANDLE, name, Any);
    UsesAfterPass(v, USIZE, name, Any);
    UsesAfterPass(v, USIZE, NODE_HANDLE.name, Nested);
    if name == NODE_HANDLE.name {
      UsesAfterPass(v, USIZE, name, Wide);
    }
  }

  // ---------- The types ----------

  /** The entries of `types`, each with a string for its name. */
  predicate ProperTypes(idl: Json) {
    && idl.Obj?
    && Lookup(idl.members, TYPES).Some? && Lookup(idl.members, TYPES).value.Arr?
    && var names := Names(Lookup(idl.members, TYPES).value.items);
      forall i :: 0 <= i < |names| ==> names[i].Some? && names[i].value.Str?
  }

  function TypeNames(idl: Json): seq<Option<Json>>
    requires ProperTypes(idl)
  {
    Names(Lookup(idl.members, TYPES).value.items)
  }

  lemma {:induction false} TypeNamesAfter(idl: Json, r: Rule)
    requires ProperTypes(idl)
    ensures ProperTypes(Subst(idl, r)) && TypeNames(Subst(idl, r)) == TypeNames(idl)
  {
    assert |TYPES| == 5 && |DEFINED| == 7;
    var entries := Lookup(idl.members, TYPES).value.items;
    SubstObj(idl.members, TYPES, r);
    LookupSubst(idl.members, TYPES, r);
    KeysDiffer();
    forall i | 0 <= i < |entries| ensures NameOf(Subst(entries[i], r)) == NameOf(entries[i]) {
      assert Names(entries)[i].Some?;
      SubstObj(entries[i].members, NAME, r);
      LookupSubst(entries[i].members, NAME, r);
    }
    assert Names(SubstItems(entries, r)) == Names(entries);
  }

  // ---------- The edit ----------

  lemma {:induction false} NoUseInScalars(ms: seq<Member>, name: Text, use: Use)
    requires forall i :: 0 <= i < |ms| ==> ms[i].value.Str? || ms[i].value.Bool?
    requires forall i :: 0 <= i < |ms| ==> ms[i].key != DEFINED
    ensures !Uses(Obj(ms), name, use)
  {
    LookupFindsKey(ms, DEFINED);
  }

  lemma {:induction false} NoUseInAccount(name: string, isMut: bool, isSigner: bool, ref: Text, use: Use)
    ensures !Uses(Account(name, isMut, isSigner), ref, use)
    ensures !Uses(OptionalAccount(name, isMut, isSigner), ref, use)
  {
    var isMutKey, isSignerKey, isOptionalKey := U("isMut"), U("isSigner"), U("isOptional");
    assert |NAME| == 4 && |isMutKey| == 5 && |isSignerKey| == 8 && |isOptionalKey| == 10 && |DEFINED| == 7;
    NoUseInScalars(Account(name, isMut, isSigner).members, ref, use);
    NoUseInScalars(OptionalAccount(name, isMut, isSigner).members, ref, use);
  }

  lemma {:induction false} NoUseInInstruction(
    name: string, docs: seq<string>, accounts: seq<Json>, args: seq<Json>, ref: Text, use: Use)
    requires !Uses(Arr(accounts), ref, use) && !Uses(Arr(args), ref, use)
    ensures !Uses(Instruction(name, docs, accounts, args), ref, use)
  {
    var ms := Instruction(name, docs, accounts, args).members;
    var docsKey, argsKey := U("docs"), U("args");
    assert |NAME| == 4 && |docsKey| == 4 && |ACCOUNTS| == 8 && |argsKey| == 4 && |DEFINED| == 7;
    LookupFindsKey(ms, DEFINED);
    assert !Uses(Lines(docs), ref, use);
  }

  lemma {:induction false} NoUseInConsumeAccounts(ref: Text, use: Use)
    ensures !Uses(Arr(CONSUME_ACCOUNTS), ref, use)
  {
    NoUseInAccount("consumeEventsAdmin", false, true, ref, use);
    NoUseInAccount("market", true, false, ref, use);
    NoUseInAccount("eventHeap", true, false, ref, use);
  }

  lemma {:induction false} NoUseInArgument(name: string, ty: Json, ref: Text, use: Use)
    requires !Uses(ty, ref, use)
    ensures !Uses(Arr([Argument(name, ty)]), ref, use)
  {
    var typeKey := U("type");
    assert |NAME| == 4 && |typeKey| == 4 && |DEFINED| == 7;
    LookupFindsKey(Argument(name, ty).members, DEFINED);
    assert !Uses(Argument(name, ty), ref, use);
  }

  lemma {:induction false} NoUseInInserted(ref: Text, use: Use)
    ensures forall x :: x in [EVENT_AUTHORITY, PROGRAM, CONSUME_EVENTS, CONSUME_GIVEN_EVENTS] ==> !Uses(x, ref, use)
  {
    var vecKey := U("vec");
    var vec := Obj([Member(vecKey, Str(U("u64")))]);
    assert |vecKey| == 3 && |DEFINED| == 7;
    NoUseInAccount("eventAuthority", false, false, ref, use);
    NoUseInAccount("program", false, false, ref, use);
    NoUseInConsumeAccounts(ref, use);
    NoUseInArgument("limit", Str(U("u64")), ref, use);
    NoUseInScalars(vec.members, ref, use);
    NoUseInArgument("slots", vec, ref, use);
    NoUseInInstruction("consumeEvents", CONSUME_EVENTS_DOCS, CONSUME_ACCOUNTS,
                       [Argument("limit", Str(U("u64")))], ref, use);
    NoUseInInstruction("consumeGivenEvents", CONSUME_GIVEN_EVENTS_DOCS, CONSUME_ACCOUNTS,
                       [Argument("slots", vec)], ref, use);
  }

  lemma {:induction false} PutContents(ms: seq<Member>, key: Text, value: Json)
    requires UniqueKeys(ms)
    ensures forall m :: m in Put(ms, key, value) <==> m == Member(key, value) || (m in ms && m.key != key)
  {
    if ms != [] {
      if ms[0].key == key {
        assert forall m :: m in ms <==> m == ms[0] || m in ms[1..];
      } else {
        PutContents(ms[1..], key, value);
        assert forall m :: m in ms <==> m == ms[0] || m in ms[1..];
      }
    }
  }

  lemma {:induction false} PutSame(ms: seq<Member>, key: Text)
    requires Lookup(ms, key).Some?
    ensures Put(ms, key, Lookup(ms, key).value) == ms
  {
    if ms[0].key != key {
      PutSame(ms[1..], key);
    }
  }

  /** The object itself, or another member than `key`, uses the name. */
  predicate OthersUse(ms: seq<Member>, key: Text, name: Text, use: Use) {
    UsedBy(ms, name, use) || exists m :: m in ms && m.key != key && Uses(m.value, name, use)
  }

  lemma {:induction false} UsedByPut(ms: seq<Member>, key: Text, value: Json, name: Text, use: Use)
    requires key != DEFINED && Lookup(ms, key).Some?
    ensures UsedBy(Put(ms, key, value), name, use) <==> UsedBy(ms, name, use)
  {
    PutExisting(ms, key, value);
    LookupPut(ms, key, value, DEFINED);
  }

  /** Writing a property that is there: the names used are those of the new value and of all the rest. */
  lemma {:induction false} UsesAfterPut(ms: seq<Member>, key: Text, value: Json, name: Text, use: Use)
    requires UniqueKeys(ms) && key != DEFINED && Lookup(ms, key).Some?
    ensures Uses(Obj(Put(ms, key, value)), name, use) <==> Uses(value, name, use) || OthersUse(ms, key, name, use)
  {
    hide UsedBy, Lookup, Put;
    var ms' := Put(ms, key, value);
    PutContents(ms, key, value);
    UsedByPut(ms, key, value, name, use);
    if exists i :: 0 <= i < |ms'| && Uses(ms'[i].value, name, use) {
      var i :| 0 <= i < |ms'| && Uses(ms'[i].value, name, use);
      assert ms'[i] in ms';
    }
    if exists m :: m in ms' && Uses(m.value, name, use) {
      var m :| m in ms' && Uses(m.value, name, use);
      var i :| 0 <= i < |ms'| && ms'[i] == m;
      assert Uses(ms'[i].value, name, use);
    }
    assert Member(key, value) in ms';
  }

  /** Replacing a property value by one that uses the same names changes nothing. */
  lemma {:induction false} UsesAfterReplace(ms: seq<Member>, key: Text, value: Json, name: Text, use: Use)
    requires UniqueKeys(ms) && key != DEFINED && Lookup(ms, key).Some?
    requires Uses(value, name, use) <==> Uses(Lookup(ms, key).value, name, use)
    ensures Uses(Obj(Put(ms, key, value)), name, use) <==> Uses(Obj(ms), name, use)
  {
    UsesAfterPut(ms, key, value, name, use);
    UsesAfterPut(ms, key, Lookup(ms, key).value, name, use);
    PutSame(ms, key);
  }

  /** Two more trees that use no name do not change what a list uses. */
  lemma {:induction false} UsesBefore(items: seq<Json>, x: Json, y: Json, name: Text, use: Use)
    requires !Uses(x, name, use) && !Uses(y, name, use)
    ensures Uses(Arr(items + [x, y]), name, use) <==> Uses(Arr(items), name, use)
  {
    var longer := items + [x, y];
    if Uses(Arr(items), name, use) {
      var i :| 0 <= i < |items| && Uses(items[i], name, use);
      assert Uses(longer[i], name, use);
    }
    if Uses(Arr(longer), name, use) {
      var i :| 0 <= i < |longer| && Uses(longer[i], name, use);
      assert Uses(items[i], name, use);
    }
  }

  lemma {:induction false} UsesSpread(v: Json, name: Text, use: Use)
    requires Spread(Some(v)).Some?
    ensures Uses(Arr(Spread(Some(v)).value), name, use) <==> Uses(v, name, use)
  {
    if v.Str? {
      CodePointsJoin(v.s);
    }
  }

  /** createMarket uses the same names after its accounts are extended. */
  lemma {:induction false} UsesExtended(found: Json, name: Text, use: Use)
    requires DistinctKeys(found) && NameIs(found, CREATE_MARKET)
    requires Spread(Lookup(found.members, ACCOUNTS)).Some?
    ensures var accounts := Spread(Lookup(found.members, ACCOUNTS)).value + [EVENT_AUTHORITY, PROGRAM];
      Uses(WithAccounts(found, accounts), name, use) <==> Uses(found, name, use)
  {
    var v := Lookup(found.members, ACCOUNTS).value;
    var accounts := Spread(Some(v)).value;
    KeysDiffer();
    NoUseInInserted(name, use);
    UsesSpread(v, name, use);
    UsesBefore(accounts, EVENT_AUTHORITY, PROGRAM, name, use);
    UsesAfterReplace(found.members, ACCOUNTS, Arr(accounts + [EVENT_AUTHORITY, PROGRAM]), name, use);
  }

  /** The IDL without what the edit loses: only the first createMarket, in front of the others. */
  function Kept(idl: Json): Json
    requires EditIdl(idl).Done?
  {
    var items := InstructionsOf(idl).value;
    EditListOutcome(items);
    EditListIsAssembled(items);
    WithInstructions(idl, [Find(items, CREATE_MARKET).value] + Without(items, CREATE_MARKET).value)
  }

  lemma {:induction false} UsesFirst(x: Json, y: Json, others: seq<Json>, name: Text, use: Use)
    requires Uses(x, name, use) <==> Uses(y, name, use)
    ensures Uses(Arr([x] + others), name, use) <==> Uses(Arr([y] + others), name, use)
  {
    var xs, ys := [x] + others, [y] + others;
    assert forall i :: 0 < i < |xs| ==> xs[i] == ys[i];
    if Uses(Arr(xs), name, use) {
      var i :| 0 <= i < |xs| && Uses(xs[i], name, use);
      assert Uses(ys[i], name, use);
    }
    if Uses(Arr(ys), name, use) {
      var i :| 0 <= i < |ys| && Uses(ys[i], name, use);
      assert Uses(xs[i], name, use);
    }
  }

  /** The edit adds no use of a name and loses only those of the surplus createMarket instructions. */
  lemma {:induction false} UsesEdited(idl: Json, name: Text, use: Use)
    requires DistinctKeys(idl) && EditIdl(idl).Done?
    ensures Uses(EditIdl(idl).value, name, use) <==> Uses(Kept(idl), name, use)
  {
    var items := InstructionsOf(idl).value;
    EditListOutcome(items);
    EditListIsAssembled(items);
    var found, others := Find(items, CREATE_MARKET).value, Without(items, CREATE_MARKET).value;
    var extended := WithAccounts(found, Spread(AccountsOf(items)).value + [EVENT_AUTHORITY, PROGRAM]);
    KeysDiffer();
    LookupDistinct(idl.members, INSTRUCTIONS);
    FindIn(items, CREATE_MARKET);
    UsesExtended(found, name, use);
    UsesFirst(extended, found, others, name, use);
    NoUseInInserted(name, use);
    UsesBefore([extended] + others, CONSUME_EVENTS, CONSUME_GIVEN_EVENTS, name, use);
    UsesAfterPut(idl.members, INSTRUCTIONS, Arr(EditList(items).value), name, use);
    UsesAfterPut(idl.members, INSTRUCTIONS, Arr([found] + others), name, use);
  }

  lemma {:induction false} OneNamed(items: seq<Json>, name: Text, i: nat)
    requires NoNulls(items) && CountNamed(items, name) == 1 && i < |items| && NameIs(items[i], name)
    ensures Find(items, name) == Done(items[i])
  {
    if i == 0 {
    } else if NameIs(items[0], name) {
      NamedCounts(items[1..], name, i - 1);
    } else {
      OneNamed(items[1..], name, i - 1);
    }
  }

  lemma {:induction false} NamedCounts(items: seq<Json>, name: Text, i: nat)
    requires i < |items| && NameIs(items[i], name)
    ensures CountNamed(items, name) > 0
  {
    if i > 0 {
      NamedCounts(items[1..], name, i - 1);
    }
  }

  /** With one createMarket, moving it to the front changes nothing. */
  lemma {:induction false} UsesRearranged(items: seq<Json>, name: Text, use: Use)
    requires NoNulls(items) && CountNamed(items, CREATE_MARKET) == 1
    requires Find(items, CREATE_MARKET).Done? && Without(items, CREATE_MARKET).Done?
    ensures Uses(Arr([Find(items, CREATE_MARKET).value] + Without(items, CREATE_MARKET).value), name, use)
      <==> Uses(Arr(items), name, use)
  {
    var found, others := Find(items, CREATE_MARKET).value, Without(items, CREATE_MARKET).value;
    var list := [found] + others;
    FindIn(items, CREATE_MARKET);
    WithoutIn(items, CREATE_MARKET);
    if Uses(Arr(list), name, use) {
      var i :| 0 <= i < |list| && Uses(list[i], name, use);
      assert list[i] == found || list[i] in others;
      assert list[i] in items;
    }
    if Uses(Arr(items), name, use) {
      var i :| 0 <= i < |items| && Uses(items[i], name, use);
      if NameIs(items[i], CREATE_MARKET) {
        OneNamed(items, CREATE_MARKET, i);
        assert Uses(list[0], name, use);
      } else {
        assert items[i] in others;
        var j :| 0 <= j < |others| && others[j] == items[i];
        assert Uses(list[j + 1], name, use);
      }
    }
  }

  lemma {:induction false} UsesKept(idl: Json, name: Text, use: Use)
    requires DistinctKeys(idl) && EditIdl(idl).Done?
    requires CountNamed(InstructionsOf(idl).value, CREATE_MARKET) == 1
    ensures Uses(Kept(idl), name, use) <==> Uses(idl, name, use)
  {
    var items := InstructionsOf(idl).value;
    EditListOutcome(items);
    EditListIsAssembled(items);
    KeysDiffer();
    UsesRearranged(items, name, use);
    var found, others := Find(items, CREATE_MARKET).value, Without(items, CREATE_MARKET).value;
    UsesAfterReplace(idl.members, INSTRUCTIONS, Arr([found] + others), name, use);
  }

  lemma {:induction false} TypeNamesEdited(idl: Json)
    requires ProperTypes(idl) && EditIdl(idl).Done?
    ensures ProperTypes(EditIdl(idl).value) && TypeNames(EditIdl(idl).value) == TypeNames(idl)
  {
    assert |TYPES| == 5 && |INSTRUCTIONS| == 12;
    LookupPut(idl.members, INSTRUCTIONS, Arr(EditList(InstructionsOf(idl).value).value), TYPES);
  }

  // ---------- Main results ----------

  /** Every name that the tree refers to is in the list. */
  ghost predicate ClosedUnder(v: Json, names: seq<Option<Json>>) {
    forall name :: RefersTo(v, name) ==> Some(Str(name)) in names
  }

  /** Every name that the IDL refers to is the name of one of its types. */
  ghost predicate Closed(idl: Json)
    requires ProperTypes(idl)
  {
    ClosedUnder(idl, TypeNames(idl))
  }

  /** Every name that the tree refers to, other than the two rewritten ones, is in the list. */
  ghost predicate ClosedButRewritten(v: Json, names: seq<Option<Json>>) {
    forall name :: RefersTo(v, name) && name != USIZE.name && name != NODE_HANDLE.name ==> Some(Str(name)) in names
  }

  /** A rewritten name that is used with other members, or inside a `defined` member, needs a type: the name
      itself in the first case, what it becomes in the second. */
  predicate LooseUsesResolve(v: Json, r: Rule, names: seq<Option<Json>>) {
    && (Uses(v, r.name, Wide) ==> Some(Str(r.name)) in names)
    && (Uses(v, r.name, Nested) ==> Some(Str(r.target)) in names)
  }

  /** What makes the rewritten tree closed, on the tree before the rewriting. */
  ghost predicate WillBeClosed(v: Json, names: seq<Option<Json>>) {
    ClosedButRewritten(v, names) && LooseUsesResolve(v, USIZE, names) && LooseUsesResolve(v, NODE_HANDLE, names)
  }

  lemma {:induction false} RewrittenIsClosed(v: Json, names: seq<Option<Json>>)
    ensures ClosedUnder(Rewritten(v), names) <==> WillBeClosed(v, names)
  {
    RulesAreIndependent();
    forall name
      ensures RefersTo(Rewritten(v), name) <==>
        || Uses(v, name, if name == USIZE.name || name == NODE_HANDLE.name then Wide else Any)
        || (name == USIZE.target && Uses(v, USIZE.name, Nested))
        || (name == NODE_HANDLE.target && Uses(v, NODE_HANDLE.name, Nested))
    {
      RefersAfterRewriting(v, name);
    }
    if ClosedUnder(Rewritten(v), names) {
      assert forall name :: RefersTo(Rewritten(v), name) ==> Some(Str(name)) in names;
      assert Uses(v, USIZE.name, Wide) ==> RefersTo(Rewritten(v), USIZE.name);
      assert Uses(v, NODE_HANDLE.name, Wide) ==> RefersTo(Rewritten(v), NODE_HANDLE.name);
      assert Uses(v, USIZE.name, Nested) ==> RefersTo(Rewritten(v), USIZE.target);
      assert Uses(v, NODE_HANDLE.name, Nested) ==> RefersTo(Rewritten(v), NODE_HANDLE.target);
    }
  }

  lemma {:induction false} WillBeClosedSame(v: Json, w: Json, names: seq<Option<Json>>)
    requires forall name, use :: Uses(v, name, use) <==> Uses(w, name, use)
    ensures WillBeClosed(v, names) <==> WillBeClosed(w, names)
  {
    assert forall name :: RefersTo(v, name) <==> RefersTo(w, name);
  }

  /** The conversion keeps the names of the types, and the generated IDL is closed exactly when the input,
      without the surplus createMarket instructions, will be; with one createMarket that is the input itself. */
  lemma {:induction false} GeneratedIsClosed(idl: Json)
    requires DistinctKeys(idl) && ProperTypes(idl) && Generated(idl).Done?
    ensures ProperTypes(Generated(idl).value) && TypeNames(Generated(idl).value) == TypeNames(idl)
    ensures Closed(Generated(idl).value) <==> WillBeClosed(Kept(idl), TypeNames(idl))
    ensures CountNamed(InstructionsOf(idl).value, CREATE_MARKET) == 1 ==>
      (Closed(Generated(idl).value) <==> WillBeClosed(idl, TypeNames(idl)))
  {
    var edited := EditIdl(idl).value;
    TypeNamesEdited(idl);
    TypeNamesAfter(edited, USIZE);
    TypeNamesAfter(Subst(edited, USIZE), NODE_HANDLE);
    RewrittenIsClosed(edited, TypeNames(idl));
    forall name, use ensures Uses(edited, name, use) <==> Uses(Kept(idl), name, use) {
      UsesEdited(idl, name, use);
    }
    WillBeClosedSame(edited, Kept(idl), TypeNames(idl));
    if CountNamed(InstructionsOf(idl).value, CREATE_MARKET) == 1 {
      forall name, use ensures Uses(Kept(idl), name, use) <==> Uses(idl, name, use) {
        UsesKept(idl, name, use);
      }
      WillBeClosedSame(Kept(idl), idl, TypeNames(idl));
    }
  }

  // ---------- The conditions on loose uses are needed ----------

  const METADATA := U("metadata")
  const MARKET := Obj([Member(NAME, Str(CREATE_MARKET)), Member(ACCOUNTS, Arr([]))])

  /** An IDL with one createMarket, no types, and one more tree. */
  function IdlWith(metadata: Json): Json {
    Obj([Member(INSTRUCTIONS, Arr([MARKET])), Member(TYPES, Arr([])), Member(METADATA, metadata)])
  }

  lemma {:induction false} EmptyUses(name: Text, use: Use)
    ensures !Uses(Arr([]), name, use)
  {
    var items: seq<Json> := [];
    assert !Uses(Arr(items), name, use);
  }

  lemma {:induction false} MarketUses(name: Text, use: Use)
    ensures !Uses(MARKET, name, use)
  {
    var ms := MARKET.members;
    KeysDiffer();
    LookupFindsKey(ms, DEFINED);
    EmptyUses(name, use);
    assert !Uses(ms[0].value, name, use) && !Uses(ms[1].value, name, use);
  }

  lemma {:induction false} MarketOutcome()
    ensures EditList([MARKET]).Done? && CountNamed([MARKET], CREATE_MARKET) == 1
    ensures DistinctKeys(MARKET)
  {
    var ms := MARKET.members;
    KeysDiffer();
    assert ms[1..] == [Member(ACCOUNTS, Arr([]))];
    assert Lookup(ms, ACCOUNTS) == Lookup(ms[1..], ACCOUNTS) == Some(Arr([]));
    assert NameIs(MARKET, CREATE_MARKET);
    FindOnly([MARKET], CREATE_MARKET, 0);
    EditListOutcome([MARKET]);
  }

  lemma {:induction false} IdlWithUses(metadata: Json, name: Text, use: Use)
    ensures Uses(IdlWith(metadata), name, use) <==> Uses(metadata, name, use)
  {
    assert |INSTRUCTIONS| == 12 && |TYPES| == 5 && |METADATA| == 8 && |DEFINED| == 7;
    var ms := IdlWith(metadata).members;
    LookupFindsKey(ms, DEFINED);
    MarketUses(name, use);
    EmptyUses(name, use);
    assert !Uses(Arr([MARKET]), name, use);
    if Uses(metadata, name, use) {
      assert Uses(ms[2].value, name, use);
    }
  }

  lemma {:induction false} IdlWithOutcome(metadata: Json)
    requires DistinctKeys(metadata)
    ensures var idl := IdlWith(metadata);
      && DistinctKeys(idl) && ProperTypes(idl) && TypeNames(idl) == [] && Generated(idl).Done?
      && CountNamed(InstructionsOf(idl).value, CREATE_MARKET) == 1
  {
    assert |INSTRUCTIONS| == 12 && |TYPES| == 5 && |METADATA| == 8;
    MarketOutcome();
    assert InstructionsOf(IdlWith(metadata)) == Some([MARKET]);
  }

  /** Whole IDLs that refer to no name but `usize`, so that rewriting `usize` should leave nothing to resolve.
      Yet the generated IDL is not closed: in the first the object has a second member and keeps the name, in
      the second a new name comes up. */
  lemma {:induction false} LooseUsesEscape()
    ensures var idl := IdlWith(Obj([Member(DEFINED, Str(USIZE.name)), Member(NAME, Null)]));
      && DistinctKeys(idl) && ProperTypes(idl) && Generated(idl).Done? && ClosedButRewritten(idl, TypeNames(idl))
      && ProperTypes(Generated(idl).value) && !Closed(Generated(idl).value)
    ensures var idl := IdlWith(Obj([Member(DEFINED, Ref(USIZE.name))]));
      && DistinctKeys(idl) && ProperTypes(idl) && Generated(idl).Done? && ClosedButRewritten(idl, TypeNames(idl))
      && ProperTypes(Generated(idl).value) && !Closed(Generated(idl).value)
  {
    WideEscapes();
    NestedEscapes();
  }

  lemma {:induction false} WideEscapes()
    ensures var idl := IdlWith(Obj([Member(DEFINED, Str(USIZE.name)), Member(NAME, Null)]));
      && DistinctKeys(idl) && ProperTypes(idl) && Generated(idl).Done? && ClosedButRewritten(idl, TypeNames(idl))
      && ProperTypes(Generated(idl).value) && !Closed(Generated(idl).value)
  {
    var ms := [Member(DEFINED, Str(USIZE.name)), Member(NAME, Null)];
    var idl := IdlWith(Obj(ms));
    KeysDiffer();
    IdlWithOutcome(Obj(ms));
    GeneratedIsClosed(idl);
    forall name, use ensures Uses(idl, name, use) <==> UsedBy(ms, name, use) {
      IdlWithUses(Obj(ms), name, use);
      assert !Uses(ms[0].value, name, use) && !Uses(ms[1].value, name, use);
    }
    assert UsedBy(ms, USIZE.name, Wide);
    assert Uses(idl, USIZE.name, Wide);
  }

  lemma {:induction false} NestedEscapes()
    ensures var idl := IdlWith(Obj([Member(DEFINED, Ref(USIZE.name))]));
      && DistinctKeys(idl) && ProperTypes(idl) && Generated(idl).Done? && ClosedButRewritten(idl, TypeNames(idl))
      && ProperTypes(Generated(idl).value) && !Closed(Generated(idl).value)
  {
    var ms := [Member(DEFINED, Ref(USIZE.name))];
    var idl := IdlWith(Obj(ms));
    IdlWithOutcome(Obj(ms));
    GeneratedIsClosed(idl);
    forall name, use
      ensures Uses(idl, name, use) <==> UsedBy(ms, name, use) || (name == USIZE.name && use == Any)
    {
      IdlWithUses(Obj(ms), name, use);
      RefUses(USIZE.name, name, use);
      assert Uses(Obj(ms), name, use) <==> UsedBy(ms, name, use) || Uses(ms[0].value, name, use);
    }
    assert UsedBy(ms, USIZE.name, Nested);
    assert Uses(idl, USIZE.name, Nested);
  }
}
