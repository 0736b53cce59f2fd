/** The instruction-list edit and the type rewriting can be done in either order, with one exception. */
module EditAndRewrite {
  import opened JsText
  import opened Json
  import opened Stringify
  import opened Substitution
  import opened IdlEdit
  import opened IdlLaws

  // ---------- The inserted trees hold no reference ----------

  lemma {:induction false} NoRefInMembers(ms: seq<Member>, name: Text)
    requires |ms| > 1 && forall i :: 0 <= i < |ms| ==> Count(ms[i].value, name) == 0
    ensures Count(Obj(ms), name) == 0
  {
    CountMembersZero(ms, name);
  }

  lemma {:induction false} NoRefInItems(items: seq<Json>, name: Text)
    requires forall i :: 0 <= i < |items| ==> Count(items[i], name) == 0
    ensures Count(Arr(items), name) == 0
  {
    CountItemsZero(items, name);
  }

  lemma {:induction false} NoRefInInstruction(
    name: string, docs: seq<string>, accounts: seq<Json>, args: seq<Json>, ref: Text)
    requires Count(Arr(accounts), ref) == 0 && Count(Arr(args), ref) == 0
    ensures Count(Instruction(name, docs, accounts, args), ref) == 0
  {
    NoRefInItems(Lines(docs).items, ref);
    NoRefInMembers(Instruction(name, docs, accounts, args).members, ref);
  }

  lemma {:induction false} NoRefInAccount(name: string, isMut: bool, isSigner: bool, ref: Text)
    ensures Count(Account(name, isMut, isSigner), ref) == 0
    ensures Count(OptionalAccount(name, isMut, isSigner), ref) == 0
  {
    NoRefInMembers(Account(name, isMut, isSigner).members, ref);
    NoRefInMembers(OptionalAccount(name, isMut, isSigner).members, ref);
  }

  lemma {:induction false} NoRefInArgument(name: string, ty: Json, ref: Text)
    requires Count(ty, ref) == 0
    ensures Count(Arr([Argument(name, ty)]), ref) == 0
  {
    NoRefInMembers(Argument(name, ty).members, ref);
    NoRefInItems([Argument(name, ty)], ref);
  }

  lemma {:induction false} NoRefInVec(ref: Text)
    ensures Count(Obj([Member(U("vec"), Str(U("u64")))]), ref) == 0
  {
  }

  lemma {:induction false} NoRefInConsumeAccounts(ref: Text)
    ensures Count(Arr(CONSUME_ACCOUNTS), ref) == 0
  {
    NoRefInAccount("consumeEventsAdmin", false, true, ref);
    NoRefInAccount("market", true, false, ref);
    NoRefInAccount("eventHeap", true, false, ref);
    NoRefInItems(CONSUME_ACCOUNTS, ref);
  }

  lemma {:induction false} NoRefInConsumeEvents(ref: Text)
    ensures Count(CONSUME_EVENTS, ref) == 0
  {
    NoRefInConsumeAccounts(ref);
    NoRefInArgument("limit", Str(U("u64")), ref);
    NoRefInInstruction("consumeEvents", CONSUME_EVENTS_DOCS, CONSUME_ACCOUNTS, [Argument("limit", Str(U("u64")))], ref);
  }

  lemma {:induction false} NoRefInConsumeGivenEvents(ref: Text)
    ensures Count(CONSUME_GIVEN_EVENTS, ref) == 0
  {
    NoRefInConsumeAccounts(ref);
    NoRefInVec(ref);
    NoRefInArgument("slots", Obj([Member(U("vec"), Str(U("u64")))]), ref);
    NoRefInInstruction("consumeGivenEvents", CONSUME_GIVEN_EVENTS_DOCS, CONSUME_ACCOUNTS,
                       [Argument("slots", Obj([Member(U("vec"), Str(U("u64")))]))], ref);
  }

  lemma {:induction false} InsertedUnchanged(r: Rule)
    ensures Subst(EVENT_AUTHORITY, r) == EVENT_AUTHORITY && Subst(PROGRAM, r) == PROGRAM
    ensures Subst(CONSUME_EVENTS, r) == CONSUME_EVENTS && Subst(CONSUME_GIVEN_EVENTS, r) == CONSUME_GIVEN_EVENTS
  {
    NoRefInAccount("eventAuthority", false, false, r.name);
    NoRefInAccount("program", false, false, r.name);
    NoRefInConsumeEvents(r.name);
    NoRefInConsumeGivenEvents(r.name);
    SubstFixesIffNoRef(EVENT_AUTHORITY, r);
    SubstFixesIffNoRef(PROGRAM, r);
    SubstFixesIffNoRef(CONSUME_EVENTS, r);
    SubstFixesIffNoRef(CONSUME_GIVEN_EVENTS, r);
  }

  // ---------- One pass and the operations of the edit ----------

  lemma {:induction false} SubstItemsConcat(a: seq<Json>, b: seq<Json>, r: Rule)
    ensures SubstItems(a + b, r) == SubstItems(a, r) + SubstItems(b, r)
  {
  }

  function SubstOption(v: Option<Json>, r: Rule): Option<Json> {
    match v
    case None => None
    case Some(x) => Some(Subst(x, r))
  }

  lemma {:induction false} LookupSubst(ms: seq<Member>, key: Text, r: Rule)
    ensures Lookup(SubstMembers(ms, r), key) == SubstOption(Lookup(ms, key), r)
  {
    if ms != [] {
      LookupSubst(ms[1..], key, r);
      assert SubstMembers(ms, r)[1..] == SubstMembers(ms[1..], r);
    }
  }

  lemma {:induction false} PutSubst(ms: seq<Member>, key: Text, value: Json, r: Rule)
    ensures Put(SubstMembers(ms, r), key, Subst(value, r)) == SubstMembers(Put(ms, key, value), r)
  {
    if ms != [] {
      PutSubst(ms[1..], key, value, r);
      assert SubstMembers(ms, r)[1..] == SubstMembers(ms[1..], r);
      if ms[0].key == key {
        assert SubstMembers([Member(key, value)] + ms[1..], r)
            == [Member(key, Subst(value, r))] + SubstMembers(ms[1..], r);
      } else {
        assert SubstMembers([ms[0]] + Put(ms[1..], key, value), r)
            == [Member(ms[0].key, Subst(ms[0].value, r))] + SubstMembers(Put(ms[1..], key, value), r);
      }
    }
  }

  /** An object with another key is not a reference, so a pass maps its members. */
  lemma {:induction false} SubstObj(ms: seq<Member>, key: Text, r: Rule)
    requires key != DEFINED && Lookup(ms, key).Some?
    ensures Subst(Obj(ms), r) == Obj(SubstMembers(ms, r))
  {
  }

  lemma {:induction false} NameIsSubst(v: Json, name: Text, r: Rule)
    requires r.target != name
    ensures NameIs(Subst(v, r), name) <==> NameIs(v, name)
    ensures Subst(v, r).Null? <==> v.Null?
  {
    KeysDiffer();
    if v.Obj? {
      LookupSubst(v.members, NAME, r);
      if v == Ref(r.name) {
        assert v.members[1..] == [];
      }
    }
  }

  function SubstOutcome(o: Outcome<Json>, r: Rule): Outcome<Json> {
    match o
    case Done(v) => Done(Subst(v, r))
    case failed => failed
  }

  function SubstListOutcome(o: Outcome<seq<Json>>, r: Rule): Outcome<seq<Json>> {
    match o
    case Done(items) => Done(SubstItems(items, r))
    case failed => failed
  }

  lemma {:induction false} FindSubst(items: seq<Json>, name: Text, r: Rule)
    requires r.target != name
    ensures Find(SubstItems(items, r), name) == SubstOutcome(Find(items, name), r)
  {
    if items != [] {
      NameIsSubst(items[0], name, r);
      FindSubst(items[1..], name, r);
      assert SubstItems(items, r)[1..] == SubstItems(items[1..], r);
    }
  }

  lemma {:induction false} WithoutSubst(items: seq<Json>, name: Text, r: Rule)
    requires r.target != name
    ensures Without(SubstItems(items, r), name) == SubstListOutcome(Without(items, name), r)
  {
    if items != [] {
      NameIsSubst(items[0], name, r);
      WithoutSubst(items[1..], name, r);
      assert SubstItems(items, r)[1..] == SubstItems(items[1..], r);
      if Without(items[1..], name).Done? {
        SubstItemsConcat([items[0]], Without(items[1..], name).value, r);
        assert SubstItems([items[0]], r) == [Subst(items[0], r)];
      }
    }
  }

  lemma {:induction false} CodePointsSubst(s: Text, r: Rule)
    ensures SubstItems(CodePoints(s), r) == CodePoints(s)
    decreases |s|
  {
    if s == [] {
    } else if |s| >= 2 && IsHighSurrogate(s[0]) && IsLowSurrogate(s[1]) {
      CodePointsSubst(s[2..], r);
      SubstItemsConcat([Str(s[..2])], CodePoints(s[2..]), r);
      assert SubstItems([Str(s[..2])], r) == [Str(s[..2])];
    } else {
      CodePointsSubst(s[1..], r);
      SubstItemsConcat([Str(s[..1])], CodePoints(s[1..]), r);
      assert SubstItems([Str(s[..1])], r) == [Str(s[..1])];
    }
  }

  function SubstSpread(o: Option<seq<Json>>, r: Rule): Option<seq<Json>> {
    match o
    case None => None
    case Some(items) => Some(SubstItems(items, r))
  }

  /** Spreading commutes with a pass, except that the reference itself becomes a string. */
  lemma {:induction false} SpreadSubst(v: Option<Json>, r: Rule)
    ensures v != Some(Ref(r.name)) ==> Spread(SubstOption(v, r)) == SubstSpread(Spread(v), r)
    ensures v == Some(Ref(r.name)) ==> Spread(v).None? && Spread(SubstOption(v, r)).Some?
  {
    if v.Some? && v.value.Str? {
      CodePointsSubst(v.value.s, r);
    }
  }

  // ---------- One pass and the edit ----------

  /** The one exception: the accounts that the edit spreads are themselves the reference. */
  predicate AccountsAreRef(items: seq<Json>, name: Text) {
    NoNulls(items) && AccountsOf(items) == Some(Ref(name))
  }

  lemma {:induction false} AccountsOfSubst(items: seq<Json>, r: Rule)
    requires r.target != CREATE_MARKET
    ensures AccountsOf(SubstItems(items, r)) == SubstOption(AccountsOf(items), r)
  {
    FindSubst(items, CREATE_MARKET, r);
    if Find(items, CREATE_MARKET).Done? {
      var found := Find(items, CREATE_MARKET).value;
      FoundIsNamed(items, CREATE_MARKET);
      KeysDiffer();
      SubstObj(found.members, NAME, r);
      LookupSubst(found.members, ACCOUNTS, r);
    }
  }

  lemma {:induction false} NoNullsSubst(items: seq<Json>, r: Rule)
    ensures NoNulls(SubstItems(items, r)) <==> NoNulls(items)
  {
  }

  /** A pass over a list that ends in two trees without references. */
  lemma {:induction false} SubstBefore(items: seq<Json>, x: Json, y: Json, r: Rule)
    requires Subst(x, r) == x && Subst(y, r) == y
    ensures SubstItems(items + [x, y], r) == SubstItems(items, r) + [x, y]
  {
  }

  lemma {:induction false} WithAccountsSubst(found: Json, accounts: seq<Json>, r: Rule)
    requires NameIs(found, CREATE_MARKET)
    ensures Subst(found, r) == Obj(SubstMembers(found.members, r))
    ensures Subst(WithAccounts(found, accounts), r) == WithAccounts(Subst(found, r), SubstItems(accounts, r))
  {
    KeysDiffer();
    SubstObj(found.members, NAME, r);
    LookupPut(found.members, ACCOUNTS, Arr(accounts), ACCOUNTS);
    SubstObj(Put(found.members, ACCOUNTS, Arr(accounts)), ACCOUNTS, r);
    PutSubst(found.members, ACCOUNTS, Arr(accounts), r);
  }

  /** The edited list, put together from its parts. */
  function Assembled(found: Json, accounts: seq<Json>, others: seq<Json>): seq<Json>
    requires found.Obj?
  {
    [WithAccounts(found, accounts + [EVENT_AUTHORITY, PROGRAM])] + others + [CONSUME_EVENTS, CONSUME_GIVEN_EVENTS]
  }

  lemma {:induction false} AssembledSubst(found: Json, accounts: seq<Json>, others: seq<Json>, r: Rule)
    requires NameIs(found, CREATE_MARKET)
    ensures Subst(found, r).Obj?
    ensures SubstItems(Assembled(found, accounts, others), r)
         == Assembled(Subst(found, r), SubstItems(accounts, r), SubstItems(others, r))
  {
    var extended := WithAccounts(found, accounts + [EVENT_AUTHORITY, PROGRAM]);
    InsertedUnchanged(r);
    SubstBefore(accounts, EVENT_AUTHORITY, PROGRAM, r);
    WithAccountsSubst(found, accounts + [EVENT_AUTHORITY, PROGRAM], r);
    SubstBefore([extended] + others, CONSUME_EVENTS, CONSUME_GIVEN_EVENTS, r);
    SubstItemsConcat([extended], others, r);
    assert SubstItems([extended], r) == [Subst(extended, r)];
  }

  lemma {:induction false} EditListIsAssembled(items: seq<Json>)
    requires NoNulls(items) && Spread(AccountsOf(items)).Some?
    ensures Find(items, CREATE_MARKET).Done? && Without(items, CREATE_MARKET).Done?
    ensures NameIs(Find(items, CREATE_MARKET).value, CREATE_MARKET)
    ensures EditList(items)
         == Done(Assembled(Find(items, CREATE_MARKET).value, Spread(AccountsOf(items)).value,
                           Without(items, CREATE_MARKET).value))
  {
    FoundIsNamed(items, CREATE_MARKET);
    WithoutOutcome(items, CREATE_MARKET);
  }

  lemma {:induction false} EditListSubst(items: seq<Json>, r: Rule)
    requires r.target != CREATE_MARKET
    requires !AccountsAreRef(items, r.name)
    ensures EditList(SubstItems(items, r)) == SubstListOutcome(EditList(items), r)
  {
    var items' := SubstItems(items, r);
    FindSubst(items, CREATE_MARKET, r);
    NoNullsSubst(items, r);
    AccountsOfSubst(items, r);
    if NoNulls(items) && Spread(AccountsOf(items)).Some? {
      SpreadSubst(AccountsOf(items), r);
      WithoutSubst(items, CREATE_MARKET, r);
      EditListIsAssembled(items);
      EditListIsAssembled(items');
      AssembledSubst(Find(items, CREATE_MARKET).value, Spread(AccountsOf(items)).value,
                     Without(items, CREATE_MARKET).value, r);
    } else {
      if NoNulls(items) {
        SpreadSubst(AccountsOf(items), r);
      }
      EditListOutcome(items);
      EditListOutcome(items');
      WithoutOutcome(items, CREATE_MARKET);
      WithoutOutcome(items', CREATE_MARKET);
    }
  }

  /** In the exceptional case the edit throws on the input but not on the rewritten input. */
  lemma {:induction false} EditListRefAccounts(items: seq<Json>, r: Rule)
    requires r.target != CREATE_MARKET
    requires AccountsAreRef(items, r.name)
    ensures EditList(items).Thrown? && EditList(SubstItems(items, r)).Done?
  {
    AccountsOfSubst(items, r);
    NoNullsSubst(items, r);
    FindSubst(items, CREATE_MARKET, r);
    SpreadSubst(AccountsOf(items), r);
    EditListOutcome(items);
    EditListOutcome(SubstItems(items, r));
    FindThrowsOnNull(SubstItems(items, r), CREATE_MARKET);
    FindOutcome(SubstItems(items, r), CREATE_MARKET);
    FindOutcome(items, CREATE_MARKET);
  }

  predicate IdlAccountsAreRef(idl: Json, name: Text) {
    InstructionsOf(idl).Some? && AccountsAreRef(InstructionsOf(idl).value, name)
  }

  lemma {:induction false} InstructionsOfSubst(idl: Json, r: Rule)
    ensures InstructionsOf(Subst(idl, r)) == SubstSpread(InstructionsOf(idl), r)
    ensures InstructionsOf(idl).Some? ==> idl.Obj? && Subst(idl, r) == Obj(SubstMembers(idl.members, r))
  {
    KeysDiffer();
    if idl.Obj? {
      if Lookup(idl.members, INSTRUCTIONS).Some? {
        SubstObj(idl.members, INSTRUCTIONS, r);
      }
      LookupSubst(idl.members, INSTRUCTIONS, r);
    }
  }

  lemma {:induction false} WithInstructionsSubst(idl: Json, edited: seq<Json>, r: Rule)
    requires idl.Obj? && Subst(idl, r) == Obj(SubstMembers(idl.members, r))
    ensures Subst(WithInstructions(idl, edited), r) == WithInstructions(Subst(idl, r), SubstItems(edited, r))
  {
    KeysDiffer();
    LookupPut(idl.members, INSTRUCTIONS, Arr(edited), INSTRUCTIONS);
    SubstObj(Put(idl.members, INSTRUCTIONS, Arr(edited)), INSTRUCTIONS, r);
    PutSubst(idl.members, INSTRUCTIONS, Arr(edited), r);
  }

  /** A pass before the edit gives the pass after the edit, exactly when the accounts that the edit
      spreads are not the reference that the pass rewrites. */
  lemma {:induction false} EditIdlSubst(idl: Json, r: Rule)
    requires r.target != CREATE_MARKET
    ensures EditIdl(Subst(idl, r)) == SubstOutcome(EditIdl(idl), r) <==> !IdlAccountsAreRef(idl, r.name)
  {
    InstructionsOfSubst(idl, r);
    match InstructionsOf(idl) {
      case None =>
      case Some(items) =>
        if AccountsAreRef(items, r.name) {
          EditListRefAccounts(items, r);
        } else {
          EditListSubst(items, r);
          if EditList(items).Done? {
            WithInstructionsSubst(idl, EditList(items).value, r);
          }
        }
    }
  }
}
