/** The whole conversion of convert.ts, and what comes of applying it to its own result. */
module Convert {
  import opened JsText
  import opened Json
  import opened Stringify
  import opened Parse
  import opened RoundTrip
  import opened Substitution
  import opened TypeRewrite
  import opened IdlEdit
  import opened IdlLaws
  import opened EditAndRewrite

  /** The two files written: the rewritten text, and the TypeScript module. */
  datatype Files = Files(raw: Text, content: Text)

  const INTERFACE_HEADER := U("\n  export interface OpenbookV2 ")
  const CONST_HEADER := U(";\n  export const Idl: OpenbookV2 = ")
  const FOOTER := U(";\n  ")

  /** The content of the generated TypeScript module. */
  function FileContent(v: Json): Text {
    INTERFACE_HEADER + Pretty(v) + CONST_HEADER + Pretty(v) + FOOTER
  }

  /** The tree that the script generates. */
  function Generated(idl: Json): Outcome<Json> {
    match EditIdl(idl)
    case Done(edited) => Done(Rewritten(edited))
    case failed => failed
  }

  // ---------- The edit keeps object keys distinct ----------

  lemma AccountDistinct(name: string, isMut: bool, isSigner: bool)
    ensures DistinctKeys(Account(name, isMut, isSigner)) && DistinctKeys(OptionalAccount(name, isMut, isSigner))
  {
    var isMutKey, isSignerKey, isOptionalKey := U("isMut"), U("isSigner"), U("isOptional");
    assert |NAME| == 4 && |isMutKey| == 5 && |isSignerKey| == 8 && |isOptionalKey| == 10;
  }

  lemma InstructionDistinct(name: string, docs: seq<string>, accounts: seq<Json>, args: seq<Json>)
    requires DistinctKeys(Arr(accounts)) && DistinctKeys(Arr(args))
    ensures DistinctKeys(Instruction(name, docs, accounts, args))
  {
    var docsKey, argsKey := U("docs"), U("args");
    assert |NAME| == 4 && |docsKey| == 4 && |ACCOUNTS| == 8 && |argsKey| == 4;
    assert NAME[0] == 0x6E && docsKey[0] == 0x64 && argsKey[0] == 0x61;
    assert DistinctKeys(Lines(docs));
  }

  lemma ArgumentDistinct(name: string, ty: Json)
    requires DistinctKeys(ty)
    ensures DistinctKeys(Arr([Argument(name, ty)]))
  {
    var typeKey := U("type");
    assert NAME[0] == 0x6E && typeKey[0] == 0x74;
    assert DistinctKeys(Argument(name, ty));
  }

  lemma ConsumeAccountsDistinct()
    ensures DistinctKeys(Arr(CONSUME_ACCOUNTS))
  {
    AccountDistinct("consumeEventsAdmin", false, true);
    AccountDistinct("market", true, false);
    AccountDistinct("eventHeap", true, false);
  }

  lemma InsertedDistinct()
    ensures DistinctKeys(EVENT_AUTHORITY) && DistinctKeys(PROGRAM)
    ensures DistinctKeys(CONSUME_EVENTS) && DistinctKeys(CONSUME_GIVEN_EVENTS)
  {
    AccountDistinct("eventAuthority", false, false);
    AccountDistinct("program", false, false);
    ConsumeAccountsDistinct();
    ArgumentDistinct("limit", Str(U("u64")));
    ArgumentDistinct("slots", Obj([Member(U("vec"), Str(U("u64")))]));
    InstructionDistinct("consumeEvents", CONSUME_EVENTS_DOCS, CONSUME_ACCOUNTS, [Argument("limit", Str(U("u64")))]);
    InstructionDistinct("consumeGivenEvents", CONSUME_GIVEN_EVENTS_DOCS, CONSUME_ACCOUNTS,
                        [Argument("slots", Obj([Member(U("vec"), Str(U("u64")))]))]);
  }

  lemma {:induction false} LookupDistinct(ms: seq<Member>, key: Text)
    requires DistinctKeys(Obj(ms)) && Lookup(ms, key).Some?
    ensures DistinctKeys(Lookup(ms, key).value)
  {
    LookupFindsKey(ms, key);
  }

  lemma {:induction false} SpreadDistinct(v: Option<Json>)
    requires v.Some? ==> DistinctKeys(v.value)
    ensures Spread(v).Some? ==> DistinctKeys(Arr(Spread(v).value))
  {
    if v.Some? && v.value.Str? {
      CodePointsJoin(v.value.s);
    }
  }

  lemma {:induction false} AssembledDistinct(found: Json, accounts: seq<Json>, others: seq<Json>)
    requires found.Obj? && DistinctKeys(found) && DistinctKeys(Arr(accounts)) && DistinctKeys(Arr(others))
    ensures DistinctKeys(Arr(Assembled(found, accounts, others)))
  {
    var longer := accounts + [EVENT_AUTHORITY, PROGRAM];
    InsertedDistinct();
    assert DistinctKeys(Arr(longer));
    PutDistinct(found.members, ACCOUNTS, Arr(longer));
  }

  lemma {:induction false} EditKeepsDistinctKeys(idl: Json)
    requires DistinctKeys(idl) && EditIdl(idl).Done?
    ensures DistinctKeys(EditIdl(idl).value)
  {
    var items := InstructionsOf(idl).value;
    LookupDistinct(idl.members, INSTRUCTIONS);
    EditListOutcome(items);
    EditListIsAssembled(items);
    var found := Find(items, CREATE_MARKET).value;
    FindIn(items, CREATE_MARKET);
    WithoutIn(items, CREATE_MARKET);
    if Lookup(found.members, ACCOUNTS).Some? {
      LookupDistinct(found.members, ACCOUNTS);
    }
    SpreadDistinct(AccountsOf(items));
    var others := Without(items, CREATE_MARKET).value;
    assert forall i :: 0 <= i < |others| ==> others[i] in items;
    AssembledDistinct(found, Spread(AccountsOf(items)).value, others);
    PutDistinct(idl.members, INSTRUCTIONS, Arr(EditList(items).value));
  }

  // ---------- The script ----------

  /** The body of the script: edit, serialize, rewrite the text, parse it back, serialize again.
      The parse cannot fail, so both files are written exactly when the edit succeeds. */
  method Convert(idl: Json) returns (r: Outcome<Files>)
    requires DistinctKeys(idl)
    ensures Generated(idl).Thrown? ==> r == Thrown
    ensures Generated(idl).NotFound? ==> r == NotFound
    ensures Generated(idl).Done? ==>
      r == Done(Files(Compact(Generated(idl).value), FileContent(Generated(idl).value)))
  {
    var edit := EditIdl(idl);
    match edit {
      case Thrown => r := Thrown;
      case NotFound => r := NotFound;
      case Done(edited) =>
        var modifiedIDL := edited;
        EditKeepsDistinctKeys(idl);
        TextRewritingIsTreeRewriting(edited);
        RewrittenTextParses(edited);
        var idlString := ReplaceEach(Compact(modifiedIDL), REPLACEMENTS);
        var parsed := JsonParse(idlString);
        modifiedIDL := parsed.value;
        r := Done(Files(idlString, FileContent(modifiedIDL)));
    }
  }

  /** The generated module holds the tree twice, each time as a text that reads back to it. */
  lemma {:induction false} FileContentHoldsTree(v: Json)
    ensures var c := FileContent(v);
      && INTERFACE_HEADER <= c
      && ParseValue(c[|INTERFACE_HEADER|..]) == Ok(v, CONST_HEADER + (Pretty(v) + FOOTER))
      && ParseValue(Pretty(v) + FOOTER) == Ok(v, FOOTER)
  {
    var gap := [SPACE, SPACE];
    var tail := CONST_HEADER + (Pretty(v) + FOOTER);
    assert FileContent(v) == INTERFACE_HEADER + (Pretty(v) + tail) by {
      Regroup3(INTERFACE_HEADER, Pretty(v), CONST_HEADER);
      Regroup4(INTERFACE_HEADER + Pretty(v), CONST_HEADER, Pretty(v), FOOTER);
      Regroup3(INTERFACE_HEADER, Pretty(v), tail);
    }
    assert FileContent(v)[|INTERFACE_HEADER|..] == Pretty(v) + tail;
    assert CONST_HEADER[0] == 0x3B && FOOTER[0] == 0x3B;
    ParseSerialized(v, gap, [], tail);
    ParseSerialized(v, gap, [], FOOTER);
  }

  /** Different trees generate different modules. */
  lemma {:induction false} FileContentInjective(v: Json, w: Json)
    ensures FileContent(v) == FileContent(w) <==> v == w
  {
    FileContentHoldsTree(v);
    FileContentHoldsTree(w);
  }

  // ---------- Edit and rewriting, in either order ----------

  /** The accounts that the edit spreads are one of the two rewritten references. */
  predicate AccountsAreRewritten(idl: Json) {
    IdlAccountsAreRef(idl, USIZE.name) || IdlAccountsAreRef(idl, NODE_HANDLE.name)
  }

  lemma TargetsAreNotCreateMarket()
    ensures USIZE.target != CREATE_MARKET && NODE_HANDLE.target != CREATE_MARKET
  {
  }

  lemma {:induction false} AccountsRefAfter(idl: Json)
    ensures IdlAccountsAreRef(Subst(idl, USIZE), NODE_HANDLE.name) <==> IdlAccountsAreRef(idl, NODE_HANDLE.name)
  {
    TargetsAreNotCreateMarket();
    RulesAreIndependent();
    InstructionsOfSubst(idl, USIZE);
    if InstructionsOf(idl).Some? {
      var items := InstructionsOf(idl).value;
      AccountsOfSubst(items, USIZE);
      NoNullsSubst(items, USIZE);
      if AccountsOf(items).Some? && AccountsOf(items).value.Obj? && AccountsOf(items).value != Ref(USIZE.name) {
        SubstMakesRef(AccountsOf(items).value, USIZE, NODE_HANDLE.name);
      }
    }
  }

  /** Rewriting before the edit generates the same tree as rewriting after it, exactly when the
      accounts of createMarket are not themselves a rewritten reference. */
  lemma {:induction false} RewriteBeforeOrAfterEdit(idl: Json)
    ensures EditIdl(Rewritten(idl)) == Generated(idl) <==> !AccountsAreRewritten(idl)
  {
    TargetsAreNotCreateMarket();
    EditIdlSubst(idl, USIZE);
    EditIdlSubst(Subst(idl, USIZE), NODE_HANDLE);
    AccountsRefAfter(idl);
    if AccountsAreRewritten(idl) {
      EditRewrittenRefAccounts(idl);
    }
  }

  lemma {:induction false} RefAccountsThrow(idl: Json, r: Rule)
    requires r.target != CREATE_MARKET && IdlAccountsAreRef(idl, r.name)
    ensures EditIdl(idl).Thrown? && EditIdl(Subst(idl, r)).Done?
  {
    InstructionsOfSubst(idl, r);
    EditListRefAccounts(InstructionsOf(idl).value, r);
  }

  lemma {:induction false} EditRewrittenRefAccounts(idl: Json)
    requires AccountsAreRewritten(idl)
    ensures EditIdl(idl).Thrown? && EditIdl(Rewritten(idl)).Done?
  {
    var once := Subst(idl, USIZE);
    TargetsAreNotCreateMarket();
    AccountsRefAfter(idl);
    if IdlAccountsAreRef(idl, NODE_HANDLE.name) {
      RefAccountsThrow(idl, NODE_HANDLE);
      RefAccountsThrow(once, NODE_HANDLE);
    } else {
      RefAccountsThrow(idl, USIZE);
      EditIdlSubst(once, NODE_HANDLE);
    }
  }

  // ---------- The conversion applied to its own result ----------

  // The script reads one file and writes others, so running it again on the same input repeats the first result.
  // What follows is about an input that is itself a result.

  /** The edit alone, applied n times. */
  function EditIdlTimes(idl: Json, n: nat): Outcome<Json> {
    if n == 0 then Done(idl)
    else match EditIdlTimes(idl, n - 1)
      case Done(edited) => EditIdl(edited)
      case failed => failed
  }

  /** The conversion applied n times, each time to the tree generated before. */
  function GeneratedTimes(idl: Json, n: nat): Outcome<Json> {
    if n == 0 then Done(idl)
    else match GeneratedTimes(idl, n - 1)
      case Done(generated) => Generated(generated)
      case failed => failed
  }

  function RewrittenOutcome(o: Outcome<Json>): Outcome<Json> {
    match o
    case Done(v) => Done(Rewritten(v))
    case failed => failed
  }

  /** After an edit the accounts of createMarket are an array. */
  lemma {:induction false} EditedAccountsAreArray(idl: Json)
    requires EditIdl(idl).Done?
    ensures !AccountsAreRewritten(EditIdl(idl).value)
  {
    var items := InstructionsOf(idl).value;
    EditListOutcome(items);
    EditListIsAssembled(items);
    var found := Find(items, CREATE_MARKET).value;
    var edited := EditList(items).value;
    var longer := Arr(Spread(AccountsOf(items)).value + [EVENT_AUTHORITY, PROGRAM]);
    LookupPut(idl.members, INSTRUCTIONS, Arr(edited), INSTRUCTIONS);
    KeysDiffer();
    LookupPut(found.members, ACCOUNTS, longer, ACCOUNTS);
    LookupPut(found.members, ACCOUNTS, longer, NAME);
    assert Find(edited, CREATE_MARKET) == Done(edited[0]);
    assert AccountsOf(edited) == Some(longer);
  }

  /** Rewriting each time is the same as rewriting once at the end. */
  lemma {:induction false} IteratedRewritesOnce(idl: Json, n: nat)
    requires n >= 1
    ensures GeneratedTimes(idl, n) == RewrittenOutcome(EditIdlTimes(idl, n))
  {
    hide EditIdl, Rewritten, AccountsAreRewritten;
    if n == 1 {
      assert GeneratedTimes(idl, 0) == Done(idl) && EditIdlTimes(idl, 0) == Done(idl);
    } else {
      IteratedRewritesOnce(idl, n - 1);
      if EditIdlTimes(idl, n - 1).Done? {
        var edited := EditIdlTimes(idl, n - 1).value;
        var before := EditIdlTimes(idl, n - 2).value;
        EditedAccountsAreArray(before);
        RewriteBeforeOrAfterEdit(edited);
        if EditIdl(edited).Done? {
          RewritingIsComplete(EditIdl(edited).value);
        }
      }
    }
  }

  lemma {:induction false} EditIdlTimesList(idl: Json, items: seq<Json>, n: nat)
    requires InstructionsOf(idl) == Some(items) && n >= 1
    requires EditListTimes(items, n).Done?
    ensures EditIdlTimes(idl, n) == Done(WithInstructions(idl, EditListTimes(items, n).value))
  {
    hide EditList, Put;
    if n == 1 {
      assert EditListTimes(items, 0) == Done(items) && EditIdlTimes(idl, 0) == Done(idl);
    } else {
      var before, after := EditListTimes(items, n - 1).value, EditListTimes(items, n).value;
      EditIdlTimesList(idl, items, n - 1);
      LookupPut(idl.members, INSTRUCTIONS, Arr(before), INSTRUCTIONS);
      PutPut(idl.members, INSTRUCTIONS, Arr(before), Arr(after));
    }
  }

  /** n conversions, n at least 1, of an IDL with one createMarket: each adds the two accounts and the
      two instructions once more, everything else stays as it was, and the types are rewritten. */
  lemma {:induction false} IteratedAccumulates(idl: Json, c: nat, accounts: seq<Json>, n: nat)
    requires InstructionsOf(idl).Some? && n >= 1
    requires var items := InstructionsOf(idl).value;
      NoNulls(items) && OnlyNamed(items, CREATE_MARKET, c)
      && Spread(Lookup(items[c].members, ACCOUNTS)) == Some(accounts)
    ensures GeneratedTimes(idl, n)
         == Done(Rewritten(WithInstructions(idl, Accumulated(InstructionsOf(idl).value, c, accounts, n))))
  {
    var items := InstructionsOf(idl).value;
    EditRepeated(items, c, accounts, n);
    EditIdlTimesList(idl, items, n);
    IteratedRewritesOnce(idl, n);
  }
}
