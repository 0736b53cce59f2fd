/** The edited IDL, spelled out: every member and its place, and the text of everything that is inserted. */
module EditedIdl {
  import opened JsText
  import opened Json
  import opened Stringify
  import opened Escaping
  import opened Rewriting
  import opened IdlEdit

  // ---------- Compact texts from the texts of the parts ----------

  /** The texts, separated by commas. */
  function Joined(texts: seq<Text>): Text
    requires texts != []
  {
    if |texts| == 1 then texts[0] else texts[0] + (U(",") + Joined(texts[1..]))
  }

  function Braced(fields: seq<Text>): Text
    requires fields != []
  {
    U("{") + Joined(fields) + U("}")
  }

  function Bracketed(items: seq<Text>): Text
    requires items != []
  {
    U("[") + Joined(items) + U("]")
  }

  lemma Punctuation()
    ensures U(",") == [COMMA] && U("{") == [LBRACE] && U("}") == [RBRACE]
    ensures U("[") == [LBRACKET] && U("]") == [RBRACKET]
  {
  }

  lemma {:induction false} FieldsText(ms: seq<Member>, fields: seq<Text>)
    requires |ms| == |fields| > 0 && forall i :: 0 <= i < |ms| ==> CompactMember(ms[i]) == fields[i]
    ensures CompactMembers(ms) == Joined(fields)
    ensures Compact(Obj(ms)) == Braced(fields)
  {
    Punctuation();
    if |ms| > 1 {
      FieldsText(ms[1..], fields[1..]);
      CompactMembersStep(ms);
    }
    CompactObj(ms);
  }

  lemma {:induction false} ItemsText(items: seq<Json>, texts: seq<Text>)
    requires |items| == |texts| > 0 && forall i :: 0 <= i < |items| ==> Compact(items[i]) == texts[i]
    ensures CompactItems(items) == Joined(texts)
    ensures Compact(Arr(items)) == Bracketed(texts)
  {
    Punctuation();
    if |items| > 1 {
      ItemsText(items[1..], texts[1..]);
      CompactItemsStep(items);
    }
    CompactArr(items);
  }

  predicate IsPrintable(word: string) {
    forall i :: 0 <= i < |word| ==> ' ' <= word[i] <= '~' && word[i] != '"' && word[i] != '\\'
  }

  lemma {:induction false} QuotePrintable(word: string)
    requires IsPrintable(word)
    ensures Quote(U(word)) == U("\"" + word + "\"")
  {
    var s := U(word);
    assert IsRaw(s) by {
      assert forall i :: 0 <= i < |s| ==> s[i] == Unit(word[i]) && !IsSurrogate(s[i]);
    }
    QuotedAsItIs(s);
    assert U("\"" + word + "\"") == [QUOTE] + s + [QUOTE];
  }

  lemma {:induction false} FieldText(key: string, value: Json, text: string)
    requires IsPrintable(key) && Compact(value) == U(text)
    ensures CompactMember(Member(U(key), value)) == U("\"" + key + "\":" + text)
  {
    QuotePrintable(key);
    assert U("\"" + key + "\":" + text) == U("\"" + key + "\"") + [COLON] + U(text);
  }

  lemma {:induction false} NestedFieldText(key: string, value: Json)
    requires IsPrintable(key)
    ensures CompactMember(Member(U(key), value)) == U("\"" + key + "\":") + Compact(value)
  {
    QuotePrintable(key);
    assert U("\"" + key + "\":") == U("\"" + key + "\"") + [COLON];
  }

  lemma {:induction false} FlagField(key: string, b: bool)
    requires IsPrintable(key)
    ensures CompactMember(Member(U(key), Bool(b))) == U("\"" + key + "\":" + if b then "true" else "false")
  {
    FieldText(key, Bool(b), if b then "true" else "false");
  }

  lemma {:induction false} StringField(key: string, word: string)
    requires IsPrintable(key) && IsPrintable(word)
    ensures CompactMember(Member(U(key), Str(U(word)))) == U("\"" + key + "\":" + ("\"" + word + "\""))
  {
    QuotePrintable(word);
    FieldText(key, Str(U(word)), "\"" + word + "\"");
  }

  // ---------- The texts of what is inserted ----------

  const IS_MUT := U("\"isMut\":true")
  const IS_NOT_MUT := U("\"isMut\":false")
  const IS_SIGNER := U("\"isSigner\":true")
  const IS_NOT_SIGNER := U("\"isSigner\":false")
  const IS_OPTIONAL := U("\"isOptional\":true")

  const EVENT_AUTHORITY_TEXT := Braced([U("\"name\":\"eventAuthority\""), IS_NOT_MUT, IS_NOT_SIGNER])
  const PROGRAM_TEXT := Braced([U("\"name\":\"program\""), IS_NOT_MUT, IS_NOT_SIGNER])

  const CONSUME_ACCOUNTS_TEXT := Bracketed([
    Braced([U("\"name\":\"consumeEventsAdmin\""), IS_NOT_MUT, IS_SIGNER, IS_OPTIONAL]),
    Braced([U("\"name\":\"market\""), IS_MUT, IS_NOT_SIGNER]),
    Braced([U("\"name\":\"eventHeap\""), IS_MUT, IS_NOT_SIGNER])
  ])

  /** Each line as a string literal. */
  function QuotedLines(docs: seq<string>): (texts: seq<Text>)
    ensures |texts| == |docs| && forall i :: 0 <= i < |docs| ==> texts[i] == Quote(U(docs[i]))
  {
    seq(|docs|, i requires 0 <= i < |docs| => Quote(U(docs[i])))
  }

  const CONSUME_EVENTS_TEXT := Braced([
    U("\"name\":\"consumeEvents\""),
    U("\"docs\":") + Bracketed(QuotedLines(CONSUME_EVENTS_DOCS)),
    U("\"accounts\":") + CONSUME_ACCOUNTS_TEXT,
    U("\"args\":") + Bracketed([Braced([U("\"name\":\"limit\""), U("\"type\":\"u64\"")])])
  ])

  const CONSUME_GIVEN_EVENTS_TEXT := Braced([
    U("\"name\":\"consumeGivenEvents\""),
    U("\"docs\":") + Bracketed(QuotedLines(CONSUME_GIVEN_EVENTS_DOCS)),
    U("\"accounts\":") + CONSUME_ACCOUNTS_TEXT,
    U("\"args\":") + Bracketed([Braced([U("\"name\":\"slots\""), U("\"type\":") + Braced([U("\"vec\":\"u64\"")])])])
  ])

  // ---------- They are the texts of what is inserted ----------

  lemma FlagLiterals()
    ensures "\"" + "isMut" + "\":" + "true" == "\"isMut\":true"
    ensures "\"" + "isMut" + "\":" + "false" == "\"isMut\":false"
    ensures "\"" + "isSigner" + "\":" + "true" == "\"isSigner\":true"
    ensures "\"" + "isSigner" + "\":" + "false" == "\"isSigner\":false"
    ensures "\"" + "isOptional" + "\":" + "true" == "\"isOptional\":true"
    ensures IsPrintable("isMut") && IsPrintable("isSigner") && IsPrintable("isOptional")
  {
  }

  lemma {:induction false} AccountText(name: string, isMut: bool, isSigner: bool)
    requires IsPrintable(name)
    ensures var nameText, flag, flag' := U("\"name\":\"" + name + "\""),
        if isMut then IS_MUT else IS_NOT_MUT, if isSigner then IS_SIGNER else IS_NOT_SIGNER;
      && Compact(Account(name, isMut, isSigner)) == Braced([nameText, flag, flag'])
      && Compact(OptionalAccount(name, isMut, isSigner)) == Braced([nameText, flag, flag', IS_OPTIONAL])
  {
    hide U, Joined, Braced, IsPrintable, Compact;
    var flag, flag' := if isMut then IS_MUT else IS_NOT_MUT, if isSigner then IS_SIGNER else IS_NOT_SIGNER;
    NameField(name);
    FlagLiterals();
    FlagField("isMut", isMut);
    FlagField("isSigner", isSigner);
    FlagField("isOptional", true);
    FieldsText(Account(name, isMut, isSigner).members, [U("\"name\":\"" + name + "\""), flag, flag']);
    FieldsText(OptionalAccount(name, isMut, isSigner).members,
               [U("\"name\":\"" + name + "\""), flag, flag', IS_OPTIONAL]);
  }

  lemma {:induction false} NameField(name: string)
    requires IsPrintable(name)
    ensures CompactMember(Member(U("name"), Str(U(name)))) == U("\"name\":\"" + name + "\"")
  {
    StringField("name", name);
    assert "\"" + "name" + "\":" == "\"name\":";
    assert "\"name\":" + ("\"" + name + "\"") == "\"name\":\"" + name + "\"";
  }

  lemma AccountNames()
    ensures IsPrintable("eventAuthority") && IsPrintable("program")
    ensures IsPrintable("consumeEventsAdmin") && IsPrintable("market") && IsPrintable("eventHeap")
  {
  }

  lemma AccountNameLiterals()
    ensures "\"name\":\"" + "eventAuthority" + "\"" == "\"name\":\"eventAuthority\""
    ensures "\"name\":\"" + "program" + "\"" == "\"name\":\"program\""
    ensures "\"name\":\"" + "consumeEventsAdmin" + "\"" == "\"name\":\"consumeEventsAdmin\""
    ensures "\"name\":\"" + "market" + "\"" == "\"name\":\"market\""
    ensures "\"name\":\"" + "eventHeap" + "\"" == "\"name\":\"eventHeap\""
  {
  }

  lemma {:induction false} AccountTexts()
    ensures Compact(EVENT_AUTHORITY) == EVENT_AUTHORITY_TEXT && Compact(PROGRAM) == PROGRAM_TEXT
    ensures Compact(Arr(CONSUME_ACCOUNTS)) == CONSUME_ACCOUNTS_TEXT
  {
    hide U, Joined, Braced, Bracketed, IsPrintable, Compact, Account, OptionalAccount;
    AccountNames();
    AccountNameLiterals();
    AccountText("eventAuthority", false, false);
    AccountText("program", false, false);
    AccountText("consumeEventsAdmin", false, true);
    AccountText("market", true, false);
    AccountText("eventHeap", true, false);
    ItemsText(CONSUME_ACCOUNTS, [
      Braced([U("\"name\":\"consumeEventsAdmin\""), IS_NOT_MUT, IS_SIGNER, IS_OPTIONAL]),
      Braced([U("\"name\":\"market\""), IS_MUT, IS_NOT_SIGNER]),
      Braced([U("\"name\":\"eventHeap\""), IS_MUT, IS_NOT_SIGNER])]);
  }

  lemma {:induction false} LinesText(docs: seq<string>)
    requires docs != []
    ensures Compact(Lines(docs)) == Bracketed(QuotedLines(docs))
  {
    ItemsText(Lines(docs).items, QuotedLines(docs));
  }

  lemma OuterKeys()
    ensures IsPrintable("docs") && IsPrintable("accounts") && IsPrintable("args") && IsPrintable("type")
    ensures "\"" + "docs" + "\":" == "\"docs\":" && "\"" + "accounts" + "\":" == "\"accounts\":"
    ensures "\"" + "args" + "\":" == "\"args\":" && "\"" + "type" + "\":" == "\"type\":"
  {
  }

  lemma {:induction false} InstructionText(name: string, docs: seq<string>, arg: Json, argText: Text)
    requires IsPrintable(name) && docs != [] && Compact(arg) == argText
    ensures Compact(Instruction(name, docs, CONSUME_ACCOUNTS, [arg])) == Braced([
      U("\"name\":\"" + name + "\""), U("\"docs\":") + Bracketed(QuotedLines(docs)),
      U("\"accounts\":") + CONSUME_ACCOUNTS_TEXT, U("\"args\":") + Bracketed([argText])])
  {
    hide U, Joined, Braced, Bracketed, IsPrintable, Compact, Lines, Account, OptionalAccount;
    NameField(name);
    LinesText(docs);
    AccountTexts();
    ItemsText([arg], [argText]);
    OuterKeys();
    NestedFieldText("docs", Lines(docs));
    NestedFieldText("accounts", Arr(CONSUME_ACCOUNTS));
    NestedFieldText("args", Arr([arg]));
    FieldsText(Instruction(name, docs, CONSUME_ACCOUNTS, [arg]).members, [
      U("\"name\":\"" + name + "\""), U("\"docs\":") + Bracketed(QuotedLines(docs)),
      U("\"accounts\":") + CONSUME_ACCOUNTS_TEXT, U("\"args\":") + Bracketed([argText])]);
  }

  lemma {:induction false} ArgumentText(name: string, ty: Json)
    requires IsPrintable(name)
    ensures Compact(Argument(name, ty)) == Braced([U("\"name\":\"" + name + "\""), U("\"type\":") + Compact(ty)])
  {
    hide U, Joined, Braced, IsPrintable, Compact;
    NameField(name);
    OuterKeys();
    NestedFieldText("type", ty);
    FieldsText(Argument(name, ty).members, [U("\"name\":\"" + name + "\""), U("\"type\":") + Compact(ty)]);
  }

  lemma ArgumentLiterals()
    ensures IsPrintable("limit") && IsPrintable("slots") && IsPrintable("vec") && IsPrintable("u64")
    ensures "\"name\":\"" + "limit" + "\"" == "\"name\":\"limit\""
    ensures "\"name\":\"" + "slots" + "\"" == "\"name\":\"slots\""
    ensures "\"" + "vec" + "\":" + ("\"" + "u64" + "\"") == "\"vec\":\"u64\""
    ensures U("\"type\":") + U("\"" + "u64" + "\"") == U("\"type\":\"u64\"")
  {
  }

  lemma {:induction false} ArgumentTexts()
    ensures Compact(Argument("limit", Str(U("u64")))) == Braced([U("\"name\":\"limit\""), U("\"type\":\"u64\"")])
    ensures Compact(Argument("slots", Obj([Member(U("vec"), Str(U("u64")))])))
         == Braced([U("\"name\":\"slots\""), U("\"type\":") + Braced([U("\"vec\":\"u64\"")])])
  {
    hide U, Joined, Braced, IsPrintable, Argument;
    ArgumentLiterals();
    ArgumentText("limit", Str(U("u64")));
    QuotePrintable("u64");
    StringField("vec", "u64");
    FieldsText([Member(U("vec"), Str(U("u64")))], [U("\"vec\":\"u64\"")]);
    ArgumentText("slots", Obj([Member(U("vec"), Str(U("u64")))]));
  }

  lemma InstructionNames()
    ensures IsPrintable("consumeEvents") && IsPrintable("consumeGivenEvents")
    ensures "\"name\":\"" + "consumeEvents" + "\"" == "\"name\":\"consumeEvents\""
    ensures "\"name\":\"" + "consumeGivenEvents" + "\"" == "\"name\":\"consumeGivenEvents\""
  {
  }

  lemma {:induction false} InstructionTexts()
    ensures Compact(CONSUME_EVENTS) == CONSUME_EVENTS_TEXT
    ensures Compact(CONSUME_GIVEN_EVENTS) == CONSUME_GIVEN_EVENTS_TEXT
  {
    hide U, Joined, Braced, Bracketed, IsPrintable, Compact, Instruction, Argument;
    InstructionNames();
    ArgumentTexts();
    InstructionText("consumeEvents", CONSUME_EVENTS_DOCS, Argument("limit", Str(U("u64"))),
                    Braced([U("\"name\":\"limit\""), U("\"type\":\"u64\"")]));
    InstructionText("consumeGivenEvents", CONSUME_GIVEN_EVENTS_DOCS,
                    Argument("slots", Obj([Member(U("vec"), Str(U("u64")))])),
                    Braced([U("\"name\":\"slots\""), U("\"type\":") + Braced([U("\"vec\":\"u64\"")])]));
  }

  // ---------- Main results ----------

  /** A property that is there is overridden in its place, and every other member stays as it is. */
  lemma {:induction false} PutInPlace(ms: seq<Member>, key: Text, value: Json)
    requires UniqueKeys(ms) && Lookup(ms, key).Some?
    ensures |Put(ms, key, value)| == |ms|
    ensures forall i :: 0 <= i < |ms| ==>
      Put(ms, key, value)[i] == if ms[i].key == key then Member(key, value) else ms[i]
  {
    if ms[0].key != key {
      PutInPlace(ms[1..], key, value);
    }
  }

  /** The edited IDL has the members of the input in the same order, all the same but for the instructions. */
  lemma {:induction false} EditedMembers(idl: Json)
    requires DistinctKeys(idl) && EditIdl(idl).Done?
    ensures idl.Obj? && EditIdl(idl).value.Obj?
    ensures Lookup(idl.members, U("instructions")).Some? && Lookup(idl.members, U("instructions")).value.Arr?
    ensures EditList(Lookup(idl.members, U("instructions")).value.items).Done?
    ensures var ms, ms' := idl.members, EditIdl(idl).value.members;
      var edited := EditList(Lookup(ms, U("instructions")).value.items).value;
      |ms'| == |ms| && forall i :: 0 <= i < |ms| ==>
        ms'[i] == if ms[i].key == U("instructions") then Member(U("instructions"), Arr(edited)) else ms[i]
  {
    var items := InstructionsOf(idl).value;
    PutInPlace(idl.members, INSTRUCTIONS, Arr(EditList(items).value));
  }

  /** The array holds the given items and then items with the given compact texts. */
  predicate IsFollowedBy(list: Json, items: seq<Json>, texts: seq<Text>) {
    && list.Arr? && |list.items| == |items| + |texts| && list.items[..|items|] == items
    && forall i :: 0 <= i < |texts| ==> Compact(list.items[|items| + i]) == texts[i]
  }

  lemma {:induction false} FollowedByTwo(items: seq<Json>, x: Json, y: Json)
    ensures IsFollowedBy(Arr(items + [x, y]), items, [Compact(x), Compact(y)])
  {
  }

  /** The members are the same and in the same order, but for the accounts, which are followed by two more. */
  predicate IsExtended(ms: seq<Member>, extended: seq<Member>, accounts: seq<Json>) {
    && |extended| == |ms|
    && forall i :: 0 <= i < |ms| ==>
         if ms[i].key == U("accounts") then
           && extended[i].key == U("accounts")
           && IsFollowedBy(extended[i].value, accounts, [EVENT_AUTHORITY_TEXT, PROGRAM_TEXT])
         else extended[i] == ms[i]
  }

  lemma {:induction false} PutIsExtended(ms: seq<Member>, accounts: seq<Json>)
    requires UniqueKeys(ms) && Lookup(ms, U("accounts")).Some?
    ensures IsExtended(ms, Put(ms, U("accounts"), Arr(accounts + [EVENT_AUTHORITY, PROGRAM])), accounts)
  {
    hide U, UniqueKeys, Put, IsFollowedBy;
    PutInPlace(ms, U("accounts"), Arr(accounts + [EVENT_AUTHORITY, PROGRAM]));
    FollowedByTwo(accounts, EVENT_AUTHORITY, PROGRAM);
    AccountTexts();
  }

  /** The edited list: the first createMarket, with two more accounts; then the instructions before it and those
      behind it that have another name; then two more instructions. */
  lemma {:induction false} EditedItems(items: seq<Json>, c: nat, accounts: seq<Json>)
    requires NoNulls(items) && c < |items|
    requires items[c].Obj? && UniqueKeys(items[c].members)
    requires Lookup(items[c].members, U("name")) == Some(Str(U("createMarket")))
    requires forall i :: 0 <= i < c && items[i].Obj? ==>
      Lookup(items[i].members, U("name")) != Some(Str(U("createMarket")))
    requires Spread(Lookup(items[c].members, U("accounts"))) == Some(accounts)
    ensures EditList(items).Done? && Without(items[c + 1..], U("createMarket")).Done?
    ensures var edited := EditList(items).value;
      && edited != [] && edited[0].Obj? && IsExtended(items[c].members, edited[0].members, accounts)
      && IsFollowedBy(Arr(edited[1..]), items[..c] + Without(items[c + 1..], U("createMarket")).value,
                      [CONSUME_EVENTS_TEXT, CONSUME_GIVEN_EVENTS_TEXT])
    ensures forall x :: x in Without(items[c + 1..], U("createMarket")).value <==>
      x in items[c + 1..] && !(x.Obj? && Lookup(x.members, U("name")) == Some(Str(U("createMarket"))))
  {
    hide U, IsFollowedBy, IsExtended, Put;
    EditTakesFirst(items, c, accounts);
    WithoutIn(items[c + 1..], CREATE_MARKET);
    var others := items[..c] + Without(items[c + 1..], CREATE_MARKET).value;
    PutIsExtended(items[c].members, accounts);
    FollowedByTwo(others, CONSUME_EVENTS, CONSUME_GIVEN_EVENTS);
    assert EditList(items).value[1..] == others + [CONSUME_EVENTS, CONSUME_GIVEN_EVENTS];
    InstructionTexts();
  }

  /** Exactly when the script goes on with an edited IDL, when it says that createMarket is missing, and
      (otherwise) when a TypeError ends it: without an instruction array it always does. */
  lemma {:induction false} EditIdlOutcome(idl: Json)
    ensures var list := if idl.Obj? then Lookup(idl.members, U("instructions")) else None;
      if list.None? || !list.value.Arr? then EditIdl(idl).Thrown?
      else
        var items := list.value.items;
        && (EditIdl(idl).NotFound? <==> NoNulls(items) && CountNamed(items, U("createMarket")) == 0)
        && (EditIdl(idl).Done? <==>
              NoNulls(items) && CountNamed(items, U("createMarket")) > 0 && Spread(AccountsOf(items)).Some?)
  {
    if InstructionsOf(idl).Some? {
      EditListOutcome(InstructionsOf(idl).value);
    }
  }
}
