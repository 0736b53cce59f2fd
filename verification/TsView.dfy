/** The emitted interface as a record type: which property holds which field of the IDL, and exactly when a reader
    of TypeScript recovers them. */
module TsView {
  import opened JsText
  import opened TsType
  import opened TsLiteral
  import opened TsRecord
  import opened TsEmit

  // ---------- The properties of each record ----------

  function FlagOf(b: bool): Content {
    Flag(if b then U("true") else U("false"))
  }

  /** An absent `isOptional` and a false one are the same. */
  function AccountFields(a: Account): seq<Field> {
    [Field(U("name"), String(a.name)),
     Field(U("isMut"), FlagOf(a.isMut)),
     Field(U("isSigner"), FlagOf(a.isSigner))]
    + (if a.docs.Some? then [Field(U("docs"), Strings(a.docs.value))] else [])
    + (if a.isOptional == Some(true) then [Field(U("isOptional"), FlagOf(true))] else [])
  }

  /** A type is its printed text. */
  function ArgFields(a: Arg): seq<Field> {
    [Field(U("name"), String(a.name)),
     Field(U("type"), String(Print(a.ty)))]
  }

  function Entries<T>(fields: T -> seq<Field>, xs: seq<T>): seq<Entry> {
    if xs == [] then [] else [Entry(fields(xs[0]))] + Entries(fields, xs[1..])
  }

  /** Missing lists and empty lists are the same. */
  function InstrFields(i: Instr): seq<Field> {
    [Field(U("name"), String(i.name)),
     Field(U("docs"), Strings(OrEmpty(i.docs))),
     Field(U("accounts"), Records(Entries(AccountFields, OrEmpty(i.accounts)))),
     Field(U("args"), Records(Entries(ArgFields, OrEmpty(i.args))))]
  }

  function IdlFields(idl: Idl): seq<Field> {
    [Field(U("version"), String(idl.version)),
     Field(U("name"), String(idl.name)),
     Field(U("instructions"), Records(Entries(InstrFields, OrEmpty(idl.instructions))))]
  }

  // ---------- The emitted text is these records, printed ----------

  /** Each tag is the indentation of its record, a property name and a colon. */
  lemma EntryTags()
    ensures ENTRY_NAME_TAG == Spaces(5) + U("name") + U(": ") && TYPE_TAG == Spaces(5) + U("type") + U(": ")
    ensures ENTRY_DOCS_TAG == Spaces(5) + U("docs") + U(": ")
    ensures ENTRY_OPEN == Spaces(4) + U("{\n") && ENTRY_CLOSE == Spaces(4) + U("},\n")
  {
  }

  lemma FlagTags()
    ensures IS_MUT_TAG == Spaces(5) + U("isMut") + U(": ") && IS_SIGNER_TAG == Spaces(5) + U("isSigner") + U(": ")
    ensures IS_OPTIONAL_TAG == Spaces(5) + U("isOptional") + U(": ")
  {
  }

  lemma InstrTags()
    ensures INSTR_NAME_TAG == Spaces(3) + U("name") + U(": ") && INSTR_DOCS_TAG == Spaces(3) + U("docs") + U(": ")
    ensures INSTR_OPEN == Spaces(2) + U("{\n") && INSTR_CLOSE == Spaces(2) + U("},\n")
  {
  }

  lemma ListTags()
    ensures ACCOUNTS_OPEN == Spaces(3) + U("accounts") + U(": ") + U("[\n")
    ensures ARGS_OPEN == Spaces(3) + U("args") + U(": ") + U("[\n")
    ensures LIST_CLOSE == Spaces(3) + U("]") + U(";\n")
  {
  }

  lemma FileTags()
    ensures VERSION_TAG == Spaces(1) + U("version") + U(": ") && NAME_TAG == Spaces(1) + U("name") + U(": ")
  {
  }

  lemma FileListTags()
    ensures INSTRUCTIONS_OPEN == Spaces(1) + U("instructions") + U(": ") + U("[\n")
    ensures INSTRUCTIONS_CLOSE == Spaces(1) + U("]") + U(";\n")
    ensures INTERFACE_OPEN == U("export interface ") && INTERFACE_BODY == U(" {\n") && INTERFACE_CLOSE == U("}\n")
  {
  }

  lemma QuotedPrints(s: Text)
    ensures Quoted(s) == PrintString(s)
  {
    assert U("'") == [APOSTROPHE];
  }

  lemma {:induction false} JoinedPrints(docs: seq<Text>)
    ensures Joined(docs) == PrintStrings(docs)
    ensures DocsText(docs) == U("[") + PrintStrings(docs) + U("]")
  {
    assert U("[") == [LBRACKET] && U("]") == [RBRACKET] && SEPARATOR == U(", ");
    if docs != [] {
      QuotedPrints(docs[0]);
      JoinedPrints(docs[1..]);
    }
  }

  lemma LinePrints(tag: Text, name: Text, value: Text, content: Content, depth: nat)
    requires tag == Spaces(depth) + name + U(": ") && value == PrintContent(content, depth)
    ensures Line(tag, value) == PrintField(Field(name, content), depth)
  {
  }

  lemma StringLine(tag: Text, name: Text, text: Text, depth: nat)
    requires tag == Spaces(depth) + name + U(": ")
    ensures Line(tag, Quoted(text)) == PrintField(Field(name, String(text)), depth)
  {
    QuotedPrints(text);
    LinePrints(tag, name, Quoted(text), String(text), depth);
  }

  lemma FlagLine(tag: Text, name: Text, b: bool, depth: nat)
    requires tag == Spaces(depth) + name + U(": ")
    ensures Line(tag, BoolText(b)) == PrintField(Field(name, FlagOf(b)), depth)
  {
    LinePrints(tag, name, BoolText(b), FlagOf(b), depth);
  }

  lemma DocsLine(tag: Text, name: Text, docs: seq<Text>, depth: nat)
    requires tag == Spaces(depth) + name + U(": ")
    ensures Line(tag, DocsText(docs)) == PrintField(Field(name, Strings(docs)), depth)
  {
    JoinedPrints(docs);
    LinePrints(tag, name, DocsText(docs), Strings(docs), depth);
  }

  /** A list of records between its brackets. */
  lemma ListPrints(open: Text, name: Text, body: Text, records: seq<Entry>, close: Text, depth: nat)
    requires open == Spaces(depth) + name + U(": ") + U("[\n") && close == Spaces(depth) + U("]") + U(";\n")
    requires body == PrintRecords(records, depth + 1)
    ensures open + body + close == PrintField(Field(name, Records(records)), depth)
  {
  }

  lemma {:induction false} EntriesPrint<T>(emit: T -> Text, fields: T -> seq<Field>, xs: seq<T>, depth: nat)
    requires forall x :: x in xs ==> emit(x) == PrintRecord(fields(x), depth)
    ensures ConcatMap(emit, xs) == PrintRecords(Entries(fields, xs), depth)
  {
    if xs != [] {
      EntriesPrint(emit, fields, xs[1..], depth);
    }
  }

  lemma {:induction false} FieldsConcat(a: seq<Field>, b: seq<Field>, depth: nat)
    ensures PrintFields(a + b, depth) == PrintFields(a, depth) + PrintFields(b, depth)
  {
    if a == [] {
      assert a + b == b;
    } else {
      assert (a + b)[1..] == a[1..] + b;
      FieldsConcat(a[1..], b, depth);
      Regroup3(PrintField(a[0], depth), PrintFields(a[1..], depth), PrintFields(b, depth));
    }
  }

  lemma {:induction false} OneField(f: Field, depth: nat)
    ensures PrintFields([f], depth) == PrintField(f, depth)
  {
    hide PrintField;
    assert [f][1..] == [];
    assert PrintFields([f][1..], depth) == [];
  }

  /** Fields one behind the other. */
  lemma {:induction false} TwoFields(f: Field, g: Field, depth: nat)
    ensures PrintFields([f, g], depth) == PrintField(f, depth) + PrintField(g, depth)
  {
    hide PrintField, PrintFields;
    OneField(f, depth);
    OneField(g, depth);
    FieldsConcat([f], [g], depth);
    assert [f] + [g] == [f, g];
  }

  lemma {:induction false} ThreeFields(f: Field, g: Field, h: Field, depth: nat)
    ensures PrintFields([f, g, h], depth) == PrintField(f, depth) + PrintField(g, depth) + PrintField(h, depth)
  {
    hide PrintField, PrintFields;
    TwoFields(f, g, depth);
    OneField(h, depth);
    FieldsConcat([f, g], [h], depth);
    assert [f, g] + [h] == [f, g, h];
  }

  lemma RecordPrints(open: Text, body: Text, fs: seq<Field>, close: Text, depth: nat)
    requires open == Spaces(depth) + U("{\n") && close == Spaces(depth) + U("},\n")
    requires body == PrintFields(fs, depth + 1)
    ensures open + body + close == PrintRecord(fs, depth)
  {
  }

  lemma {:induction false} AccountOptionsPrint(a: Account)
    ensures AccountDocs(a) == PrintFields(if a.docs.Some? then [Field(U("docs"), Strings(a.docs.value))] else [], 5)
    ensures AccountOptional(a)
         == PrintFields(if a.isOptional == Some(true) then [Field(U("isOptional"), FlagOf(true))] else [], 5)
  {
    hide U, PrintField;
    EntryTags();
    FlagTags();
    if a.docs.Some? {
      DocsLine(ENTRY_DOCS_TAG, U("docs"), a.docs.value, 5);
      OneField(Field(U("docs"), Strings(a.docs.value)), 5);
    }
    FlagLine(IS_OPTIONAL_TAG, U("isOptional"), true, 5);
    OneField(Field(U("isOptional"), FlagOf(true)), 5);
  }

  lemma {:induction false} AccountPrints(a: Account)
    ensures EmitAccount(a) == PrintRecord(AccountFields(a), 4)
  {
    hide U, Spaces, Line, Quoted, BoolText, AccountDocs, AccountOptional, PrintField, PrintFields, PrintRecord, FlagOf;
    var name, isMut := Line(ENTRY_NAME_TAG, Quoted(a.name)), Line(IS_MUT_TAG, BoolText(a.isMut));
    var isSigner := Line(IS_SIGNER_TAG, BoolText(a.isSigner));
    var head := [Field(U("name"), String(a.name)), Field(U("isMut"), FlagOf(a.isMut)),
                 Field(U("isSigner"), FlagOf(a.isSigner))];
    var docs := if a.docs.Some? then [Field(U("docs"), Strings(a.docs.value))] else [];
    var optional := if a.isOptional == Some(true) then [Field(U("isOptional"), FlagOf(true))] else [];
    EntryTags();
    FlagTags();
    StringLine(ENTRY_NAME_TAG, U("name"), a.name, 5);
    FlagLine(IS_MUT_TAG, U("isMut"), a.isMut, 5);
    FlagLine(IS_SIGNER_TAG, U("isSigner"), a.isSigner, 5);
    AccountOptionsPrint(a);
    ThreeFields(head[0], head[1], head[2], 5);
    FieldsConcat(head, docs, 5);
    FieldsConcat(head + docs, optional, 5);
    var body := name + isMut + isSigner + AccountDocs(a) + AccountOptional(a);
    RecordPrints(ENTRY_OPEN, body, AccountFields(a), ENTRY_CLOSE, 4);
    RegroupAccount(ENTRY_OPEN, name, isMut, isSigner, AccountDocs(a), AccountOptional(a), ENTRY_CLOSE);
  }

  lemma RegroupAccount(open: Text, a: Text, b: Text, c: Text, d: Text, e: Text, close: Text)
    ensures open + a + b + c + d + e + close == open + (a + b + c + d + e) + close
  {
  }

  lemma {:induction false} ArgPrints(a: Arg)
    ensures EmitArg(a) == PrintRecord(ArgFields(a), 4)
  {
    hide U, Spaces, Line, Quoted, Print, PrintField, PrintFields, PrintRecord;
    var name, ty := Line(ENTRY_NAME_TAG, Quoted(a.name)), Line(TYPE_TAG, Quoted(Print(a.ty)));
    EntryTags();
    StringLine(ENTRY_NAME_TAG, U("name"), a.name, 5);
    StringLine(TYPE_TAG, U("type"), Print(a.ty), 5);
    TwoFields(Field(U("name"), String(a.name)), Field(U("type"), String(Print(a.ty))), 5);
    RecordPrints(ENTRY_OPEN, name + ty, ArgFields(a), ENTRY_CLOSE, 4);
    Regroup3(ENTRY_OPEN, name, ty);
  }

  lemma {:induction false} ListsPrint(i: Instr)
    ensures ACCOUNTS_OPEN + EmitAccounts(OrEmpty(i.accounts)) + LIST_CLOSE
         == PrintField(Field(U("accounts"), Records(Entries(AccountFields, OrEmpty(i.accounts)))), 3)
    ensures ARGS_OPEN + EmitArgs(OrEmpty(i.args)) + LIST_CLOSE
         == PrintField(Field(U("args"), Records(Entries(ArgFields, OrEmpty(i.args)))), 3)
  {
    hide U, Spaces, EmitAccount, EmitArg, PrintField, PrintRecord, PrintRecords, AccountFields, ArgFields;
    var accounts, args := OrEmpty(i.accounts), OrEmpty(i.args);
    forall a | a in accounts ensures EmitAccount(a) == PrintRecord(AccountFields(a), 4) {
      AccountPrints(a);
    }
    forall a | a in args ensures EmitArg(a) == PrintRecord(ArgFields(a), 4) {
      ArgPrints(a);
    }
    EntriesPrint(EmitAccount, AccountFields, accounts, 4);
    EntriesPrint(EmitArg, ArgFields, args, 4);
    ListTags();
    ListPrints(ACCOUNTS_OPEN, U("accounts"), EmitAccounts(accounts), Entries(AccountFields, accounts), LIST_CLOSE, 3);
    ListPrints(ARGS_OPEN, U("args"), EmitArgs(args), Entries(ArgFields, args), LIST_CLOSE, 3);
  }

  lemma {:induction false} InstrPrints(i: Instr)
    ensures EmitInstr(i) == PrintRecord(InstrFields(i), 2)
  {
    hide U, Spaces, Line, Quoted, DocsText, EmitAccounts, EmitArgs, PrintField, PrintFields, PrintRecord, Entries;
    var name, docs := Line(INSTR_NAME_TAG, Quoted(i.name)), Line(INSTR_DOCS_TAG, DocsText(OrEmpty(i.docs)));
    var accounts, args := EmitAccounts(OrEmpty(i.accounts)), EmitArgs(OrEmpty(i.args));
    var fs := InstrFields(i);
    InstrTags();
    StringLine(INSTR_NAME_TAG, U("name"), i.name, 3);
    DocsLine(INSTR_DOCS_TAG, U("docs"), OrEmpty(i.docs), 3);
    ListsPrint(i);
    TwoFields(fs[0], fs[1], 3);
    TwoFields(fs[2], fs[3], 3);
    FieldsConcat([fs[0], fs[1]], [fs[2], fs[3]], 3);
    assert [fs[0], fs[1]] + [fs[2], fs[3]] == fs;
    var body := (name + docs) + ((ACCOUNTS_OPEN + accounts + LIST_CLOSE) + (ARGS_OPEN + args + LIST_CLOSE));
    RecordPrints(INSTR_OPEN, body, fs, INSTR_CLOSE, 2);
    RegroupInstr(INSTR_OPEN, name, docs, ACCOUNTS_OPEN, accounts, LIST_CLOSE, ARGS_OPEN, args, INSTR_CLOSE);
  }

  lemma RegroupInstr(
    open: Text, a: Text, b: Text, c: Text, d: Text, e: Text, f: Text, g: Text, close: Text)
    ensures (open + a + b) + c + d + e + f + g + e + close
         == open + ((a + b) + ((c + d + e) + (f + g + e))) + close
  {
  }

  lemma {:induction false} IdlFieldsPrint(idl: Idl)
    ensures Line(VERSION_TAG, Quoted(idl.version)) + Line(NAME_TAG, Quoted(idl.name))
              + InstrList(OrEmpty(idl.instructions))
         == PrintFields(IdlFields(idl), 1)
  {
    hide U, Spaces, Line, Quoted, EmitInstr, PrintField, PrintFields, PrintRecord, PrintRecords, InstrFields;
    var instructions := OrEmpty(idl.instructions);
    var fs := IdlFields(idl);
    forall i | i in instructions ensures EmitInstr(i) == PrintRecord(InstrFields(i), 2) {
      InstrPrints(i);
    }
    EntriesPrint(EmitInstr, InstrFields, instructions, 2);
    FileTags();
    FileListTags();
    StringLine(VERSION_TAG, U("version"), idl.version, 1);
    StringLine(NAME_TAG, U("name"), idl.name, 1);
    ListPrints(INSTRUCTIONS_OPEN, U("instructions"), EmitInstrs(instructions), Entries(InstrFields, instructions),
               INSTRUCTIONS_CLOSE, 1);
    ThreeFields(fs[0], fs[1], fs[2], 1);
  }

  /** The output is the interface with the properties of the IDL, in the usual layout; it is empty if and only if
      there is no instruction array. */
  lemma {:induction false} EmitIsPrinted(idl: Idl)
    ensures idl.instructions.Some? ==> Emit(idl) == PrintInterface(idl.name, IdlFields(idl))
    ensures Emit(idl) == [] <==> idl.instructions.None?
  {
    if idl.instructions.Some? {
      EmitSplits(idl);
      IdlFieldsPrint(idl);
      FileListTags();
      RegroupFile(InterfaceLine(idl.name), Line(VERSION_TAG, Quoted(idl.version)), Line(NAME_TAG, Quoted(idl.name)),
                  InstrList(idl.instructions.value), INTERFACE_CLOSE);
    }
  }

  lemma RegroupFile(line: Text, a: Text, b: Text, c: Text, close: Text)
    ensures line + (a + (b + (c + close))) == line + (a + b + c) + close
  {
  }

  // ---------- Proper, and clean exactly when the IDL is ----------

  lemma EntryNames()
    ensures IsIdentifier(U("name")) && IsIdentifier(U("isMut")) && IsIdentifier(U("docs")) && IsIdentifier(U("type"))
  {
  }

  lemma FlagNames()
    ensures IsIdentifier(U("isSigner")) && IsIdentifier(U("isOptional"))
    ensures IsIdentifier(U("true")) && IsIdentifier(U("false"))
  {
  }

  lemma ListNames()
    ensures IsIdentifier(U("accounts")) && IsIdentifier(U("args"))
    ensures IsIdentifier(U("version")) && IsIdentifier(U("instructions"))
  {
  }

  lemma PropertyNames()
    ensures forall w :: w in {U("name"), U("isMut"), U("isSigner"), U("docs"), U("isOptional")} ==> IsIdentifier(w)
    ensures forall w :: w in {U("type"), U("accounts"), U("args"), U("version")} ==> IsIdentifier(w)
    ensures forall w :: w in {U("instructions"), U("true"), U("false")} ==> IsIdentifier(w)
  {
    hide U, IsIdentifier;
    EntryNames();
    FlagNames();
    ListNames();
  }

  lemma {:induction false} ConditionsConcat(a: seq<Field>, b: seq<Field>)
    ensures ProperFields(a + b) <==> ProperFields(a) && ProperFields(b)
    ensures CleanFields(a + b) <==> CleanFields(a) && CleanFields(b)
  {
    if a == [] {
      assert a + b == b;
    } else {
      assert (a + b)[1..] == a[1..] + b;
      ConditionsConcat(a[1..], b);
    }
  }

  lemma {:induction false} ConditionsOne(f: Field)
    ensures ProperFields([f]) <==> IsIdentifier(f.name) && ProperContent(f.content)
    ensures CleanFields([f]) <==> CleanContent(f.content)
  {
    assert [f][1..] == [];
  }

  lemma {:induction false} ConditionsCons(f: Field, fs: seq<Field>)
    ensures ProperFields([f] + fs) <==> IsIdentifier(f.name) && ProperContent(f.content) && ProperFields(fs)
    ensures CleanFields([f] + fs) <==> CleanContent(f.content) && CleanFields(fs)
  {
    ConditionsConcat([f], fs);
    ConditionsOne(f);
  }

  lemma {:induction false} EntriesConditions<T>(fields: T -> seq<Field>, xs: seq<T>)
    ensures ProperRecords(Entries(fields, xs)) <==> forall x :: x in xs ==> ProperFields(fields(x))
    ensures CleanRecords(Entries(fields, xs)) <==> forall x :: x in xs ==> CleanFields(fields(x))
  {
    if xs != [] {
      EntriesConditions(fields, xs[1..]);
      assert forall x :: x in xs <==> x == xs[0] || x in xs[1..];
    }
  }

  lemma {:induction false} AccountConditions(a: Account)
    ensures ProperFields(AccountFields(a))
    ensures CleanFields(AccountFields(a)) <==> CleanAccount(a)
  {
    hide U, Clean, ProperFields, CleanFields, IsIdentifier;
    var fs := AccountFields(a);
    var docs := if a.docs.Some? then [Field(U("docs"), Strings(a.docs.value))] else [];
    var optional := if a.isOptional == Some(true) then [Field(U("isOptional"), FlagOf(true))] else [];
    PropertyNames();
    NoFields();
    ConditionsOne(Field(U("docs"), Strings(OrEmpty(a.docs))));
    ConditionsOne(Field(U("isOptional"), FlagOf(true)));
    ConditionsConcat(docs, optional);
    assert fs == [fs[0]] + ([fs[1]] + ([fs[2]] + (docs + optional)));
    ConditionsCons(fs[2], docs + optional);
    ConditionsCons(fs[1], [fs[2]] + (docs + optional));
    ConditionsCons(fs[0], [fs[1]] + ([fs[2]] + (docs + optional)));
  }

  lemma NoFields()
    ensures ProperFields([]) && CleanFields([])
  {
  }

  lemma {:induction false} ArgConditions(a: Arg)
    ensures ProperFields(ArgFields(a))
    ensures CleanFields(ArgFields(a)) <==> CleanArg(a)
  {
    hide U, Clean, ProperFields, CleanFields, IsIdentifier;
    var fs := ArgFields(a);
    PropertyNames();
    PrintedTypeClean(a.ty);
    ConditionsOne(fs[1]);
    ConditionsCons(fs[0], [fs[1]]);
    assert fs == [fs[0]] + [fs[1]];
  }

  lemma {:induction false} InstrConditions(i: Instr)
    ensures ProperFields(InstrFields(i))
    ensures CleanFields(InstrFields(i)) <==> CleanInstr(i)
  {
    hide U, Clean, ProperFields, CleanFields, IsIdentifier, CleanAccount, CleanArg;
    var fs := InstrFields(i);
    var accounts, args := OrEmpty(i.accounts), OrEmpty(i.args);
    PropertyNames();
    forall a ensures ProperFields(AccountFields(a)) && (CleanFields(AccountFields(a)) <==> CleanAccount(a)) {
      AccountConditions(a);
    }
    forall a ensures ProperFields(ArgFields(a)) && (CleanFields(ArgFields(a)) <==> CleanArg(a)) {
      ArgConditions(a);
    }
    EntriesConditions(AccountFields, accounts);
    EntriesConditions(ArgFields, args);
    ConditionsOne(fs[3]);
    ConditionsCons(fs[2], [fs[3]]);
    ConditionsCons(fs[1], [fs[2]] + [fs[3]]);
    ConditionsCons(fs[0], [fs[1]] + ([fs[2]] + [fs[3]]));
    assert fs == [fs[0]] + ([fs[1]] + ([fs[2]] + [fs[3]]));
  }

  lemma {:induction false} IdlConditions(idl: Idl)
    ensures ProperFields(IdlFields(idl))
    ensures CleanFields(IdlFields(idl)) <==> CleanIdl(idl)
  {
    hide U, Clean, ProperFields, CleanFields, IsIdentifier, CleanInstr;
    var fs := IdlFields(idl);
    PropertyNames();
    forall i ensures ProperFields(InstrFields(i)) && (CleanFields(InstrFields(i)) <==> CleanInstr(i)) {
      InstrConditions(i);
    }
    EntriesConditions(InstrFields, OrEmpty(idl.instructions));
    ConditionsOne(fs[2]);
    ConditionsCons(fs[1], [fs[2]]);
    ConditionsCons(fs[0], [fs[1]] + [fs[2]]);
    assert fs == [fs[0]] + ([fs[1]] + [fs[2]]);
  }

  // ---------- Main results ----------

  /** A reader of TypeScript that knows its escapes and none of the emitter's constants recovers every property
      of the IDL, under its name, exactly when the name can be declared as an interface and no string that is
      quoted holds a single quote, a backslash or a line break. */
  lemma {:induction false} ReadBackIffClean(idl: Idl)
    requires idl.instructions.Some?
    ensures ReadInterface(Emit(idl)) == Some(Interface(idl.name, Properties(IdlFields(idl)))) <==>
      IsInterfaceName(idl.name) && CleanIdl(idl)
  {
    EmitIsPrinted(idl);
    IdlConditions(idl);
    InterfaceReadsBack(idl.name, IdlFields(idl));
  }

  /** The output depends on nothing but the name and the fields, whatever the strings hold. */
  lemma {:induction false} ViewDeterminesEmit(a: Idl, b: Idl)
    requires a.instructions.Some? && b.instructions.Some?
    requires a.name == b.name && IdlFields(a) == IdlFields(b)
    ensures Emit(a) == Emit(b)
  {
    EmitIsPrinted(a);
    EmitIsPrinted(b);
  }

  // ---------- What is conflated ----------

  predicate IsListName(name: Text) {
    name == U("accounts") || name == U("args") || name == U("instructions")
  }

  /** Whether a field is a list of records can be told from its name. */
  predicate Shaped(fs: seq<Field>) {
    fs == [] || (ShapedField(fs[0]) && Shaped(fs[1..]))
  }

  predicate ShapedField(f: Field) {
    && (f.content.Records? <==> IsListName(f.name))
    && (f.content.Records? ==> ShapedRecords(f.content.records))
  }

  predicate ShapedRecords(records: seq<Entry>) {
    records == [] || (Shaped(records[0].fields) && ShapedRecords(records[1..]))
  }

  lemma {:induction false} SameLiterals(a: seq<Text>, b: seq<Text>)
    requires Literals(a) == Literals(b)
    ensures a == b
  {
    if a != [] {
      assert Literals(a)[0] == Literals(b)[0] && Literals(a)[1..] == Literals(b)[1..];
      SameLiterals(a[1..], b[1..]);
      assert a == [a[0]] + a[1..] && b == [b[0]] + b[1..];
    }
  }

  lemma {:induction false} SameProperties(a: seq<Field>, b: seq<Field>)
    requires Shaped(a) && Shaped(b) && Properties(a) == Properties(b)
    ensures a == b
    decreases a, 1
  {
    if a != [] {
      assert Properties(a)[0] == Properties(b)[0] && Properties(a)[1..] == Properties(b)[1..];
      SameField(a[0], b[0]);
      SameProperties(a[1..], b[1..]);
      assert a == [a[0]] + a[1..] && b == [b[0]] + b[1..];
    }
  }

  lemma {:induction false} SameField(f: Field, g: Field)
    requires ShapedField(f) && ShapedField(g) && f.name == g.name && Meaning(f.content) == Meaning(g.content)
    ensures f == g
    decreases f, 1
  {
    if f.content.Records? {
      SameRecords(f.content.records, g.content.records);
    } else if f.content.Strings? {
      SameLiterals(f.content.texts, g.content.texts);
    }
  }

  lemma {:induction false} SameRecords(a: seq<Entry>, b: seq<Entry>)
    requires ShapedRecords(a) && ShapedRecords(b) && RecordValues(a) == RecordValues(b)
    ensures a == b
    decreases a, 1
  {
    if a != [] {
      assert RecordValues(a)[0] == RecordValues(b)[0] && RecordValues(a)[1..] == RecordValues(b)[1..];
      SameProperties(a[0].fields, b[0].fields);
      SameRecords(a[1..], b[1..]);
      assert a == [a[0]] + a[1..] && b == [b[0]] + b[1..];
    }
  }

  lemma WhichNamesList()
    ensures !IsListName(U("name")) && !IsListName(U("isMut")) && !IsListName(U("isSigner"))
    ensures !IsListName(U("docs")) && !IsListName(U("isOptional")) && !IsListName(U("type"))
    ensures !IsListName(U("version"))
    ensures IsListName(U("accounts")) && IsListName(U("args")) && IsListName(U("instructions"))
  {
    assert U("accounts")[0] == U("args")[0] == 0x61 && U("instructions")[1] == 0x6E;
    assert U("name")[0] == 0x6E && U("docs")[0] == 0x64 && U("type")[0] == 0x74 && U("version")[0] == 0x76;
    assert U("isMut")[1] == U("isSigner")[1] == U("isOptional")[1] == 0x73;
    assert U("isMut")[0] == U("isSigner")[0] == U("isOptional")[0] == 0x69;
  }

  lemma {:induction false} EntriesShaped<T>(fields: T -> seq<Field>, xs: seq<T>)
    requires forall x :: x in xs ==> Shaped(fields(x))
    ensures ShapedRecords(Entries(fields, xs))
  {
    if xs != [] {
      EntriesShaped(fields, xs[1..]);
    }
  }

  lemma {:induction false} ShapedCons(f: Field, fs: seq<Field>)
    requires ShapedField(f) && Shaped(fs)
    ensures Shaped([f] + fs)
  {
    assert ([f] + fs)[1..] == fs;
  }

  lemma {:induction false} AccountShaped(a: Account)
    ensures Shaped(AccountFields(a))
  {
    hide U, IsListName;
    var fs := AccountFields(a);
    var docs := if a.docs.Some? then [Field(U("docs"), Strings(a.docs.value))] else [];
    var optional := if a.isOptional == Some(true) then [Field(U("isOptional"), FlagOf(true))] else [];
    WhichNamesList();
    ShapedCons(Field(U("isOptional"), FlagOf(true)), []);
    assert Shaped(optional) by {
      assert [Field(U("isOptional"), FlagOf(true))] + [] == [Field(U("isOptional"), FlagOf(true))];
    }
    ShapedCons(Field(U("docs"), Strings(OrEmpty(a.docs))), optional);
    assert Shaped(docs + optional) by {
      assert [] + optional == optional;
    }
    ShapedCons(fs[2], docs + optional);
    ShapedCons(fs[1], [fs[2]] + (docs + optional));
    ShapedCons(fs[0], [fs[1]] + ([fs[2]] + (docs + optional)));
    assert fs == [fs[0]] + ([fs[1]] + ([fs[2]] + (docs + optional)));
  }

  lemma {:induction false} ArgShaped(a: Arg)
    ensures Shaped(ArgFields(a))
  {
    hide U, IsListName;
    var fs := ArgFields(a);
    WhichNamesList();
    ShapedCons(fs[1], []);
    assert [fs[1]] + [] == [fs[1]];
    ShapedCons(fs[0], [fs[1]]);
    assert fs == [fs[0]] + [fs[1]];
  }

  lemma {:induction false} InstrShaped(i: Instr)
    ensures Shaped(InstrFields(i))
  {
    hide U, IsListName, AccountFields, ArgFields;
    var fs := InstrFields(i);
    WhichNamesList();
    forall a ensures Shaped(AccountFields(a)) {
      AccountShaped(a);
    }
    forall a ensures Shaped(ArgFields(a)) {
      ArgShaped(a);
    }
    EntriesShaped(AccountFields, OrEmpty(i.accounts));
    EntriesShaped(ArgFields, OrEmpty(i.args));
    ShapedCons(fs[3], []);
    assert [fs[3]] + [] == [fs[3]];
    ShapedCons(fs[2], [fs[3]]);
    ShapedCons(fs[1], [fs[2]] + [fs[3]]);
    ShapedCons(fs[0], [fs[1]] + ([fs[2]] + [fs[3]]));
    assert fs == [fs[0]] + ([fs[1]] + ([fs[2]] + [fs[3]]));
  }

  lemma {:induction false} IdlShaped(idl: Idl)
    ensures Shaped(IdlFields(idl))
  {
    hide U, IsListName, InstrFields;
    var fs := IdlFields(idl);
    WhichNamesList();
    forall i ensures Shaped(InstrFields(i)) {
      InstrShaped(i);
    }
    EntriesShaped(InstrFields, OrEmpty(idl.instructions));
    ShapedCons(fs[2], []);
    assert [fs[2]] + [] == [fs[2]];
    ShapedCons(fs[1], [fs[2]]);
    ShapedCons(fs[0], [fs[1]] + [fs[2]]);
    assert fs == [fs[0]] + ([fs[1]] + [fs[2]]);
  }

  /** Two lines that hold no line break differ, or so do their ends. */
  lemma SameLine(a: Text, b: Text, k: Text, l: Text)
    requires LF !in a && LF !in b && a + ([LF] + k) == b + ([LF] + l)
    ensures a == b && k == l
  {
    var t := a + ([LF] + k);
    assert t[|a|] == LF && t[|b|] == (b + ([LF] + l))[|b|] == LF;
    assert forall i :: 0 <= i < |a| ==> t[i] == a[i];
    assert forall i :: 0 <= i < |b| ==> (b + ([LF] + l))[i] == b[i];
    assert t[..|a|] == a && (b + ([LF] + l))[..|b|] == b;
    assert t[|a| + 1..] == k && (b + ([LF] + l))[|b| + 1..] == l;
  }

  lemma {:induction false} InterfaceSplits(name: Text, fs: seq<Field>)
    requires Clean(name)
    ensures var line := U("export interface ") + name + [SPACE, LBRACE];
      LF !in line && PrintInterface(name, fs) == line + ([LF] + (PrintFields(fs, 1) + U("}\n")))
  {
    hide PrintFields;
    var words := "export interface ";
    assert U(" {\n") == [SPACE, LBRACE] + [LF];
    assert forall i :: 0 <= i < |words| ==> words[i] == ' ' || 'a' <= words[i] <= 'z';
    Regroup3(U(words) + name + [SPACE, LBRACE], [LF], PrintFields(fs, 1));
  }

  /** On clean IDLs the emitter conflates exactly what the fields conflate: missing and empty lists, an absent
      and a false `isOptional`, and types that print the same. */
  lemma {:induction false} EmitDeterminesView(a: Idl, b: Idl)
    requires a.instructions.Some? && b.instructions.Some?
    requires CleanIdl(a) && CleanIdl(b)
    ensures Emit(a) == Emit(b) <==> a.name == b.name && IdlFields(a) == IdlFields(b)
  {
    if Emit(a) == Emit(b) {
      SameEmit(a, b);
    } else if a.name == b.name && IdlFields(a) == IdlFields(b) {
      ViewDeterminesEmit(a, b);
    }
  }

  lemma {:induction false} SameEmit(a: Idl, b: Idl)
    requires a.instructions.Some? && b.instructions.Some?
    requires CleanIdl(a) && CleanIdl(b) && Emit(a) == Emit(b)
    ensures a.name == b.name && IdlFields(a) == IdlFields(b)
  {
    hide U, Emit, PrintFields, PrintInterface, IdlFields, Properties, Shaped;
    var fs, gs := IdlFields(a), IdlFields(b);
    EmitIsPrinted(a);
    EmitIsPrinted(b);
    InterfaceSplits(a.name, fs);
    InterfaceSplits(b.name, gs);
    var line := U("export interface ") + a.name + [SPACE, LBRACE];
    var line' := U("export interface ") + b.name + [SPACE, LBRACE];
    SameLine(line, line', PrintFields(fs, 1) + U("}\n"), PrintFields(gs, 1) + U("}\n"));
    SameName(U("export interface "), a.name, b.name, [SPACE, LBRACE]);
    IdlConditions(a);
    IdlConditions(b);
    BodyRead(fs);
    BodyRead(gs);
    IdlShaped(a);
    IdlShaped(b);
    SameProperties(fs, gs);
  }

  lemma SameName(before: Text, a: Text, b: Text, behind: Text)
    requires before + a + behind == before + b + behind
    ensures a == b
  {
    var t, u := before + a + behind, before + b + behind;
    assert t[|before|..|t| - |behind|] == a && u[|before|..|u| - |behind|] == b;
  }

  // ---------- Quotes ----------

  /** For all strings, one doc that holds `', '` and the two docs on either side of it are emitted alike. */
  lemma {:induction false} DocsCollide(a: Text, b: Text)
    ensures DocsText([a + U("', '") + b]) == DocsText([a, b])
  {
    var glue: Text := [APOSTROPHE] + SEPARATOR + [APOSTROPHE];
    assert U("', '") == glue;
    assert Quoted(a + glue + b) == Quoted(a) + SEPARATOR + Quoted(b);
    assert Joined([a, b]) == Quoted(a) + SEPARATOR + Joined([b]);
    assert Joined([b]) == Quoted(b);
  }

  /** So without the condition on quotes the emitter conflates more: the docs of any instruction ... */
  lemma {:induction false} QuotesCollide(i: Instr, a: Text, b: Text)
    ensures var one, two := i.(docs := Some([a + U("', '") + b])), i.(docs := Some([a, b]));
      EmitInstr(one) == EmitInstr(two) && InstrFields(one) != InstrFields(two)
  {
    DocsCollide(a, b);
    var one, two := i.(docs := Some([a + U("', '") + b])), i.(docs := Some([a, b]));
    assert InstrFields(one)[1].content.texts != InstrFields(two)[1].content.texts;
  }

  /** ... and the docs of any account. */
  lemma {:induction false} AccountQuotesCollide(acc: Account, a: Text, b: Text)
    ensures var one, two := acc.(docs := Some([a + U("', '") + b])), acc.(docs := Some([a, b]));
      EmitAccount(one) == EmitAccount(two) && AccountFields(one) != AccountFields(two)
  {
    DocsCollide(a, b);
    var one, two := acc.(docs := Some([a + U("', '") + b])), acc.(docs := Some([a, b]));
    assert AccountFields(one)[3].content.texts != AccountFields(two)[3].content.texts;
  }
}
