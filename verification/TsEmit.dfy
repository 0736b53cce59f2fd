/** The interface emitter of convert_int.ts. */
module TsEmit {
  import opened JsText
  import opened TsType

  datatype Account = Account(
    name: Text, isMut: bool, isSigner: bool, docs: Option<seq<Text>>, isOptional: Option<bool>)

  datatype Arg = Arg(name: Text, ty: IdlType)

  /** A field that the JSON does not have is None. */
  datatype Instr = Instr(
    name: Text, docs: Option<seq<Text>>, accounts: Option<seq<Account>>, args: Option<seq<Arg>>)

  /** `instructions` is None when it is missing or not an array. */
  datatype Idl = Idl(name: Text, version: Text, instructions: Option<seq<Instr>>)

  // ---------- The template pieces ----------

  const INTERFACE_OPEN := U("export interface ")
  const INTERFACE_BODY := U(" {\n")
  const VERSION_TAG := U("  version: ")
  const NAME_TAG := U("  name: ")
  const INSTRUCTIONS_OPEN := U("  instructions: [\n")
  const INSTR_OPEN := U("    {\n")
  const INSTR_NAME_TAG := U("      name: ")
  const INSTR_DOCS_TAG := U("      docs: ")
  const ACCOUNTS_OPEN := U("      accounts: [\n")
  const ENTRY_OPEN := U("        {\n")
  const ENTRY_NAME_TAG := U("          name: ")
  const IS_MUT_TAG := U("          isMut: ")
  const IS_SIGNER_TAG := U("          isSigner: ")
  const ENTRY_DOCS_TAG := U("          docs: ")
  const IS_OPTIONAL_TAG := U("          isOptional: ")
  const TYPE_TAG := U("          type: ")
  const ENTRY_CLOSE := U("        },\n")
  const LIST_CLOSE := U("      ];\n")
  const ARGS_OPEN := U("      args: [\n")
  const INSTR_CLOSE := U("    },\n")
  const INSTRUCTIONS_CLOSE := U("  ];\n")
  const INTERFACE_CLOSE := U("}\n")
  const END := U(";\n")
  const SEPARATOR := U(", ")

  /** `'${s}'` */
  function Quoted(s: Text): Text {
    [APOSTROPHE] + s + [APOSTROPHE]
  }

  function BoolText(b: bool): Text {
    if b then TRUE else FALSE
  }

  /** The quoted strings, joined by commas. */
  function Joined(docs: seq<Text>): Text {
    if docs == [] then []
    else if |docs| == 1 then Quoted(docs[0])
    else Quoted(docs[0]) + SEPARATOR + Joined(docs[1..])
  }

  function DocsText(docs: seq<Text>): Text {
    [LBRACKET] + Joined(docs) + [RBRACKET]
  }

  /** One line: a tag, a value and the end. */
  function Line(tag: Text, value: Text): Text {
    tag + value + END
  }

  function OrEmpty<T>(xs: Option<seq<T>>): seq<T> {
    match xs
    case None => []
    case Some(s) => s
  }

  // ---------- The output, as concatenations ----------

  function AccountDocs(a: Account): Text {
    if a.docs.Some? then Line(ENTRY_DOCS_TAG, DocsText(a.docs.value)) else []
  }

  function AccountOptional(a: Account): Text {
    if a.isOptional == Some(true) then Line(IS_OPTIONAL_TAG, BoolText(true)) else []
  }

  function EmitAccount(a: Account): Text {
    ENTRY_OPEN + Line(ENTRY_NAME_TAG, Quoted(a.name)) + Line(IS_MUT_TAG, BoolText(a.isMut))
    + Line(IS_SIGNER_TAG, BoolText(a.isSigner)) + AccountDocs(a) + AccountOptional(a) + ENTRY_CLOSE
  }

  function EmitArg(a: Arg): Text {
    ENTRY_OPEN + Line(ENTRY_NAME_TAG, Quoted(a.name)) + Line(TYPE_TAG, Quoted(Print(a.ty))) + ENTRY_CLOSE
  }

  function EmitAccounts(accounts: seq<Account>): Text {
    ConcatMap(EmitAccount, accounts)
  }

  function EmitArgs(args: seq<Arg>): Text {
    ConcatMap(EmitArg, args)
  }

  function InstrHead(i: Instr): Text {
    INSTR_OPEN + Line(INSTR_NAME_TAG, Quoted(i.name)) + Line(INSTR_DOCS_TAG, DocsText(OrEmpty(i.docs)))
  }

  function EmitInstr(i: Instr): Text {
    InstrHead(i)
    + ACCOUNTS_OPEN + EmitAccounts(OrEmpty(i.accounts)) + LIST_CLOSE
    + ARGS_OPEN + EmitArgs(OrEmpty(i.args)) + LIST_CLOSE + INSTR_CLOSE
  }

  function EmitInstrs(instructions: seq<Instr>): Text {
    ConcatMap(EmitInstr, instructions)
  }

  /** The only line in which the name is not quoted. */
  function InterfaceLine(name: Text): Text {
    INTERFACE_OPEN + name + INTERFACE_BODY
  }

  function Header(idl: Idl): Text {
    InterfaceLine(idl.name)
    + Line(VERSION_TAG, Quoted(idl.version)) + Line(NAME_TAG, Quoted(idl.name)) + INSTRUCTIONS_OPEN
  }

  /** The output for an IDL with instructions. */
  function EmitFile(idl: Idl, instructions: seq<Instr>): Text {
    Header(idl) + EmitInstrs(instructions) + INSTRUCTIONS_CLOSE + INTERFACE_CLOSE
  }

  /** The output: nothing without an instruction array. */
  function Emit(idl: Idl): Text {
    match idl.instructions
    case None => []
    case Some(instructions) => EmitFile(idl, instructions)
  }

  // ---------- The output, line by line from the line of the interface ----------

  /** The instructions between their brackets. */
  function InstrList(instructions: seq<Instr>): Text {
    INSTRUCTIONS_OPEN + EmitInstrs(instructions) + INSTRUCTIONS_CLOSE
  }

  /** The output behind the line of the interface. */
  function Body(idl: Idl): Text
    requires idl.instructions.Some?
  {
    Line(VERSION_TAG, Quoted(idl.version))
    + (Line(NAME_TAG, Quoted(idl.name)) + (InstrList(idl.instructions.value) + INTERFACE_CLOSE))
  }

  lemma {:induction false} EmitSplits(idl: Idl)
    requires idl.instructions.Some?
    ensures Emit(idl) == InterfaceLine(idl.name) + Body(idl)
  {
    var version, name := Line(VERSION_TAG, Quoted(idl.version)), Line(NAME_TAG, Quoted(idl.name));
    var instrs := EmitInstrs(idl.instructions.value);
    var before := InterfaceLine(idl.name) + version + name;
    Regroup3(before + INSTRUCTIONS_OPEN, instrs, INSTRUCTIONS_CLOSE);
    Regroup3(before, INSTRUCTIONS_OPEN, instrs + INSTRUCTIONS_CLOSE);
    Regroup3(INSTRUCTIONS_OPEN, instrs, INSTRUCTIONS_CLOSE);
    Regroup3(before, InstrList(idl.instructions.value), INTERFACE_CLOSE);
    Regroup4(InterfaceLine(idl.name), version, name, InstrList(idl.instructions.value) + INTERFACE_CLOSE);
  }

  // ---------- Strings that can be quoted as they are ----------

  predicate CleanAccount(a: Account) {
    Clean(a.name) && AllClean(OrEmpty(a.docs))
  }

  predicate CleanArg(a: Arg) {
    Clean(a.name) && CleanType(a.ty)
  }

  predicate CleanInstr(i: Instr) {
    && Clean(i.name) && AllClean(OrEmpty(i.docs))
    && (forall a :: a in OrEmpty(i.accounts) ==> CleanAccount(a))
    && (forall a :: a in OrEmpty(i.args) ==> CleanArg(a))
  }

  /** No name, version, doc or defined name of the IDL holds a single quote, a backslash or a line break. */
  predicate CleanIdl(idl: Idl) {
    Clean(idl.name) && Clean(idl.version) && forall i :: i in OrEmpty(idl.instructions) ==> CleanInstr(i)
  }

  // ---------- The nested loops ----------

  lemma Append7(t: Text, a: Text, b: Text, c: Text, d: Text, e: Text, f: Text, g: Text)
    ensures t + a + b + c + d + e + f + g == t + (a + b + c + d + e + f + g)
  {
  }

  lemma Append4(t: Text, a: Text, b: Text, c: Text, d: Text)
    ensures t + a + b + c + d == t + (a + b + c + d)
  {
  }

  lemma Append3(t: Text, a: Text, b: Text, c: Text)
    ensures t + a + b + c == t + (a + b + c)
  {
  }

  /** One more turn of a loop that appends. */
  lemma OneMore<T>(before: Text, emit: T -> Text, xs: seq<T>, i: nat)
    requires i < |xs|
    ensures before + ConcatMap(emit, xs[..i]) + emit(xs[i]) == before + ConcatMap(emit, xs[..i + 1])
  {
    ConcatMapSnoc(emit, xs[..i], xs[i]);
    assert xs[..i + 1] == xs[..i] + [xs[i]];
    Regroup3(before, ConcatMap(emit, xs[..i]), emit(xs[i]));
  }

  /** The loop over the accounts of one instruction. */
  method AppendAccounts(before: Text, accounts: seq<Account>) returns (tsCode: Text)
    ensures tsCode == before + EmitAccounts(accounts)
  {
    hide Line, Quoted, BoolText, DocsText, EmitAccount;
    tsCode := before;
    for i := 0 to |accounts|
      invariant tsCode == before + EmitAccounts(accounts[..i])
    {
      var acc := accounts[i];
      ghost var start := tsCode;
      tsCode := tsCode + ENTRY_OPEN;
      tsCode := tsCode + Line(ENTRY_NAME_TAG, Quoted(acc.name));
      tsCode := tsCode + Line(IS_MUT_TAG, BoolText(acc.isMut));
      tsCode := tsCode + Line(IS_SIGNER_TAG, BoolText(acc.isSigner));
      if acc.docs.Some? {
        tsCode := tsCode + Line(ENTRY_DOCS_TAG, DocsText(acc.docs.value));
      }
      if acc.isOptional == Some(true) {
        tsCode := tsCode + Line(IS_OPTIONAL_TAG, BoolText(true));
      }
      tsCode := tsCode + ENTRY_CLOSE;
      AccountAppended(start, acc, tsCode);
      OneMore(before, EmitAccount, accounts, i);
    }
    assert accounts[..|accounts|] == accounts;
  }

  lemma AccountAppended(start: Text, a: Account, tsCode: Text)
    requires var t := start + ENTRY_OPEN + Line(ENTRY_NAME_TAG, Quoted(a.name))
        + Line(IS_MUT_TAG, BoolText(a.isMut)) + Line(IS_SIGNER_TAG, BoolText(a.isSigner));
      var t' := if a.docs.Some? then t + Line(ENTRY_DOCS_TAG, DocsText(a.docs.value)) else t;
      tsCode == (if a.isOptional == Some(true) then t' + Line(IS_OPTIONAL_TAG, BoolText(true)) else t') + ENTRY_CLOSE
    ensures tsCode == start + EmitAccount(a)
  {
    var t := start + ENTRY_OPEN + Line(ENTRY_NAME_TAG, Quoted(a.name))
      + Line(IS_MUT_TAG, BoolText(a.isMut)) + Line(IS_SIGNER_TAG, BoolText(a.isSigner));
    assert t + [] == t;
    assert t + AccountDocs(a) + [] == t + AccountDocs(a);
    Append7(start, ENTRY_OPEN, Line(ENTRY_NAME_TAG, Quoted(a.name)), Line(IS_MUT_TAG, BoolText(a.isMut)),
            Line(IS_SIGNER_TAG, BoolText(a.isSigner)), AccountDocs(a), AccountOptional(a), ENTRY_CLOSE);
  }

  /** The loop over the arguments of one instruction. */
  method AppendArgs(before: Text, args: seq<Arg>) returns (tsCode: Text)
    ensures tsCode == before + EmitArgs(args)
  {
    hide Line, Quoted, Print;
    tsCode := before;
    for i := 0 to |args|
      invariant tsCode == before + EmitArgs(args[..i])
    {
      var arg := args[i];
      Append4(tsCode, ENTRY_OPEN, Line(ENTRY_NAME_TAG, Quoted(arg.name)), Line(TYPE_TAG, Quoted(Print(arg.ty))),
              ENTRY_CLOSE);
      tsCode := tsCode + ENTRY_OPEN;
      tsCode := tsCode + Line(ENTRY_NAME_TAG, Quoted(arg.name));
      tsCode := tsCode + Line(TYPE_TAG, Quoted(Print(arg.ty)));
      tsCode := tsCode + ENTRY_CLOSE;
      OneMore(before, EmitArg, args, i);
    }
    assert args[..|args|] == args;
  }

  lemma InstrAppended(start: Text, i: Instr)
    ensures start + InstrHead(i)
      + (ACCOUNTS_OPEN + EmitAccounts(OrEmpty(i.accounts)) + LIST_CLOSE
         + ARGS_OPEN + EmitArgs(OrEmpty(i.args)) + LIST_CLOSE + INSTR_CLOSE)
      == start + EmitInstr(i)
  {
    Append7(InstrHead(i), ACCOUNTS_OPEN, EmitAccounts(OrEmpty(i.accounts)), LIST_CLOSE,
            ARGS_OPEN, EmitArgs(OrEmpty(i.args)), LIST_CLOSE, INSTR_CLOSE);
    Regroup3(start, InstrHead(i), ACCOUNTS_OPEN + EmitAccounts(OrEmpty(i.accounts)) + LIST_CLOSE
             + ARGS_OPEN + EmitArgs(OrEmpty(i.args)) + LIST_CLOSE + INSTR_CLOSE);
  }

  /** The body of the loop over the instructions, with its two inner loops. */
  method AppendInstr(before: Text, instr: Instr) returns (tsCode: Text)
    ensures tsCode == before + EmitInstr(instr)
  {
    tsCode := before + INSTR_OPEN;
    tsCode := tsCode + Line(INSTR_NAME_TAG, Quoted(instr.name));
    tsCode := tsCode + Line(INSTR_DOCS_TAG, DocsText(OrEmpty(instr.docs)));
    Append3(before, INSTR_OPEN, Line(INSTR_NAME_TAG, Quoted(instr.name)),
            Line(INSTR_DOCS_TAG, DocsText(OrEmpty(instr.docs))));
    tsCode := tsCode + ACCOUNTS_OPEN;
    tsCode := AppendAccounts(tsCode, OrEmpty(instr.accounts));
    tsCode := tsCode + LIST_CLOSE;
    tsCode := tsCode + ARGS_OPEN;
    tsCode := AppendArgs(tsCode, OrEmpty(instr.args));
    tsCode := tsCode + LIST_CLOSE;
    tsCode := tsCode + INSTR_CLOSE;
    Append7(before + InstrHead(instr), ACCOUNTS_OPEN, EmitAccounts(OrEmpty(instr.accounts)), LIST_CLOSE,
            ARGS_OPEN, EmitArgs(OrEmpty(instr.args)), LIST_CLOSE, INSTR_CLOSE);
    InstrAppended(before, instr);
  }

  /** `convertIDLtoTs` */
  method ConvertIdlToTs(idl: Idl) returns (tsCode: Text)
    ensures tsCode == Emit(idl)
    ensures tsCode == [] <==> idl.instructions.None?
  {
    if idl.instructions.None? {
      return [];
    }
    var instructions := idl.instructions.value;
    tsCode := INTERFACE_OPEN + idl.name + INTERFACE_BODY;
    tsCode := tsCode + Line(VERSION_TAG, Quoted(idl.version));
    tsCode := tsCode + Line(NAME_TAG, Quoted(idl.name));
    tsCode := tsCode + INSTRUCTIONS_OPEN;
    for i := 0 to |instructions|
      invariant tsCode == Header(idl) + EmitInstrs(instructions[..i])
    {
      tsCode := AppendInstr(tsCode, instructions[i]);
      OneMore(Header(idl), EmitInstr, instructions, i);
    }
    assert instructions[..|instructions|] == instructions;
    tsCode := tsCode + INSTRUCTIONS_CLOSE;
    tsCode := tsCode + INTERFACE_CLOSE;
  }
}
