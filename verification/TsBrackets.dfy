/** The brackets of the emitted interface, outside its string literals. */
module TsBrackets {
  import opened JsText
  import opened TsType
  import opened TsEmit

  // ---------- The scanner ----------

  datatype Place = Code | Literal | Escape

  /** The brackets that are open, the last one first; or that the text can no longer be balanced. */
  datatype State = Broken | At(open: seq<CodeUnit>, place: Place)

  const LPAREN: CodeUnit := 0x28
  const RPAREN: CodeUnit := 0x29

  /** The bracket that a closing bracket closes. */
  function Opener(c: CodeUnit): Option<CodeUnit> {
    match c
    case 0x29 => Some(LPAREN)
    case 0x5D => Some(LBRACKET)
    case 0x7D => Some(LBRACE)
    case _ => None
  }

  /** One unit further. In a single-quoted literal brackets do not count; a line break ends it too early. */
  function Advance(s: State, c: CodeUnit): State {
    match s
    case Broken => Broken
    case At(open, Escape) => At(open, Literal)
    case At(open, Literal) =>
      if c == APOSTROPHE then At(open, Code)
      else if c == BACKSLASH then At(open, Escape)
      else if IsSpecial(c) then Broken
      else s
    case At(open, Code) =>
      if c == APOSTROPHE then At(open, Literal)
      else if c in {LPAREN, LBRACKET, LBRACE} then At([c] + open, Code)
      else if Opener(c).None? then s
      else if open != [] && open[0] == Opener(c).value then At(open[1..], Code)
      else Broken
  }

  function Scan(s: State, t: Text): State
    decreases |t|
  {
    if t == [] then s else Scan(Advance(s, t[0]), t[1..])
  }

  /** Outside literals every bracket is closed by its own kind, in the right order. */
  predicate Balanced(t: Text) {
    Scan(At([], Code), t) == At([], Code)
  }

  lemma {:induction false} ScanConcat(s: State, a: Text, b: Text)
    ensures Scan(s, a + b) == Scan(Scan(s, a), b)
    decreases |a|
  {
    if a == [] {
      assert a + b == b;
    } else {
      assert (a + b)[1..] == a[1..] + b;
      ScanConcat(Advance(s, a[0]), a[1..], b);
    }
  }

  lemma {:induction false} StaysBroken(t: Text)
    ensures Scan(Broken, t) == Broken
  {
    if t != [] {
      StaysBroken(t[1..]);
    }
  }

  // ---------- Pieces of the output ----------

  /** Whatever is open in front of the text is open behind it. */
  ghost predicate Keeps(t: Text) {
    forall open :: Scan(At(open, Code), t) == At(open, Code)
  }

  ghost predicate Opens(t: Text, c: CodeUnit) {
    forall open :: Scan(At(open, Code), t) == At([c] + open, Code)
  }

  ghost predicate Closes(t: Text, c: CodeUnit) {
    forall open :: Scan(At([c] + open, Code), t) == At(open, Code)
  }

  /** A unit that the scanner does not pass over in code. */
  predicate IsMark(c: CodeUnit) {
    c in {APOSTROPHE, LPAREN, RPAREN, LBRACKET, RBRACKET, LBRACE, RBRACE}
  }

  lemma {:induction false} PlainKeeps(t: Text)
    requires forall i :: 0 <= i < |t| ==> !IsMark(t[i])
    ensures Keeps(t)
  {
    if t != [] {
      PlainKeeps(t[1..]);
    }
  }

  predicate IsPlainPiece(piece: string) {
    forall i :: 0 <= i < |piece| ==> !IsMark(Unit(piece[i]))
  }

  lemma {:induction false} KeepsConcat(a: Text, b: Text)
    requires Keeps(a) && Keeps(b)
    ensures Keeps(a + b)
  {
    forall open ensures Scan(At(open, Code), a + b) == At(open, Code) {
      ScanConcat(At(open, Code), a, b);
    }
  }

  lemma {:induction false} OpensConcat(a: Text, b: Text, c: CodeUnit)
    requires Opens(a, c) && Keeps(b)
    ensures Opens(a + b, c)
  {
    forall open ensures Scan(At(open, Code), a + b) == At([c] + open, Code) {
      ScanConcat(At(open, Code), a, b);
      assert Scan(At([c] + open, Code), b) == At([c] + open, Code);
    }
  }

  /** What is opened and closed again. */
  lemma {:induction false} OpensAndCloses(a: Text, b: Text, c: CodeUnit)
    requires Opens(a, c) && Closes(b, c)
    ensures Keeps(a + b)
  {
    forall open ensures Scan(At(open, Code), a + b) == At(open, Code) {
      ScanConcat(At(open, Code), a, b);
    }
  }

  lemma {:induction false} KeepsConcatMap<T>(emit: T -> Text, xs: seq<T>)
    requires forall x :: x in xs ==> Keeps(emit(x))
    ensures Keeps(ConcatMap(emit, xs))
  {
    if xs != [] {
      KeepsConcatMap(emit, xs[1..]);
      KeepsConcat(emit(xs[0]), ConcatMap(emit, xs[1..]));
    }
  }

  /** A template piece that holds one opening bracket. */
  lemma {:induction false} PieceOpens(before: string, c: char, after: string)
    requires IsPlainPiece(before) && IsPlainPiece(after) && Unit(c) in {LPAREN, LBRACKET, LBRACE}
    ensures Opens(U(before + [c] + after), Unit(c))
  {
    var t := U(before + [c] + after);
    assert t == U(before) + ([Unit(c)] + U(after));
    PlainKeeps(U(before));
    PlainKeeps(U(after));
    forall open ensures Scan(At(open, Code), t) == At([Unit(c)] + open, Code) {
      ScanConcat(At(open, Code), U(before), [Unit(c)] + U(after));
      assert ([Unit(c)] + U(after))[1..] == U(after);
      assert Scan(At([Unit(c)] + open, Code), U(after)) == At([Unit(c)] + open, Code);
    }
  }

  /** A template piece that holds one closing bracket. */
  lemma {:induction false} PieceCloses(before: string, c: char, after: string)
    requires IsPlainPiece(before) && IsPlainPiece(after) && Opener(Unit(c)).Some?
    ensures Closes(U(before + [c] + after), Opener(Unit(c)).value)
  {
    var t, o := U(before + [c] + after), Opener(Unit(c)).value;
    assert t == U(before) + ([Unit(c)] + U(after));
    PlainKeeps(U(before));
    PlainKeeps(U(after));
    forall open ensures Scan(At([o] + open, Code), t) == At(open, Code) {
      ScanConcat(At([o] + open, Code), U(before), [Unit(c)] + U(after));
      assert ([Unit(c)] + U(after))[1..] == U(after);
      assert ([o] + open)[1..] == open;
      assert Scan(At([o] + open, Code), U(before)) == At([o] + open, Code);
      assert Scan(At(open, Code), U(after)) == At(open, Code);
    }
  }

  lemma {:induction false} CleanStaysLiteral(open: seq<CodeUnit>, s: Text)
    requires Clean(s)
    ensures Scan(At(open, Literal), s) == At(open, Literal)
  {
    if s != [] {
      CleanStaysLiteral(open, s[1..]);
    }
  }

  lemma {:induction false} QuotedKeeps(s: Text)
    requires Clean(s)
    ensures Keeps(Quoted(s))
  {
    forall open ensures Scan(At(open, Code), Quoted(s)) == At(open, Code) {
      Regroup3([APOSTROPHE], s, [APOSTROPHE]);
      assert ([APOSTROPHE] + (s + [APOSTROPHE]))[1..] == s + [APOSTROPHE];
      ScanConcat(At(open, Literal), s, [APOSTROPHE]);
      CleanStaysLiteral(open, s);
      assert Scan(At(open, Literal), [APOSTROPHE]) == Scan(At(open, Code), []);
    }
  }

  lemma {:induction false} LineKeeps(tag: Text, value: Text)
    requires Keeps(tag) && Keeps(value)
    ensures Keeps(Line(tag, value))
  {
    PlainKeeps(END);
    KeepsConcat(tag, value);
    KeepsConcat(tag + value, END);
  }

  lemma {:induction false} JoinedKeeps(docs: seq<Text>)
    requires AllClean(docs)
    ensures Keeps(Joined(docs))
  {
    if docs == [] {
      PlainKeeps([]);
    } else {
      QuotedKeeps(docs[0]);
      if |docs| > 1 {
        PlainKeeps(SEPARATOR);
        JoinedKeeps(docs[1..]);
        KeepsConcat(Quoted(docs[0]), SEPARATOR);
        KeepsConcat(Quoted(docs[0]) + SEPARATOR, Joined(docs[1..]));
      }
    }
  }

  lemma {:induction false} DocsKeep(docs: seq<Text>)
    requires AllClean(docs)
    ensures Keeps(DocsText(docs))
  {
    PieceOpens("", '[', "");
    PieceCloses("", ']', "");
    assert U("" + ['['] + "") == [LBRACKET] && U("" + [']'] + "") == [RBRACKET];
    JoinedKeeps(docs);
    OpensConcat([LBRACKET], Joined(docs), LBRACKET);
    OpensAndCloses([LBRACKET] + Joined(docs), [RBRACKET], LBRACKET);
  }

  lemma {:induction false} BoolKeeps(b: bool)
    ensures Keeps(BoolText(b))
  {
    PlainKeeps(BoolText(b));
  }

  lemma {:induction false} EntryBrackets()
    ensures Opens(ENTRY_OPEN, LBRACE) && Closes(ENTRY_CLOSE, LBRACE)
  {
    PieceOpens("        ", '{', "\n");
    assert "        " + ['{'] + "\n" == "        {\n";
    PieceCloses("        ", '}', ",\n");
    assert "        " + ['}'] + ",\n" == "        },\n";
  }

  lemma {:induction false} ListBrackets()
    ensures Opens(ACCOUNTS_OPEN, LBRACKET) && Opens(ARGS_OPEN, LBRACKET) && Closes(LIST_CLOSE, LBRACKET)
  {
    PieceOpens("      accounts: ", '[', "\n");
    assert "      accounts: " + ['['] + "\n" == "      accounts: [\n";
    PieceOpens("      args: ", '[', "\n");
    assert "      args: " + ['['] + "\n" == "      args: [\n";
    PieceCloses("      ", ']', ";\n");
    assert "      " + [']'] + ";\n" == "      ];\n";
  }

  lemma {:induction false} InstrBrackets()
    ensures Opens(INSTR_OPEN, LBRACE) && Closes(INSTR_CLOSE, LBRACE)
  {
    PieceOpens("    ", '{', "\n");
    assert "    " + ['{'] + "\n" == "    {\n";
    PieceCloses("    ", '}', ",\n");
    assert "    " + ['}'] + ",\n" == "    },\n";
  }

  lemma {:induction false} FileBrackets()
    ensures Opens(INTERFACE_BODY, LBRACE) && Closes(INTERFACE_CLOSE, LBRACE)
    ensures Opens(INSTRUCTIONS_OPEN, LBRACKET) && Closes(INSTRUCTIONS_CLOSE, LBRACKET)
  {
    PieceOpens(" ", '{', "\n");
    assert " " + ['{'] + "\n" == " {\n";
    PieceCloses("", '}', "\n");
    assert "" + ['}'] + "\n" == "}\n";
    PieceOpens("  instructions: ", '[', "\n");
    assert "  instructions: " + ['['] + "\n" == "  instructions: [\n";
    PieceCloses("  ", ']', ";\n");
    assert "  " + [']'] + ";\n" == "  ];\n";
  }

  lemma {:induction false} EntryTags()
    ensures Keeps(ENTRY_NAME_TAG) && Keeps(TYPE_TAG) && Keeps(ENTRY_DOCS_TAG)
    ensures Keeps(IS_MUT_TAG) && Keeps(IS_SIGNER_TAG) && Keeps(IS_OPTIONAL_TAG)
  {
    PlainKeeps(ENTRY_NAME_TAG);
    PlainKeeps(TYPE_TAG);
    PlainKeeps(ENTRY_DOCS_TAG);
    PlainKeeps(IS_MUT_TAG);
    PlainKeeps(IS_SIGNER_TAG);
    PlainKeeps(IS_OPTIONAL_TAG);
  }

  lemma {:induction false} OuterTags()
    ensures Keeps(INSTR_NAME_TAG) && Keeps(INSTR_DOCS_TAG)
    ensures Keeps(VERSION_TAG) && Keeps(NAME_TAG) && Keeps(INTERFACE_OPEN)
  {
    PlainKeeps(INSTR_NAME_TAG);
    PlainKeeps(INSTR_DOCS_TAG);
    PlainKeeps(VERSION_TAG);
    PlainKeeps(NAME_TAG);
    PlainKeeps(INTERFACE_OPEN);
  }

  // ---------- Records ----------

  lemma {:induction false} AccountKeeps(a: Account)
    requires CleanAccount(a)
    ensures Keeps(EmitAccount(a))
  {
    var name, isMut := Line(ENTRY_NAME_TAG, Quoted(a.name)), Line(IS_MUT_TAG, BoolText(a.isMut));
    var isSigner := Line(IS_SIGNER_TAG, BoolText(a.isSigner));
    EntryBrackets();
    EntryTags();
    PlainKeeps([]);
    QuotedKeeps(a.name);
    BoolKeeps(a.isMut);
    BoolKeeps(a.isSigner);
    BoolKeeps(true);
    LineKeeps(ENTRY_NAME_TAG, Quoted(a.name));
    LineKeeps(IS_MUT_TAG, BoolText(a.isMut));
    LineKeeps(IS_SIGNER_TAG, BoolText(a.isSigner));
    LineKeeps(IS_OPTIONAL_TAG, BoolText(true));
    if a.docs.Some? {
      DocsKeep(a.docs.value);
      LineKeeps(ENTRY_DOCS_TAG, DocsText(a.docs.value));
    }
    OpensConcat(ENTRY_OPEN, name, LBRACE);
    OpensConcat(ENTRY_OPEN + name, isMut, LBRACE);
    OpensConcat(ENTRY_OPEN + name + isMut, isSigner, LBRACE);
    OpensConcat(ENTRY_OPEN + name + isMut + isSigner, AccountDocs(a), LBRACE);
    OpensConcat(ENTRY_OPEN + name + isMut + isSigner + AccountDocs(a), AccountOptional(a), LBRACE);
    OpensAndCloses(ENTRY_OPEN + name + isMut + isSigner + AccountDocs(a) + AccountOptional(a), ENTRY_CLOSE, LBRACE);
  }

  lemma {:induction false} ArgKeeps(a: Arg)
    requires CleanArg(a)
    ensures Keeps(EmitArg(a))
  {
    var name, ty := Line(ENTRY_NAME_TAG, Quoted(a.name)), Line(TYPE_TAG, Quoted(Print(a.ty)));
    EntryBrackets();
    EntryTags();
    PrintedTypeClean(a.ty);
    QuotedKeeps(a.name);
    QuotedKeeps(Print(a.ty));
    LineKeeps(ENTRY_NAME_TAG, Quoted(a.name));
    LineKeeps(TYPE_TAG, Quoted(Print(a.ty)));
    OpensConcat(ENTRY_OPEN, name, LBRACE);
    OpensConcat(ENTRY_OPEN + name, ty, LBRACE);
    OpensAndCloses(ENTRY_OPEN + name + ty, ENTRY_CLOSE, LBRACE);
  }

  lemma {:induction false} ListKeeps(open: Text, body: Text, close: Text)
    requires Opens(open, LBRACKET) && Keeps(body) && Closes(close, LBRACKET)
    ensures Keeps(open + body + close)
  {
    OpensConcat(open, body, LBRACKET);
    OpensAndCloses(open + body, close, LBRACKET);
  }

  lemma {:induction false} InstrHeadOpens(i: Instr)
    requires CleanInstr(i)
    ensures Opens(InstrHead(i), LBRACE)
  {
    var name, docs := Line(INSTR_NAME_TAG, Quoted(i.name)), Line(INSTR_DOCS_TAG, DocsText(OrEmpty(i.docs)));
    InstrBrackets();
    OuterTags();
    QuotedKeeps(i.name);
    DocsKeep(OrEmpty(i.docs));
    LineKeeps(INSTR_NAME_TAG, Quoted(i.name));
    LineKeeps(INSTR_DOCS_TAG, DocsText(OrEmpty(i.docs)));
    OpensConcat(INSTR_OPEN, name, LBRACE);
    OpensConcat(INSTR_OPEN + name, docs, LBRACE);
  }

  lemma {:induction false} InstrListsKeep(i: Instr)
    requires CleanInstr(i)
    ensures Keeps(ACCOUNTS_OPEN + EmitAccounts(OrEmpty(i.accounts)) + LIST_CLOSE)
    ensures Keeps(ARGS_OPEN + EmitArgs(OrEmpty(i.args)) + LIST_CLOSE)
  {
    var accounts, args := OrEmpty(i.accounts), OrEmpty(i.args);
    forall a | a in accounts ensures Keeps(EmitAccount(a)) {
      AccountKeeps(a);
    }
    forall a | a in args ensures Keeps(EmitArg(a)) {
      ArgKeeps(a);
    }
    KeepsConcatMap(EmitAccount, accounts);
    KeepsConcatMap(EmitArg, args);
    ListBrackets();
    ListKeeps(ACCOUNTS_OPEN, EmitAccounts(accounts), LIST_CLOSE);
    ListKeeps(ARGS_OPEN, EmitArgs(args), LIST_CLOSE);
  }

  lemma RegroupLists(h: Text, a: Text, b: Text, c: Text, d: Text, e: Text, f: Text, g: Text)
    ensures h + a + b + c + d + e + f + g == h + (a + b + c) + (d + e + f) + g
  {
  }

  lemma {:induction false} InstrKeeps(i: Instr)
    requires CleanInstr(i)
    ensures Keeps(EmitInstr(i))
  {
    hide Keeps, Opens, Closes, InstrHead;
    var accounts := ACCOUNTS_OPEN + EmitAccounts(OrEmpty(i.accounts)) + LIST_CLOSE;
    var args := ARGS_OPEN + EmitArgs(OrEmpty(i.args)) + LIST_CLOSE;
    InstrHeadOpens(i);
    InstrListsKeep(i);
    InstrBrackets();
    OpensConcat(InstrHead(i), accounts, LBRACE);
    OpensConcat(InstrHead(i) + accounts, args, LBRACE);
    OpensAndCloses(InstrHead(i) + accounts + args, INSTR_CLOSE, LBRACE);
    RegroupLists(InstrHead(i), ACCOUNTS_OPEN, EmitAccounts(OrEmpty(i.accounts)), LIST_CLOSE,
                 ARGS_OPEN, EmitArgs(OrEmpty(i.args)), LIST_CLOSE, INSTR_CLOSE);
  }

  /** From the brace that opens the interface to the one that closes it. */
  lemma {:induction false} BodyKeeps(idl: Idl)
    requires idl.instructions.Some? && CleanIdl(idl)
    ensures Keeps(INTERFACE_BODY + Body(idl))
  {
    hide Keeps, Opens, Closes, Line;
    var instructions := idl.instructions.value;
    var version, name := Line(VERSION_TAG, Quoted(idl.version)), Line(NAME_TAG, Quoted(idl.name));
    forall i | i in instructions ensures Keeps(EmitInstr(i)) {
      InstrKeeps(i);
    }
    KeepsConcatMap(EmitInstr, instructions);
    FileBrackets();
    OuterTags();
    ListKeeps(INSTRUCTIONS_OPEN, EmitInstrs(instructions), INSTRUCTIONS_CLOSE);
    QuotedKeeps(idl.version);
    QuotedKeeps(idl.name);
    LineKeeps(VERSION_TAG, Quoted(idl.version));
    LineKeeps(NAME_TAG, Quoted(idl.name));
    OpensConcat(INTERFACE_BODY, version, LBRACE);
    OpensConcat(INTERFACE_BODY + version, name, LBRACE);
    OpensConcat(INTERFACE_BODY + version + name, InstrList(instructions), LBRACE);
    OpensAndCloses(INTERFACE_BODY + version + name + InstrList(instructions), INTERFACE_CLOSE, LBRACE);
    Regroup3(INTERFACE_BODY + version + name, InstrList(instructions), INTERFACE_CLOSE);
    Regroup4(INTERFACE_BODY, version, name, InstrList(instructions) + INTERFACE_CLOSE);
  }

  // ---------- Main results ----------

  lemma {:induction false} CleanStaysCode(s: State, t: Text)
    requires Clean(t) && (s.At? ==> s.place == Code)
    ensures Scan(s, t).At? ==> Scan(s, t).place == Code
    decreases |t|
  {
    if t != [] {
      CleanStaysCode(Advance(s, t[0]), t[1..]);
    }
  }

  /** Where no string holds a quote, a backslash or a line break, the brackets outside literals are balanced
      exactly when those of the name are. For the name is also written without quotes. */
  lemma {:induction false} BalancedIffName(idl: Idl)
    requires idl.instructions.Some? && CleanIdl(idl)
    ensures Balanced(Emit(idl)) <==> Balanced(idl.name)
  {
    var start, later := At([], Code), INTERFACE_BODY + Body(idl);
    EmitSplits(idl);
    Regroup3(INTERFACE_OPEN + idl.name, INTERFACE_BODY, Body(idl));
    Regroup3(INTERFACE_OPEN, idl.name, later);
    OuterTags();
    BodyKeeps(idl);
    ScanConcat(start, INTERFACE_OPEN, idl.name + later);
    ScanConcat(start, idl.name, later);
    CleanStaysCode(start, idl.name);
    StaysBroken(later);
  }

  /** A name that an interface can be declared with is balanced, and so is the output. */
  lemma {:induction false} IdentifierBalances(idl: Idl)
    requires idl.instructions.Some? && CleanIdl(idl) && IsIdentifier(idl.name)
    ensures Balanced(Emit(idl))
  {
    PlainKeeps(idl.name);
    BalancedIffName(idl);
  }

  /** Clean strings are not enough: the name `{` leaves a brace open. */
  lemma {:induction false} BraceNameUnbalances(version: Text, instructions: seq<Instr>)
    requires CleanIdl(Idl([LBRACE], version, Some(instructions)))
    ensures !Balanced(Emit(Idl([LBRACE], version, Some(instructions))))
  {
    BalancedIffName(Idl([LBRACE], version, Some(instructions)));
    assert Scan(At([], Code), [LBRACE]) == Scan(At([LBRACE], Code), []);
  }
}
