/** How many lines the emitter of convert_int.ts writes. */
module TsLines {
  import opened JsText
  import opened TsType
  import opened TsEmit

  function Newlines(t: Text): nat {
    if t == [] then 0 else (if t[0] == LF then 1 else 0) + Newlines(t[1..])
  }

  lemma {:induction false} NewlinesConcat(a: Text, b: Text)
    ensures Newlines(a + b) == Newlines(a) + Newlines(b)
  {
    if a == [] {
      assert a + b == b;
    } else {
      assert (a + b)[1..] == a[1..] + b;
      NewlinesConcat(a[1..], b);
    }
  }

  lemma {:induction false} NoNewlines(t: Text)
    requires LF !in t
    ensures Newlines(t) == 0
  {
    if t != [] {
      NoNewlines(t[1..]);
    }
  }

  /** A template piece without a line break. */
  lemma {:induction false} NoBreak(piece: string)
    requires '\n' !in piece
    ensures Newlines(U(piece)) == 0
  {
    forall i | 0 <= i < |piece| ensures U(piece)[i] != LF {
      assert piece[i] in piece;
    }
    NoNewlines(U(piece));
  }

  /** A template piece that ends its line. */
  lemma {:induction false} OneBreak(piece: string)
    requires '\n' !in piece
    ensures Newlines(U(piece + "\n")) == 1
  {
    NoBreak(piece);
    NewlinesConcat(U(piece), [LF]);
    assert U(piece + "\n") == U(piece) + [LF];
    assert [LF][1..] == [];
  }

  // ---------- Sums ----------

  function Sum<T>(f: T -> nat, xs: seq<T>): nat {
    if xs == [] then 0 else f(xs[0]) + Sum(f, xs[1..])
  }

  lemma {:induction false} NewlinesConcatMap<T>(emit: T -> Text, count: T -> nat, xs: seq<T>)
    requires forall x :: x in xs ==> Newlines(emit(x)) == count(x)
    ensures Newlines(ConcatMap(emit, xs)) == Sum(count, xs)
  {
    if xs != [] {
      NewlinesConcat(emit(xs[0]), ConcatMap(emit, xs[1..]));
      NewlinesConcatMap(emit, count, xs[1..]);
    }
  }

  // ---------- Lines of the output ----------

  function DocsNewlines(docs: seq<Text>): nat {
    Sum(Newlines, docs)
  }

  /** Five lines, one more for docs and one more for a true `isOptional`; and the line breaks in strings. */
  function AccountLines(a: Account): nat {
    5 + Newlines(a.name)
    + (if a.docs.Some? then 1 + DocsNewlines(a.docs.value) else 0)
    + (if a.isOptional == Some(true) then 1 else 0)
  }

  function ArgLines(a: Arg): nat {
    4 + Newlines(a.name) + Newlines(Print(a.ty))
  }

  function InstrLines(i: Instr): nat {
    8 + Newlines(i.name) + DocsNewlines(OrEmpty(i.docs))
    + Sum(AccountLines, OrEmpty(i.accounts)) + Sum(ArgLines, OrEmpty(i.args))
  }

  /** The name is written twice. */
  function FileLines(idl: Idl, instructions: seq<Instr>): nat {
    6 + 2 * Newlines(idl.name) + Newlines(idl.version) + Sum(InstrLines, instructions)
  }

  lemma {:induction false} QuotedNewlines(s: Text)
    ensures Newlines(Quoted(s)) == Newlines(s)
  {
    NewlinesConcat([APOSTROPHE] + s, [APOSTROPHE]);
    NewlinesConcat([APOSTROPHE], s);
    NoNewlines([APOSTROPHE]);
  }

  lemma {:induction false} JoinedNewlines(docs: seq<Text>)
    ensures Newlines(Joined(docs)) == DocsNewlines(docs)
  {
    if docs != [] {
      QuotedNewlines(docs[0]);
      JoinedNewlines(docs[1..]);
      if |docs| > 1 {
        NewlinesConcat(Quoted(docs[0]) + SEPARATOR, Joined(docs[1..]));
        NewlinesConcat(Quoted(docs[0]), SEPARATOR);
        NoNewlines(SEPARATOR);
      }
    }
  }

  lemma {:induction false} DocsTextNewlines(docs: seq<Text>)
    ensures Newlines(DocsText(docs)) == DocsNewlines(docs)
  {
    NewlinesConcat([LBRACKET] + Joined(docs), [RBRACKET]);
    NewlinesConcat([LBRACKET], Joined(docs));
    JoinedNewlines(docs);
    NoNewlines([LBRACKET]);
    NoNewlines([RBRACKET]);
  }

  lemma {:induction false} BoolNewlines(b: bool)
    ensures Newlines(BoolText(b)) == 0
  {
  }

  /** A line ends once; its other line breaks are in its value. */
  lemma {:induction false} LineNewlines(tag: Text, value: Text)
    requires Newlines(tag) == 0
    ensures Newlines(Line(tag, value)) == Newlines(value) + 1
  {
    NewlinesConcat(tag + value, END);
    NewlinesConcat(tag, value);
    OneBreak(";");
    assert ";" + "\n" == ";\n";
  }

  lemma {:induction false} NameAndTypeTags()
    ensures Newlines(ENTRY_NAME_TAG) == 0 && Newlines(TYPE_TAG) == 0
  {
    NoBreak("          name: ");
    NoBreak("          type: ");
  }

  lemma {:induction false} DocsTag()
    ensures Newlines(ENTRY_DOCS_TAG) == 0
  {
    NoBreak("          docs: ");
  }

  lemma {:induction false} IsMutTag()
    ensures Newlines(IS_MUT_TAG) == 0
  {
    NoBreak("          isMut: ");
  }

  lemma {:induction false} IsSignerTag()
    ensures Newlines(IS_SIGNER_TAG) == 0
  {
    NoBreak("          isSigner: ");
  }

  lemma {:induction false} IsOptionalTag()
    ensures Newlines(IS_OPTIONAL_TAG) == 0
  {
    NoBreak("          isOptional: ");
  }

  lemma {:induction false} EntryBrackets()
    ensures Newlines(ENTRY_OPEN) == 1 && Newlines(ENTRY_CLOSE) == 1
  {
    OneBreak("        {");
    assert "        {" + "\n" == "        {\n";
    OneBreak("        },");
    assert "        }," + "\n" == "        },\n";
  }

  lemma {:induction false} InstrTags()
    ensures Newlines(INSTR_NAME_TAG) == 0 && Newlines(INSTR_DOCS_TAG) == 0
  {
    NoBreak("      name: ");
    NoBreak("      docs: ");
  }

  lemma {:induction false} InstrBrackets()
    ensures Newlines(INSTR_OPEN) == 1 && Newlines(INSTR_CLOSE) == 1
  {
    OneBreak("    {");
    assert "    {" + "\n" == "    {\n";
    OneBreak("    },");
    assert "    }," + "\n" == "    },\n";
  }

  lemma {:induction false} AccountsOpening()
    ensures Newlines(ACCOUNTS_OPEN) == 1
  {
    OneBreak("      accounts: [");
    assert "      accounts: [" + "\n" == "      accounts: [\n";
  }

  lemma {:induction false} ArgsOpening()
    ensures Newlines(ARGS_OPEN) == 1
  {
    OneBreak("      args: [");
    assert "      args: [" + "\n" == "      args: [\n";
  }

  lemma {:induction false} ListClosing()
    ensures Newlines(LIST_CLOSE) == 1
  {
    OneBreak("      ];");
    assert "      ];" + "\n" == "      ];\n";
  }

  lemma {:induction false} FileTags()
    ensures Newlines(VERSION_TAG) == 0 && Newlines(NAME_TAG) == 0
  {
    NoBreak("  version: ");
    NoBreak("  name: ");
  }

  lemma {:induction false} InterfaceOpening()
    ensures Newlines(INTERFACE_OPEN) == 0
  {
    NoBreak("export interface ");
  }

  lemma {:induction false} FileBrackets()
    ensures Newlines(INTERFACE_BODY) == 1 && Newlines(INSTRUCTIONS_OPEN) == 1
  {
    OneBreak(" {");
    assert " {" + "\n" == " {\n";
    OneBreak("  instructions: [");
    assert "  instructions: [" + "\n" == "  instructions: [\n";
  }

  lemma {:induction false} FileClosing()
    ensures Newlines(INSTRUCTIONS_CLOSE) == 1 && Newlines(INTERFACE_CLOSE) == 1
  {
  }

  lemma {:induction false} NewlinesConcat7(a: Text, b: Text, c: Text, d: Text, e: Text, f: Text, g: Text)
    ensures Newlines(a + b + c + d + e + f + g)
      == Newlines(a) + Newlines(b) + Newlines(c) + Newlines(d) + Newlines(e) + Newlines(f) + Newlines(g)
  {
    NewlinesConcat(a, b);
    NewlinesConcat(a + b, c);
    NewlinesConcat(a + b + c, d);
    NewlinesConcat(a + b + c + d, e);
    NewlinesConcat(a + b + c + d + e, f);
    NewlinesConcat(a + b + c + d + e + f, g);
  }

  lemma {:induction false} FlagLines(a: Account)
    ensures Newlines(Line(IS_MUT_TAG, BoolText(a.isMut))) == 1
    ensures Newlines(Line(IS_SIGNER_TAG, BoolText(a.isSigner))) == 1
    ensures Newlines(AccountOptional(a)) == if a.isOptional == Some(true) then 1 else 0
  {
    IsMutTag();
    IsSignerTag();
    IsOptionalTag();
    BoolNewlines(a.isMut);
    BoolNewlines(a.isSigner);
    BoolNewlines(true);
    LineNewlines(IS_MUT_TAG, BoolText(a.isMut));
    LineNewlines(IS_SIGNER_TAG, BoolText(a.isSigner));
    LineNewlines(IS_OPTIONAL_TAG, BoolText(true));
  }

  lemma {:induction false} AccountNewlines(a: Account)
    ensures Newlines(EmitAccount(a)) == AccountLines(a)
  {
    NameAndTypeTags();
    EntryBrackets();
    QuotedNewlines(a.name);
    LineNewlines(ENTRY_NAME_TAG, Quoted(a.name));
    FlagLines(a);
    if a.docs.Some? {
      DocsTag();
      DocsTextNewlines(a.docs.value);
      LineNewlines(ENTRY_DOCS_TAG, DocsText(a.docs.value));
    }
    NewlinesConcat7(ENTRY_OPEN, Line(ENTRY_NAME_TAG, Quoted(a.name)), Line(IS_MUT_TAG, BoolText(a.isMut)),
                    Line(IS_SIGNER_TAG, BoolText(a.isSigner)), AccountDocs(a), AccountOptional(a), ENTRY_CLOSE);
  }

  lemma {:induction false} ArgNewlines(a: Arg)
    ensures Newlines(EmitArg(a)) == ArgLines(a)
  {
    var p0, p1, p2, p3 :=
      ENTRY_OPEN, Line(ENTRY_NAME_TAG, Quoted(a.name)), Line(TYPE_TAG, Quoted(Print(a.ty))), ENTRY_CLOSE;
    NameAndTypeTags();
    EntryBrackets();
    QuotedNewlines(a.name);
    QuotedNewlines(Print(a.ty));
    LineNewlines(ENTRY_NAME_TAG, Quoted(a.name));
    LineNewlines(TYPE_TAG, Quoted(Print(a.ty)));
    NewlinesConcat(p0, p1);
    NewlinesConcat(p0 + p1, p2);
    NewlinesConcat(p0 + p1 + p2, p3);
  }

  lemma {:induction false} InstrHeadNewlines(i: Instr)
    ensures Newlines(InstrHead(i)) == 3 + Newlines(i.name) + DocsNewlines(OrEmpty(i.docs))
  {
    var p0, p1, p2 :=
      INSTR_OPEN, Line(INSTR_NAME_TAG, Quoted(i.name)), Line(INSTR_DOCS_TAG, DocsText(OrEmpty(i.docs)));
    InstrTags();
    InstrBrackets();
    QuotedNewlines(i.name);
    DocsTextNewlines(OrEmpty(i.docs));
    LineNewlines(INSTR_NAME_TAG, Quoted(i.name));
    LineNewlines(INSTR_DOCS_TAG, DocsText(OrEmpty(i.docs)));
    NewlinesConcat(p0, p1);
    NewlinesConcat(p0 + p1, p2);
  }

  lemma {:induction false} InstrNewlines(i: Instr)
    ensures Newlines(EmitInstr(i)) == InstrLines(i)
  {
    var accounts, args := OrEmpty(i.accounts), OrEmpty(i.args);
    var p0, p1, p2, p3 := InstrHead(i), ACCOUNTS_OPEN, EmitAccounts(accounts), LIST_CLOSE;
    var p4, p5, p6 := ARGS_OPEN, EmitArgs(args), INSTR_CLOSE;
    InstrBrackets();
    AccountsOpening();
    ArgsOpening();
    ListClosing();
    InstrHeadNewlines(i);
    forall a | a in accounts ensures Newlines(EmitAccount(a)) == AccountLines(a) {
      AccountNewlines(a);
    }
    forall a | a in args ensures Newlines(EmitArg(a)) == ArgLines(a) {
      ArgNewlines(a);
    }
    NewlinesConcatMap(EmitAccount, AccountLines, accounts);
    NewlinesConcatMap(EmitArg, ArgLines, args);
    NewlinesConcat7(p0, p1, p2, p3, p4, p5, p3);
    NewlinesConcat(p0 + p1 + p2 + p3 + p4 + p5 + p3, p6);
  }

  lemma {:induction false} HeaderNewlines(idl: Idl)
    ensures Newlines(Header(idl)) == 4 + 2 * Newlines(idl.name) + Newlines(idl.version)
  {
    var p0, p1, p2 := INTERFACE_OPEN, idl.name, INTERFACE_BODY;
    var p3, p4, p5 := Line(VERSION_TAG, Quoted(idl.version)), Line(NAME_TAG, Quoted(idl.name)), INSTRUCTIONS_OPEN;
    FileTags();
    InterfaceOpening();
    FileBrackets();
    QuotedNewlines(idl.version);
    QuotedNewlines(idl.name);
    LineNewlines(VERSION_TAG, Quoted(idl.version));
    LineNewlines(NAME_TAG, Quoted(idl.name));
    NewlinesConcat(p0, p1);
    NewlinesConcat(p0 + p1, p2);
    NewlinesConcat(p0 + p1 + p2, p3);
    NewlinesConcat(p0 + p1 + p2 + p3, p4);
    NewlinesConcat(p0 + p1 + p2 + p3 + p4, p5);
  }

  /** The exact number of lines, for every IDL with instructions. Where no string holds a line break it
      is 6, and 8 for each instruction, 5 to 7 for each account and 4 for each argument. */
  lemma {:induction false} EmittedLines(idl: Idl)
    requires idl.instructions.Some?
    ensures Newlines(Emit(idl)) == FileLines(idl, idl.instructions.value)
  {
    var instructions := idl.instructions.value;
    var body := EmitInstrs(instructions);
    FileClosing();
    HeaderNewlines(idl);
    forall i | i in instructions ensures Newlines(EmitInstr(i)) == InstrLines(i) {
      InstrNewlines(i);
    }
    NewlinesConcatMap(EmitInstr, InstrLines, instructions);
    NewlinesConcat(Header(idl), body);
    NewlinesConcat(Header(idl) + body, INSTRUCTIONS_CLOSE);
    NewlinesConcat(Header(idl) + body + INSTRUCTIONS_CLOSE, INTERFACE_CLOSE);
  }
}
