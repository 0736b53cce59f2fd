/** The TypeScript module that convert.ts writes, read as TypeScript. */
module GeneratedModule {
  import opened JsText
  import opened Json
  import opened Stringify
  import opened Parse
  import opened RoundTrip
  import opened Convert
  import TsType
  import TsRecord

  /** `export interface name shape; export const constant: type = value;` */
  datatype Module = Module(name: Text, shape: Json, constant: Text, constantType: Text, value: Json)

  const EQUALS: CodeUnit := 0x3D

  function ReadKeyword(word: Text, t: Text): Parsed<()> {
    var (w, rest) :- TsRecord.ReadWord(t);
    if w == word then Ok((), rest) else Fail
  }

  function ReadInterface(t: Text): Parsed<(Text, Json)> {
    var (_, t) :- ReadKeyword(U("export"), t);
    var (_, t) :- ReadKeyword(U("interface"), t);
    var (name, t) :- TsRecord.ReadWord(t);
    var (shape, t) :- ParseValue(t);
    var (_, t) :- TsRecord.ReadUnit(TsRecord.SEMICOLON, t);
    Ok((name, shape), t)
  }

  function ReadConstant(t: Text): Parsed<(Text, Text, Json)> {
    var (_, t) :- ReadKeyword(U("export"), t);
    var (_, t) :- ReadKeyword(U("const"), t);
    var (constant, t) :- TsRecord.ReadWord(t);
    var (_, t) :- TsRecord.ReadUnit(COLON, t);
    var (constantType, t) :- TsRecord.ReadWord(t);
    var (_, t) :- TsRecord.ReadUnit(EQUALS, t);
    var (value, t) :- ParseValue(t);
    var (_, t) :- TsRecord.ReadUnit(TsRecord.SEMICOLON, t);
    Ok((constant, constantType, value), t)
  }

  function ReadModule(t: Text): Option<Module> {
    match ReadInterface(t)
    case Fail => None
    case Ok((name, shape), t) =>
      match ReadConstant(t)
      case Fail => None
      case Ok((constant, constantType, value), t) =>
        if SkipSpace(t) == [] then Some(Module(name, shape, constant, constantType, value)) else None
  }

  const EXPORT := U("export")
  const INTERFACE := U("interface")
  const CONST := U("const")
  const OPENBOOK := U("OpenbookV2")
  const IDL := U("Idl")

  lemma WordsAreIdentifiers()
    ensures TsType.IsIdentifier(EXPORT) && TsType.IsIdentifier(INTERFACE) && TsType.IsIdentifier(CONST)
    ensures TsType.IsIdentifier(OPENBOOK) && TsType.IsIdentifier(IDL)
  {
  }

  lemma InterfaceWords()
    ensures INTERFACE_HEADER == [LF, SPACE, SPACE] + EXPORT + [SPACE] + INTERFACE + [SPACE] + OPENBOOK + [SPACE]
  {
  }

  lemma ConstantWords()
    ensures CONST_HEADER == U(";\n  export const Idl") + U(": OpenbookV2 = ")
    ensures U(";\n  export const Idl")
         == [TsRecord.SEMICOLON] + [LF, SPACE, SPACE] + EXPORT + [SPACE] + CONST + [SPACE] + IDL
    ensures U(": OpenbookV2 = ") == [COLON] + [SPACE] + OPENBOOK + [SPACE] + [EQUALS] + [SPACE]
    ensures FOOTER == [TsRecord.SEMICOLON] + [LF, SPACE, SPACE]
  {
  }

  lemma {:induction false} KeywordFound(w: Text, word: Text, k: Text)
    requires AllSpace(w) && TsType.IsIdentifier(word) && TsType.EndsName(k)
    ensures ReadKeyword(word, w + (word + k)) == Ok((), k) && TsRecord.ReadWord(w + (word + k)) == Ok(word, k)
  {
    TsRecord.WordFound(w, word, k);
  }

  /** A value between spaces, with a semicolon behind it. */
  lemma {:induction false} ValueFound(v: Json, k: Text)
    ensures ParseValue([SPACE] + (Pretty(v) + ([TsRecord.SEMICOLON] + k))) == Ok(v, [TsRecord.SEMICOLON] + k)
    ensures TsRecord.ReadUnit(TsRecord.SEMICOLON, [TsRecord.SEMICOLON] + k) == Ok((), k)
  {
    ParseSerialized(v, [SPACE, SPACE], [], [TsRecord.SEMICOLON] + k);
    ParseAfterSpace([SPACE], Pretty(v) + ([TsRecord.SEMICOLON] + k));
    TsRecord.UnitFound(TsRecord.SEMICOLON, [], k);
    assert [] + ([TsRecord.SEMICOLON] + k) == [TsRecord.SEMICOLON] + k;
  }

  lemma {:induction false} InterfaceFound(v: Json, k: Text)
    ensures ReadInterface(INTERFACE_HEADER + (Pretty(v) + ([TsRecord.SEMICOLON] + k))) == Ok((OPENBOOK, v), k)
  {
    hide Serialize, ParseValue, TsType.IsIdentifier, U;
    var k3 := [SPACE] + (Pretty(v) + ([TsRecord.SEMICOLON] + k));
    var k2 := [SPACE] + (OPENBOOK + k3);
    var k1 := [SPACE] + (INTERFACE + k2);
    InterfaceWords();
    assert INTERFACE_HEADER + (Pretty(v) + ([TsRecord.SEMICOLON] + k)) == [LF, SPACE, SPACE] + (EXPORT + k1);
    WordsAreIdentifiers();
    KeywordFound([LF, SPACE, SPACE], EXPORT, k1);
    KeywordFound([SPACE], INTERFACE, k2);
    KeywordFound([SPACE], OPENBOOK, k3);
    ValueFound(v, k);
  }

  /** The words, the colon and the equals sign in front of the value, and the semicolon behind it. */
  lemma ConstantText(value: Text)
    ensures CONST_HEADER + (value + FOOTER)
      == [TsRecord.SEMICOLON] + ([LF, SPACE, SPACE] + (EXPORT + ([SPACE] + (CONST + ([SPACE] + (IDL
         + ([COLON] + ([SPACE] + (OPENBOOK + ([SPACE] + ([EQUALS] + ([SPACE] + (value
         + ([TsRecord.SEMICOLON] + [LF, SPACE, SPACE]))))))))))))))
  {
    hide U;
    ConstantWords();
  }

  lemma {:induction false} ConstantFound(v: Json)
    ensures CONST_HEADER + (Pretty(v) + FOOTER) == [TsRecord.SEMICOLON] + (CONST_HEADER + (Pretty(v) + FOOTER))[1..]
    ensures ReadConstant((CONST_HEADER + (Pretty(v) + FOOTER))[1..]) == Ok((IDL, OPENBOOK, v), [LF, SPACE, SPACE])
  {
    hide Serialize, ParseValue, TsType.IsIdentifier, U;
    var end := [LF, SPACE, SPACE];
    var k5 := [SPACE] + (Pretty(v) + ([TsRecord.SEMICOLON] + end));
    var k4 := [SPACE] + ([EQUALS] + k5);
    var k3 := [COLON] + ([SPACE] + (OPENBOOK + k4));
    var k2 := [SPACE] + (IDL + k3);
    var k1 := [SPACE] + (CONST + k2);
    ConstantText(Pretty(v));
    assert ([TsRecord.SEMICOLON] + (end + (EXPORT + k1)))[1..] == end + (EXPORT + k1);
    WordsAreIdentifiers();
    KeywordFound(end, EXPORT, k1);
    KeywordFound([SPACE], CONST, k2);
    KeywordFound([SPACE], IDL, k3);
    TsRecord.UnitFound(COLON, [], [SPACE] + (OPENBOOK + k4));
    assert [] + k3 == k3;
    KeywordFound([SPACE], OPENBOOK, k4);
    TsRecord.UnitFound(EQUALS, [SPACE], k5);
    ValueFound(v, end);
  }

  /** The generated module declares the interface `OpenbookV2` and the constant `Idl` of that type, and the tree
      is both what the interface is declared as and the value of the constant. */
  lemma {:induction false} ModuleDeclaresTree(v: Json)
    ensures ReadModule(FileContent(v)) == Some(Module(U("OpenbookV2"), v, U("Idl"), U("OpenbookV2"), v))
  {
    hide Serialize, ReadInterface, ReadConstant;
    var later := (CONST_HEADER + (Pretty(v) + FOOTER))[1..];
    ConstantFound(v);
    InterfaceFound(v, later);
    Regroup4(INTERFACE_HEADER + Pretty(v), CONST_HEADER, Pretty(v), FOOTER);
    Regroup3(INTERFACE_HEADER, Pretty(v), CONST_HEADER + (Pretty(v) + FOOTER));
    assert SkipSpace([LF, SPACE, SPACE]) == SkipSpace([SPACE, SPACE]) == SkipSpace([SPACE]) == [];
  }
}
