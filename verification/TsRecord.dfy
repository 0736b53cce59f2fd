/** Record types of TypeScript: a reader that knows their grammar and nothing of the emitter, a printer with the
    layout of the emitted interface, and when the one undoes the other. */
module TsRecord {
  import opened JsText
  import opened Parse
  import opened RoundTrip
  import opened TsType
  import opened TsLiteral

  const SEMICOLON: CodeUnit := 0x3B

  // ---------- What is read ----------

  datatype TsValue =
    | Word(word: Text)
    | Literal(text: Text)
    | Tuple(elements: seq<TsValue>)
    | Record(properties: seq<Property>)

  datatype Property = Property(name: Text, value: TsValue)

  datatype Interface = Interface(name: Text, properties: seq<Property>)

  function ReadWord(t: Text): (r: Parsed<Text>)
    ensures r.Ok? ==> |r.rest| < |t| && IsIdentifier(r.value)
  {
    var u := SkipSpace(t);
    var n := IdentRun(u);
    if IsIdentifier(u[..n]) then Ok(u[..n], u[n..]) else Fail
  }

  /** One unit, behind whitespace. */
  function ReadUnit(c: CodeUnit, t: Text): (r: Parsed<()>)
    ensures r.Ok? ==> |r.rest| < |t|
  {
    var u := SkipSpace(t);
    if u != [] && u[0] == c then Ok((), u[1..]) else Fail
  }

  /** A word, a single-quoted literal, a tuple or a record. */
  function ReadValue(t: Text): (r: Parsed<TsValue>)
    ensures r.Ok? ==> |r.rest| < |t|
    decreases |t|, 0
  {
    var u := SkipSpace(t);
    if u == [] then Fail
    else if u[0] == APOSTROPHE then
      var (text, rest) :- ReadLiteral(u);
      Ok(Literal(text), rest)
    else if u[0] == LBRACKET then
      var (elements, rest) :- ReadElements(u[1..]);
      Ok(Tuple(elements), rest)
    else if u[0] == LBRACE then
      var (properties, rest) :- ReadProperties(u[1..]);
      Ok(Record(properties), rest)
    else
      var (word, rest) :- ReadWord(u);
      Ok(Word(word), rest)
  }

  /** Values separated by commas, up to the closing bracket; the last one may have a comma, too. */
  function ReadElements(t: Text): (r: Parsed<seq<TsValue>>)
    ensures r.Ok? ==> |r.rest| < |t|
    decreases |t|, 1
  {
    if ReadUnit(RBRACKET, t).Ok? then Ok([], ReadUnit(RBRACKET, t).rest)
    else
      var (value, rest) :- ReadValue(t);
      if ReadUnit(COMMA, rest).Ok? then
        var (more, rest) :- ReadElements(ReadUnit(COMMA, rest).rest);
        Ok([value] + more, rest)
      else
        var (_, rest) :- ReadUnit(RBRACKET, rest);
        Ok([value], rest)
  }

  /** Properties that each end with a semicolon, up to the closing brace. */
  function ReadProperties(t: Text): (r: Parsed<seq<Property>>)
    ensures r.Ok? ==> |r.rest| < |t|
    decreases |t|, 1
  {
    if ReadUnit(RBRACE, t).Ok? then Ok([], ReadUnit(RBRACE, t).rest)
    else
      var (name, rest) :- ReadWord(t);
      var (_, rest) :- ReadUnit(COLON, rest);
      var (value, rest) :- ReadValue(rest);
      var (_, rest) :- ReadUnit(SEMICOLON, rest);
      var (more, rest) :- ReadProperties(rest);
      Ok([Property(name, value)] + more, rest)
  }

  /** `export interface`, a name that an interface can have, and its properties. */
  function ReadInterface(t: Text): (r: Option<Interface>)
    ensures r.Some? ==> IsInterfaceName(r.value.name)
  {
    match ReadHead(t)
    case Fail => None
    case Ok(name, rest) =>
      match ReadProperties(rest)
      case Fail => None
      case Ok(properties, rest) => if SkipSpace(rest) == [] then Some(Interface(name, properties)) else None
  }

  function ReadHead(t: Text): (r: Parsed<Text>)
    ensures r.Ok? ==> IsInterfaceName(r.value)
  {
    var (first, t) :- ReadWord(t);
    var (second, t) :- ReadWord(t);
    var (name, t) :- ReadWord(t);
    var (_, t) :- ReadUnit(LBRACE, t);
    if first == U("export") && second == U("interface") && IsInterfaceName(name) then Ok(name, t) else Fail
  }

  // ---------- What is printed ----------

  /** A property: a word, a string, a list of strings on one line, or a list of records on lines of their own. */
  datatype Field = Field(name: Text, content: Content)

  datatype Content =
    | Flag(word: Text)
    | String(text: Text)
    | Strings(texts: seq<Text>)
    | Records(records: seq<Entry>)

  datatype Entry = Entry(fields: seq<Field>)

  function Spaces(depth: nat): Text {
    seq(2 * depth, i => SPACE)
  }

  function PrintString(text: Text): Text {
    U("'") + text + U("'")
  }

  function PrintStrings(texts: seq<Text>): Text {
    if texts == [] then []
    else if |texts| == 1 then PrintString(texts[0])
    else PrintString(texts[0]) + U(", ") + PrintStrings(texts[1..])
  }

  function PrintContent(c: Content, depth: nat): Text
    decreases c, 1
  {
    match c
    case Flag(word) => word
    case String(text) => PrintString(text)
    case Strings(texts) => U("[") + PrintStrings(texts) + U("]")
    case Records(records) => U("[\n") + PrintRecords(records, depth + 1) + (Spaces(depth) + U("]"))
  }

  function PrintField(f: Field, depth: nat): Text
    decreases f, 0
  {
    Spaces(depth) + f.name + U(": ") + PrintContent(f.content, depth) + U(";\n")
  }

  function PrintFields(fs: seq<Field>, depth: nat): Text
    decreases fs, 0
  {
    if fs == [] then [] else PrintField(fs[0], depth) + PrintFields(fs[1..], depth)
  }

  function PrintRecords(records: seq<Entry>, depth: nat): Text
    decreases records, 0
  {
    if records == [] then []
    else PrintRecord(records[0].fields, depth) + PrintRecords(records[1..], depth)
  }

  function PrintRecord(fs: seq<Field>, depth: nat): Text
    decreases fs, 1
  {
    Spaces(depth) + U("{\n") + PrintFields(fs, depth + 1) + Spaces(depth) + U("},\n")
  }

  function PrintInterface(name: Text, fs: seq<Field>): Text {
    U("export interface ") + name + U(" {\n") + PrintFields(fs, 1) + U("}\n")
  }

  // ---------- What the printed text means ----------

  function Meaning(c: Content): TsValue
    decreases c, 1
  {
    match c
    case Flag(word) => Word(word)
    case String(text) => Literal(text)
    case Strings(texts) => Tuple(Literals(texts))
    case Records(records) => Tuple(RecordValues(records))
  }

  function Literals(texts: seq<Text>): seq<TsValue> {
    if texts == [] then [] else [Literal(texts[0])] + Literals(texts[1..])
  }

  function Properties(fs: seq<Field>): seq<Property>
    decreases fs, 0
  {
    if fs == [] then [] else [Property(fs[0].name, Meaning(fs[0].content))] + Properties(fs[1..])
  }

  function RecordValues(records: seq<Entry>): seq<TsValue>
    decreases records, 0
  {
    if records == [] then [] else [Record(Properties(records[0].fields))] + RecordValues(records[1..])
  }

  // ---------- Conditions ----------

  /** Every string can be quoted as it is. */
  predicate CleanContent(c: Content)
    decreases c, 1
  {
    match c
    case Flag(_) => true
    case String(text) => Clean(text)
    case Strings(texts) => AllClean(texts)
    case Records(records) => CleanRecords(records)
  }

  predicate CleanFields(fs: seq<Field>)
    decreases fs, 0
  {
    fs == [] || (CleanContent(fs[0].content) && CleanFields(fs[1..]))
  }

  predicate CleanRecords(records: seq<Entry>)
    decreases records, 0
  {
    records == [] || (CleanFields(records[0].fields) && CleanRecords(records[1..]))
  }

  /** Every name and every flag is an identifier. */
  predicate ProperContent(c: Content)
    decreases c, 1
  {
    match c
    case Flag(word) => IsIdentifier(word)
    case Records(records) => ProperRecords(records)
    case _ => true
  }

  predicate ProperFields(fs: seq<Field>)
    decreases fs, 0
  {
    fs == [] || (IsIdentifier(fs[0].name) && ProperContent(fs[0].content) && ProperFields(fs[1..]))
  }

  predicate ProperRecords(records: seq<Entry>)
    decreases records, 0
  {
    records == [] || (ProperFields(records[0].fields) && ProperRecords(records[1..]))
  }

  // ---------- Reading behind whitespace ----------

  lemma {:induction false} ReadAfterSpace(w: Text, t: Text)
    requires AllSpace(w)
    ensures ReadValue(w + t) == ReadValue(t) && ReadWord(w + t) == ReadWord(t)
    ensures ReadElements(w + t) == ReadElements(t) && ReadProperties(w + t) == ReadProperties(t)
    ensures forall c :: ReadUnit(c, w + t) == ReadUnit(c, t)
  {
    SkipSpaces(w, t);
  }

  lemma {:induction false} UnitFound(c: CodeUnit, w: Text, k: Text)
    requires AllSpace(w) && !IsSpace(c)
    ensures ReadUnit(c, w + ([c] + k)) == Ok((), k)
    ensures forall d :: d != c ==> ReadUnit(d, w + ([c] + k)).Fail?
  {
    SkipSpaces(w, [c] + k);
    assert SkipSpace([c] + k) == [c] + k;
  }

  lemma {:induction false} WordFound(w: Text, word: Text, k: Text)
    requires AllSpace(w) && IsIdentifier(word) && EndsName(k)
    ensures ReadWord(w + (word + k)) == Ok(word, k)
    ensures forall c :: !IsIdentUnit(c) ==> ReadUnit(c, w + (word + k)).Fail?
  {
    var t := word + k;
    SkipSpaces(w, t);
    assert t[0] == word[0];
    assert SkipSpace(t) == t;
    RunOfName(word, k);
    assert t[..|word|] == word && t[|word|..] == k;
  }

  lemma {:induction false} ValueOfWord(word: Text, k: Text)
    requires IsIdentifier(word) && EndsName(k)
    ensures ReadValue(word + k) == Ok(Word(word), k)
  {
    var t := word + k;
    assert [] + t == t;
    assert t[0] == word[0];
    WordFound([], word, k);
    assert SkipSpace(t) == t;
  }

  lemma {:induction false} ValueOfString(text: Text, k: Text)
    ensures Recovers(ReadValue(PrintString(text) + k), Literal(text), k, Clean(text))
  {
    var t := PrintString(text) + k;
    assert U("'") == [APOSTROPHE];
    QuotedReadsBack(text, k);
    assert t[0] == APOSTROPHE;
    assert SkipSpace(t) == t;
  }

  // ---------- Reading lists ----------

  lemma ConsEqual<T>(x: T, y: T, xs: seq<T>, ys: seq<T>)
    ensures [x] + xs == [y] + ys <==> x == y && xs == ys
  {
    assert ([x] + xs)[0] == x && ([x] + xs)[1..] == xs;
    assert ([y] + ys)[0] == y && ([y] + ys)[1..] == ys;
  }

  lemma {:induction false} FirstElement(t: Text)
    requires ReadUnit(RBRACKET, t).Fail?
    ensures var r := ReadElements(t); r.Ok? ==>
      ReadValue(t).Ok? && r.value != [] && r.value[0] == ReadValue(t).value
  {
  }

  /** An element with a comma behind it, and the others. */
  lemma {:induction false} MoreElements(t: Text, later: Text, v: TsValue, vs: seq<TsValue>, k: Text,
                                        clean: bool, laterClean: bool)
    requires Recovers(ReadValue(t), v, [COMMA] + later, clean)
    requires Recovers(ReadElements(later), vs, k, laterClean)
    requires ReadUnit(RBRACKET, t).Fail?
    ensures Recovers(ReadElements(t), [v] + vs, k, clean && laterClean)
  {
    UnitFound(COMMA, [], later);
    assert [] + ([COMMA] + later) == [COMMA] + later;
    FirstElement(t);
    if clean && ReadElements(later).Ok? {
      ConsEqual(v, v, ReadElements(later).value, vs);
    }
  }

  /** The last element, with the bracket behind it. */
  lemma {:induction false} LastElement(t: Text, v: TsValue, k: Text, clean: bool)
    requires Recovers(ReadValue(t), v, [RBRACKET] + k, clean)
    requires ReadUnit(RBRACKET, t).Fail?
    ensures Recovers(ReadElements(t), [v], k, clean)
  {
    UnitFound(RBRACKET, [], k);
    assert [] + ([RBRACKET] + k) == [RBRACKET] + k;
    FirstElement(t);
  }

  lemma {:induction false} ElementsEnd(w: Text, k: Text)
    requires AllSpace(w)
    ensures ReadElements(w + ([RBRACKET] + k)) == Ok([], k)
  {
    UnitFound(RBRACKET, w, k);
  }

  lemma {:induction false} PropertiesEnd(w: Text, k: Text)
    requires AllSpace(w)
    ensures ReadProperties(w + ([RBRACE] + k)) == Ok([], k)
  {
    UnitFound(RBRACE, w, k);
  }

  /** A property and the others. */
  lemma {:induction false} MoreProperties(w: Text, name: Text, t: Text, later: Text, v: TsValue, ps: seq<Property>,
                                          k: Text, clean: bool, laterClean: bool)
    requires AllSpace(w) && IsIdentifier(name)
    requires Recovers(ReadValue(t), v, [SEMICOLON] + later, clean)
    requires Recovers(ReadProperties(later), ps, k, laterClean)
    ensures Recovers(ReadProperties(w + (name + ([COLON] + t))), [Property(name, v)] + ps, k, clean && laterClean)
  {
    WordFound(w, name, [COLON] + t);
    UnitFound(COLON, [], t);
    assert [] + ([COLON] + t) == [COLON] + t;
    UnitFound(SEMICOLON, [], later);
    assert [] + ([SEMICOLON] + later) == [SEMICOLON] + later;
    if ReadValue(t).Ok? && ReadUnit(SEMICOLON, ReadValue(t).rest).Ok? {
      var rest := ReadUnit(SEMICOLON, ReadValue(t).rest).rest;
      if ReadProperties(rest).Ok? {
        ConsEqual(Property(name, ReadValue(t).value), Property(name, v), ReadProperties(rest).value, ps);
      }
    }
  }

  // ---------- The printed text is read back ----------

  lemma Pieces()
    ensures U(": ") == [COLON] + [SPACE] && U(";\n") == [SEMICOLON] + [LF]
    ensures U("[") == [LBRACKET] && U("]") == [RBRACKET]
    ensures U("[\n") == [LBRACKET] + [LF] && U("{\n") == [LBRACE] + [LF] && U("},\n") == [RBRACE] + ([COMMA] + [LF])
    ensures U("}\n") == [RBRACE] + [LF] && U(" {\n") == [SPACE] + ([LBRACE] + [LF]) && U(", ") == [COMMA] + [SPACE]
  {
  }

  lemma {:induction false} SpacesAreSpace(depth: nat)
    ensures AllSpace(Spaces(depth)) && AllSpace([LF]) && AllSpace([SPACE])
  {
  }

  lemma {:induction false} StringsRead(texts: seq<Text>, k: Text)
    ensures Recovers(ReadElements(PrintStrings(texts) + ([RBRACKET] + k)), Literals(texts), k, AllClean(texts))
  {
    var close := [RBRACKET] + k;
    if texts == [] {
      assert PrintStrings(texts) + close == [] + close;
      ElementsEnd([], k);
    } else {
      var first := PrintString(texts[0]);
      StringStarts(texts[0], if |texts| == 1 then close else U(", ") + PrintStrings(texts[1..]) + close);
      if |texts| == 1 {
        ValueOfString(texts[0], close);
        LastElement(first + close, Literal(texts[0]), k, Clean(texts[0]));
        assert Literals(texts) == [Literal(texts[0])];
      } else {
        var more := PrintStrings(texts[1..]) + close;
        var later := [SPACE] + more;
        Pieces();
        StringsRead(texts[1..], k);
        SpacesAreSpace(0);
        ReadAfterSpace([SPACE], more);
        ValueOfString(texts[0], [COMMA] + later);
        Regroup4(first, U(", "), PrintStrings(texts[1..]), close);
        Regroup3([COMMA], [SPACE], more);
        Regroup3(U(", "), PrintStrings(texts[1..]), close);
        MoreElements(first + ([COMMA] + later), later, Literal(texts[0]), Literals(texts[1..]), k,
                     Clean(texts[0]), AllClean(texts[1..]));
        assert texts == [texts[0]] + texts[1..];
      }
    }
  }

  lemma {:induction false} StringStarts(text: Text, k: Text)
    ensures ReadUnit(RBRACKET, PrintString(text) + k).Fail?
  {
    var t := PrintString(text) + k;
    assert U("'") == [APOSTROPHE];
    assert t[0] == APOSTROPHE;
    assert SkipSpace(t) == t;
  }

  lemma {:induction false} TupleRead(body: Text, vs: seq<TsValue>, k: Text, clean: bool)
    requires Recovers(ReadElements(body), vs, k, clean)
    ensures Recovers(ReadValue([LBRACKET] + body), Tuple(vs), k, clean)
  {
    var t := [LBRACKET] + body;
    assert SkipSpace(t) == t && t[1..] == body;
  }

  lemma {:induction false} RecordRead(w: Text, body: Text, ps: seq<Property>, k: Text, clean: bool)
    requires AllSpace(w) && Recovers(ReadProperties(body), ps, k, clean)
    ensures Recovers(ReadValue(w + ([LBRACE] + body)), Record(ps), k, clean)
    ensures ReadUnit(RBRACKET, w + ([LBRACE] + body)).Fail?
  {
    var t := [LBRACE] + body;
    UnitFound(LBRACE, w, body);
    ReadAfterSpace(w, t);
    assert SkipSpace(t) == t && t[1..] == body;
  }

  lemma {:induction false} ContentRead(c: Content, depth: nat, k: Text)
    requires ProperContent(c) && EndsName(k)
    ensures Recovers(ReadValue(PrintContent(c, depth) + k), Meaning(c), k, CleanContent(c))
    decreases c, 1
  {
    match c {
      case Flag(word) => ValueOfWord(word, k);
      case String(text) => ValueOfString(text, k);
      case Strings(texts) =>
        Pieces();
        StringsRead(texts, k);
        Regroup4([LBRACKET], PrintStrings(texts), [RBRACKET], k);
        TupleRead(PrintStrings(texts) + ([RBRACKET] + k), Literals(texts), k, AllClean(texts));
      case Records(records) =>
        RecordsContentRead(records, depth, k);
    }
  }

  lemma {:induction false} RecordsContentRead(records: seq<Entry>, depth: nat, k: Text)
    requires ProperRecords(records)
    ensures Recovers(ReadValue(PrintContent(Records(records), depth) + k), Tuple(RecordValues(records)), k,
                     CleanRecords(records))
    decreases records, 1
  {
    var close := Spaces(depth) + ([RBRACKET] + k);
    var body := PrintRecords(records, depth + 1) + close;
    Pieces();
    SpacesAreSpace(depth);
    RecordsRead(records, depth + 1, Spaces(depth), k);
    ReadAfterSpace([LF], body);
    TupleRead([LF] + body, RecordValues(records), k, CleanRecords(records));
    Regroup4(U("[\n"), PrintRecords(records, depth + 1), Spaces(depth) + U("]"), k);
    Regroup3(Spaces(depth), [RBRACKET], k);
    Regroup3([LBRACKET], [LF], body);
  }

  /** The fields of a record, up to its closing brace. */
  lemma {:induction false} FieldsRead(fs: seq<Field>, depth: nat, w: Text, k: Text)
    requires ProperFields(fs) && AllSpace(w)
    ensures Recovers(ReadProperties(PrintFields(fs, depth) + (w + ([RBRACE] + k))), Properties(fs), k, CleanFields(fs))
    decreases fs, 1
  {
    var close := w + ([RBRACE] + k);
    if fs == [] {
      assert PrintFields(fs, depth) + close == close;
      PropertiesEnd(w, k);
    } else {
      var f, more := fs[0], PrintFields(fs[1..], depth) + close;
      var later := [LF] + more;
      FieldsRead(fs[1..], depth, w, k);
      SpacesAreSpace(depth);
      ReadAfterSpace([LF], more);
      FieldText(f, depth, PrintFields(fs[1..], depth), close);
      var content := PrintContent(f.content, depth) + ([SEMICOLON] + later);
      ContentRead(f.content, depth, [SEMICOLON] + later);
      ReadAfterSpace([SPACE], content);
      MoreProperties(Spaces(depth), f.name, [SPACE] + content, later, Meaning(f.content), Properties(fs[1..]), k,
                     CleanContent(f.content), CleanFields(fs[1..]));
    }
  }

  lemma {:induction false} FieldText(f: Field, depth: nat, fields: Text, close: Text)
    ensures (PrintField(f, depth) + fields) + close
         == Spaces(depth) + (f.name + ([COLON] + ([SPACE] + (PrintContent(f.content, depth)
                                                            + ([SEMICOLON] + ([LF] + (fields + close)))))))
  {
    hide PrintContent;
    Pieces();
  }

  lemma {:induction false} RecordsRead(records: seq<Entry>, depth: nat, w: Text, k: Text)
    requires ProperRecords(records) && AllSpace(w)
    ensures Recovers(ReadElements(PrintRecords(records, depth) + (w + ([RBRACKET] + k))), RecordValues(records), k,
                     CleanRecords(records))
    decreases records, 0
  {
    var close := w + ([RBRACKET] + k);
    if records == [] {
      assert PrintRecords(records, depth) + close == close;
      ElementsEnd(w, k);
    } else {
      var fs, more := records[0].fields, PrintRecords(records[1..], depth) + close;
      var later := [LF] + more;
      var body := PrintFields(fs, depth + 1) + (Spaces(depth) + ([RBRACE] + ([COMMA] + later)));
      RecordsRead(records[1..], depth, w, k);
      SpacesAreSpace(depth);
      ReadAfterSpace([LF], more);
      FieldsRead(fs, depth + 1, Spaces(depth), [COMMA] + later);
      ReadAfterSpace([LF], body);
      RecordRead(Spaces(depth), [LF] + body, Properties(fs), [COMMA] + later, CleanFields(fs));
      RecordText(fs, depth, PrintRecords(records[1..], depth), close);
      MoreElements(Spaces(depth) + ([LBRACE] + ([LF] + body)), later, Record(Properties(fs)),
                   RecordValues(records[1..]), k, CleanFields(fs), CleanRecords(records[1..]));
    }
  }

  lemma {:induction false} RecordText(fs: seq<Field>, depth: nat, records: Text, close: Text)
    ensures (PrintRecord(fs, depth) + records) + close
         == Spaces(depth) + ([LBRACE] + ([LF] + (PrintFields(fs, depth + 1)
              + (Spaces(depth) + ([RBRACE] + ([COMMA] + ([LF] + (records + close))))))))
  {
    hide PrintFields;
    Pieces();
  }

  lemma HeadWords()
    ensures U("export interface ") == U("export") + [SPACE] + U("interface") + [SPACE]
    ensures IsIdentifier(U("export")) && IsIdentifier(U("interface"))
  {
  }

  /** The line that opens the interface. */
  lemma {:induction false} HeadRead(name: Text, k: Text)
    requires IsInterfaceName(name)
    ensures ReadHead(U("export interface ") + name + U(" {\n") + k) == Ok(name, [LF] + k)
  {
    hide U, IsIdentifier, SkipSpace, IdentRun;
    var first, second := U("export"), U("interface");
    HeadWords();
    Pieces();
    var k3 := [SPACE] + ([LBRACE] + ([LF] + k));
    var k2 := [SPACE] + (name + k3);
    var k1 := [SPACE] + (second + k2);
    assert U("export interface ") + name + U(" {\n") + k == [] + (first + k1);
    SpacesAreSpace(0);
    WordFound([], first, k1);
    WordFound([SPACE], second, k2);
    WordFound([SPACE], name, k3);
    UnitFound(LBRACE, [SPACE], [LF] + k);
  }

  /** What stands behind the line that opens the interface. */
  lemma {:induction false} BodyRead(fs: seq<Field>)
    requires ProperFields(fs)
    ensures Recovers(ReadProperties([LF] + (PrintFields(fs, 1) + U("}\n"))), Properties(fs), [LF], CleanFields(fs))
  {
    Pieces();
    SpacesAreSpace(0);
    FieldsRead(fs, 1, [], [LF]);
    assert [] + ([RBRACE] + [LF]) == [RBRACE] + [LF];
    ReadAfterSpace([LF], PrintFields(fs, 1) + U("}\n"));
  }

  /** The reader recovers a printed interface exactly when its name is one that an interface can have and no
      string holds a quote, a backslash or a line break. */
  lemma {:induction false} InterfaceReadsBack(name: Text, fs: seq<Field>)
    requires ProperFields(fs)
    ensures ReadInterface(PrintInterface(name, fs)) == Some(Interface(name, Properties(fs))) <==>
      IsInterfaceName(name) && CleanFields(fs)
  {
    if IsInterfaceName(name) {
      var body := PrintFields(fs, 1) + U("}\n");
      Regroup3(U("export interface ") + name + U(" {\n"), PrintFields(fs, 1), U("}\n"));
      HeadRead(name, body);
      BodyRead(fs);
      assert SkipSpace([LF]) == SkipSpace([]);
    }
  }
}
