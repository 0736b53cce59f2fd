/** The type printer of convert_int.ts, and how TypeScript reads what it prints. */
module TsType {
  import opened JsText

  /** The fields of a type that the printer looks at: a string, an object (each field may be missing), or
      anything else, such as a missing type. */
  datatype IdlType =
    | Name(name: Text)
    | Object(kind: Option<Text>, element: IdlType, defined: Option<Text>)
    | Other

  const ARRAY := U("array")
  const OPTION := U("option")
  const STRING := U("string")
  const I64 := U("i64")
  const BIGINT := U("bigint")
  const ANY := U("any")
  const BRACKETS: Text := [LBRACKET, RBRACKET]
  const BAR := U(" | ")

  predicate IsArray(t: IdlType) {
    t.Object? && t.kind == Some(ARRAY)
  }

  predicate IsOption(t: IdlType) {
    t.Object? && t.kind == Some(OPTION)
  }

  /** The name printed for a type without an element. The empty string is falsy. */
  function LeafName(t: IdlType): Text {
    match t
    case Name(name) => if name == STRING then STRING else if name == I64 then BIGINT else ANY
    case Object(_, _, Some(d)) => if d != [] then d else ANY
    case _ => ANY
  }

  /** `idlTypeToTsType` */
  function Print(t: IdlType): Text {
    if IsArray(t) then Print(t.element) + BRACKETS
    else if IsOption(t) then Print(t.element) + (BAR + NULL)
    else LeafName(t)
  }

  /** The name of a defined type that ends up in the printed text, if there is one. */
  function DefinedName(t: IdlType): Option<Text> {
    if IsArray(t) || IsOption(t) then DefinedName(t.element)
    else match t
      case Object(_, _, Some(d)) => if d != [] then Some(d) else None
      case _ => None
  }

  /** The printed names, spelled out. */
  lemma {:induction false} PrintedNames(name: Text)
    ensures Print(Name(U("string"))) == U("string") && Print(Name(U("i64"))) == U("bigint")
    ensures name != U("string") && name != U("i64") ==> Print(Name(name)) == U("any")
    ensures Print(Other) == U("any")
  {
    assert |U("string")| == 6 && |U("i64")| == 3;
  }

  /** The printed objects, spelled out: first the arrays, then the options, then the defined types. */
  lemma {:induction false} PrintedObjects(kind: Option<Text>, element: IdlType, defined: Option<Text>)
    ensures Print(Object(Some(U("array")), element, defined)) == Print(element) + U("[]")
    ensures Print(Object(Some(U("option")), element, defined)) == Print(element) + U(" | null")
    ensures kind != Some(U("array")) && kind != Some(U("option")) ==>
      Print(Object(kind, element, defined))
      == if defined.Some? && defined.value != [] then defined.value else U("any")
  {
    assert U("[]") == BRACKETS && U(" | null") == BAR + NULL;
    assert |U("array")| == 5 && |U("option")| == 6;
  }

  // ---------- Words ----------

  predicate IsIdentUnit(c: CodeUnit) {
    0x30 <= c <= 0x39 || 0x41 <= c <= 0x5A || 0x61 <= c <= 0x7A || c == 0x5F || c == 0x24
  }

  predicate IsIdentifier(t: Text) {
    t != [] && !(0x30 <= t[0] <= 0x39) && forall i :: 0 <= i < |t| ==> IsIdentUnit(t[i])
  }

  /** The words that are types of TypeScript itself, whatever is declared. */
  const PREDEFINED := ["any", "unknown", "never", "void", "undefined", "null", "string", "number", "boolean",
    "bigint", "symbol", "object", "this", "true", "false"]

  /** The other reserved words of module code, section 12.6.2 of ECMA-262 (2021). */
  const RESERVED := ["await", "break", "case", "catch", "class", "const", "continue", "debugger", "default",
    "delete", "do", "else", "enum", "export", "extends", "finally", "for", "function", "if", "import", "in",
    "instanceof", "new", "return", "super", "switch", "throw", "try", "typeof", "var", "while", "with",
    "yield", "let", "static", "implements", "interface", "package", "private", "protected", "public"]

  /** The words that TypeScript reads as operators wherever a type starts. */
  const TYPE_OPERATORS := ["keyof", "unique", "readonly", "infer"]

  predicate IsAmong(t: Text, words: seq<string>) {
    exists i :: 0 <= i < |words| && t == U(words[i])
  }

  /** A name that an interface can be declared with. */
  predicate IsInterfaceName(t: Text) {
    IsIdentifier(t) && !IsAmong(t, PREDEFINED) && !IsAmong(t, RESERVED)
  }

  /** A name that is read as a reference to a declared type. */
  predicate IsTypeName(t: Text) {
    IsInterfaceName(t) && !IsAmong(t, TYPE_OPERATORS)
  }

  /** A word that is a type by itself. */
  predicate IsTypeWord(t: Text) {
    IsTypeName(t) || (IsIdentifier(t) && IsAmong(t, PREDEFINED))
  }

  // ---------- TypeScript types ----------

  /** A type of TypeScript itself and a declared type are different even where their names are the same. */
  datatype TsType =
    | BuiltIn(word: Text)
    | Reference(name: Text)
    | ArrayOf(element: TsType)
    | Union(left: TsType, right: TsType)

  /** What a type without an element means: the two basic types, the type of the defined name, or any. */
  function IntendedLeaf(t: IdlType): TsType {
    if t == Name(STRING) then BuiltIn(STRING)
    else if t == Name(I64) then BuiltIn(BIGINT)
    else if t.Object? && t.defined.Some? && t.defined.value != [] then Reference(t.defined.value)
    else BuiltIn(ANY)
  }

  /** The type that the printer means to write. */
  function Intended(t: IdlType): TsType {
    if IsArray(t) then ArrayOf(Intended(t.element))
    else if IsOption(t) then Union(Intended(t.element), BuiltIn(NULL))
    else IntendedLeaf(t)
  }

  function IdentRun(t: Text): (n: nat)
    ensures n <= |t| && forall i :: 0 <= i < n ==> IsIdentUnit(t[i])
  {
    if t != [] && IsIdentUnit(t[0]) then 1 + IdentRun(t[1..]) else 0
  }

  // A postfix type is a word and any number of `[]`; a union is one or more of them, joined by ` | ` from
  // the left. So `[]` binds tighter than `|`.

  /** Every leaf of the type is what its word stands for. */
  predicate ProperLeaves(x: TsType) {
    match x
    case BuiltIn(word) => IsAmong(word, PREDEFINED)
    case Reference(name) => IsTypeName(name)
    case ArrayOf(y) => ProperLeaves(y)
    case Union(y, z) => ProperLeaves(y) && ProperLeaves(z)
  }

  function Atom(t: Text): TsType {
    if IsAmong(t, PREDEFINED) then BuiltIn(t) else Reference(t)
  }

  function ParseBrackets(x: TsType, t: Text): (r: Parsed<TsType>)
    ensures r.Ok? && |r.rest| <= |t|
    ensures ProperLeaves(r.value) <==> ProperLeaves(x)
    decreases |t|
  {
    if BRACKETS <= t then ParseBrackets(ArrayOf(x), t[2..]) else Ok(x, t)
  }

  function ParsePostfix(t: Text): (r: Parsed<TsType>)
    ensures r.Ok? ==> |r.rest| < |t| && ProperLeaves(r.value)
  {
    var n := IdentRun(t);
    if n > 0 && IsTypeWord(t[..n]) then ParseBrackets(Atom(t[..n]), t[n..]) else Fail
  }

  function ParseBars(x: TsType, t: Text): (r: Parsed<TsType>)
    ensures r.Ok? && ProperLeaves(x) ==> ProperLeaves(r.value)
    decreases |t|
  {
    if BAR <= t then
      match ParsePostfix(t[3..])
      case Fail => Fail
      case Ok(y, rest) => ParseBars(Union(x, y), rest)
    else Ok(x, t)
  }

  function ParseUnion(t: Text): (r: Parsed<TsType>)
    ensures r.Ok? ==> ProperLeaves(r.value)
  {
    match ParsePostfix(t)
    case Fail => Fail
    case Ok(x, rest) => ParseBars(x, rest)
  }

  /** The type that a text stands for, if it is one type and nothing else. */
  function Read(t: Text): (r: Option<TsType>)
    ensures r.Some? ==> ProperLeaves(r.value)
  {
    match ParseUnion(t)
    case Ok(x, rest) => if rest == [] then Some(x) else None
    case Fail => None
  }

  // ---------- What is read ----------

  /** `[]` behind a union applies to its last member only. */
  function Suffixed(x: TsType): TsType {
    match x
    case Union(left, right) => Union(left, ArrayOf(right))
    case _ => ArrayOf(x)
  }

  /** The type that TypeScript reads from the printed text. */
  function Reading(t: IdlType): TsType {
    if IsArray(t) then Suffixed(Reading(t.element))
    else if IsOption(t) then Union(Reading(t.element), BuiltIn(NULL))
    else Atom(LeafName(t))
  }

  /** The defined name, if there is one, is a word that is a type by itself. */
  predicate PrintsWord(t: IdlType) {
    DefinedName(t).Some? ==> IsTypeWord(DefinedName(t).value)
  }

  /** The defined name, if there is one, is read as a reference. */
  predicate PrintsReference(t: IdlType) {
    DefinedName(t).Some? ==> IsTypeName(DefinedName(t).value)
  }

  /** The words that the printer writes of its own. */
  lemma PrintedWords()
    ensures forall w :: w in {STRING, BIGINT, ANY, NULL} ==> IsAmong(w, PREDEFINED) && IsTypeWord(w)
  {
    assert PREDEFINED[0] == "any" && PREDEFINED[5] == "null" && PREDEFINED[6] == "string" && PREDEFINED[9] == "bigint";
    assert forall i :: 0 <= i < |STRING| ==> IsIdentUnit(STRING[i]);
    assert forall i :: 0 <= i < |BIGINT| ==> IsIdentUnit(BIGINT[i]);
    assert forall i :: 0 <= i < |ANY| ==> IsIdentUnit(ANY[i]);
    assert forall i :: 0 <= i < |NULL| ==> IsIdentUnit(NULL[i]);
  }

  /** What the reader does with the text behind a type it has already read. */
  function Resume(x: TsType, k: Text): Parsed<TsType> {
    match x
    case Union(left, right) =>
      var r := ParseBrackets(right, k);
      ParseBars(Union(left, r.value), r.rest)
    case _ =>
      var r := ParseBrackets(x, k);
      ParseBars(r.value, r.rest)
  }

  predicate EndsName(k: Text) {
    k == [] || !IsIdentUnit(k[0])
  }

  lemma {:induction false} RunOfName(n: Text, k: Text)
    requires forall i :: 0 <= i < |n| ==> IsIdentUnit(n[i])
    requires EndsName(k)
    ensures IdentRun(n + k) == |n|
  {
    if n == [] {
      assert n + k == k;
    } else {
      assert (n + k)[1..] == n[1..] + k;
      RunOfName(n[1..], k);
    }
  }

  lemma {:induction false} ReadName(n: Text, k: Text)
    requires IsTypeWord(n) && EndsName(k)
    ensures ParsePostfix(n + k) == ParseBrackets(Atom(n), k)
  {
    RunOfName(n, k);
    assert (n + k)[..|n|] == n && (n + k)[|n|..] == k;
  }

  lemma {:induction false} ResumeBrackets(x: TsType, k: Text)
    ensures Resume(x, BRACKETS + k) == Resume(Suffixed(x), k)
  {
  }

  lemma NullText()
    ensures NULL == [0x6E, 0x75, 0x6C, 0x6C] && BAR == [SPACE, 0x7C, SPACE]
  {
  }

  lemma {:induction false} ResumeNull(x: TsType, k: Text)
    requires EndsName(k)
    ensures Resume(x, (BAR + NULL) + k) == Resume(Union(x, BuiltIn(NULL)), k)
  {
    NullText();
    PrintedWords();
    var t := (BAR + NULL) + k;
    assert t[3..] == NULL + k;
    assert t[0] == SPACE && BRACKETS[0] == LBRACKET;
    ReadName(NULL, k);
  }

  /** The reader of unions and arrays reads the printed text of any type as `Reading` says. */
  lemma {:induction false} ReadsPrinted(t: IdlType, k: Text)
    requires PrintsWord(t) && EndsName(k)
    ensures ParseUnion(Print(t) + k) == Resume(Reading(t), k)
  {
    if IsArray(t) {
      ReadsPrinted(t.element, BRACKETS + k);
      ResumeBrackets(Reading(t.element), k);
      Regroup3(Print(t.element), BRACKETS, k);
    } else if IsOption(t) {
      NullText();
      ReadsPrinted(t.element, (BAR + NULL) + k);
      ResumeNull(Reading(t.element), k);
      Regroup3(Print(t.element), BAR + NULL, k);
    } else {
      PrintedWords();
      ReadName(LeafName(t), k);
    }
  }

  lemma {:induction false} ReadPrint(t: IdlType)
    requires PrintsWord(t)
    ensures Read(Print(t)) == Some(Reading(t))
  {
    ReadsPrinted(t, []);
    assert Print(t) + [] == Print(t);
  }

  // ---------- When it is the intended type ----------

  /** The type is an option, or an array of ... an option. */
  predicate HasOption(t: IdlType) {
    IsOption(t) || (IsArray(t) && HasOption(t.element))
  }

  /** Some array has an option beneath it. */
  predicate OptionBeneathArray(t: IdlType) {
    (IsArray(t) && HasOption(t.element)) || ((IsArray(t) || IsOption(t)) && OptionBeneathArray(t.element))
  }

  lemma {:induction false} ReadingIsUnion(t: IdlType)
    ensures Reading(t).Union? <==> HasOption(t)
  {
    if IsArray(t) {
      ReadingIsUnion(t.element);
    }
  }

  lemma {:induction false} ReadingIsIntended(t: IdlType)
    requires PrintsReference(t)
    ensures Reading(t) == Intended(t) <==> !OptionBeneathArray(t)
  {
    if IsArray(t) {
      ReadingIsIntended(t.element);
      ReadingIsUnion(t.element);
    } else if IsOption(t) {
      ReadingIsIntended(t.element);
    } else {
      PrintedWords();
    }
  }

  lemma {:induction false} IntendedLeaves(t: IdlType)
    ensures ProperLeaves(Intended(t)) <==> PrintsReference(t)
  {
    PrintedWords();
    if IsArray(t) || IsOption(t) {
      IntendedLeaves(t.element);
    }
  }

  /** The printed text is read as the intended type exactly when the defined name in it is one identifier
      that is no word of the language and no option lies beneath an array. */
  lemma {:induction false} PrintedTypeIsIntended(t: IdlType)
    ensures Read(Print(t)) == Some(Intended(t)) <==> PrintsReference(t) && !OptionBeneathArray(t)
  {
    IntendedLeaves(t);
    if PrintsReference(t) {
      ReadPrint(t);
      ReadingIsIntended(t);
    }
  }

  /** Where an array directly wraps an option, the array is read as an array of null. */
  lemma {:induction false} ArrayOfOptionMisread(t: IdlType, inner: IdlType)
    requires PrintsWord(t) && IsArray(t) && IsOption(t.element) && t.element.element == inner
    ensures Read(Print(t)) == Some(Union(Reading(inner), ArrayOf(BuiltIn(NULL))))
    ensures Intended(t) == ArrayOf(Union(Intended(inner), BuiltIn(NULL)))
  {
    ReadPrint(t);
  }

  predicate IsLowerCase(word: string) {
    word != "" && forall i :: 0 <= i < |word| ==> 'a' <= word[i] <= 'z'
  }

  lemma PredefinedIsLowerCase()
    ensures forall w :: w in PREDEFINED ==> IsLowerCase(w)
  {
  }

  lemma {:induction false} PredefinedWord(word: Text)
    requires IsAmong(word, PREDEFINED)
    ensures IsTypeWord(word)
  {
    PredefinedIsLowerCase();
    var i :| 0 <= i < |PREDEFINED| && word == U(PREDEFINED[i]);
    assert IsLowerCase(PREDEFINED[i]);
  }

  /** A defined type that has the name of a type of the language is never the one that is read. In
      particular a defined type `string` prints as the basic type does. */
  lemma {:induction false} DefinedBuiltInMisread(word: Text)
    requires IsAmong(word, PREDEFINED)
    ensures var t := Object(None, Other, Some(word));
      Read(Print(t)) == Some(BuiltIn(word)) && Intended(t) == Reference(word)
    ensures var t := Object(None, Other, Some(STRING));
      Print(t) == Print(Name(STRING)) && Intended(t) != Intended(Name(STRING))
  {
    PredefinedWord(word);
    assert word != [];
    ReadPrint(Object(None, Other, Some(word)));
  }

  // ---------- Quoting the printed text ----------

  /** A unit that ends a single-quoted literal, starts an escape, or breaks the line. */
  predicate IsSpecial(c: CodeUnit) {
    c == APOSTROPHE || c == BACKSLASH || c == LF || c == CR
  }

  predicate Clean(s: Text) {
    forall i :: 0 <= i < |s| ==> !IsSpecial(s[i])
  }

  predicate AllClean(texts: seq<Text>) {
    forall i :: 0 <= i < |texts| ==> Clean(texts[i])
  }

  /** The defined name, if there is one, can be quoted as it is. */
  predicate CleanType(t: IdlType) {
    DefinedName(t).Some? ==> Clean(DefinedName(t).value)
  }

  lemma CleanConcat(a: Text, b: Text)
    ensures Clean(a + b) <==> Clean(a) && Clean(b)
  {
    if Clean(a + b) {
      assert forall i :: 0 <= i < |a| ==> (a + b)[i] == a[i];
      assert forall i :: 0 <= i < |b| ==> (a + b)[|a| + i] == b[i];
    }
  }

  /** The printed text can be quoted as it is exactly when the defined name in it can. */
  lemma {:induction false} PrintedTypeClean(t: IdlType)
    ensures Clean(Print(t)) <==> CleanType(t)
  {
    if IsArray(t) || IsOption(t) {
      PrintedTypeClean(t.element);
      NullText();
      assert Clean(BRACKETS) && Clean(BAR + NULL);
      CleanConcat(Print(t.element), if IsArray(t) then BRACKETS else BAR + NULL);
    }
  }
}
