/** JavaScript strings, as sequences of UTF-16 code units. */
module JsText {

  type CodeUnit = c: nat | c < 0x1_0000

  type Text = seq<CodeUnit>

  datatype Option<+T> = None | Some(value: T)

  /** What a reader returns: a value and the text after it, or a failure. */
  datatype Parsed<+T> = Fail | Ok(value: T, rest: Text) {
    predicate IsFailure() {
      Fail?
    }

    function PropagateFailure<U>(): Parsed<U>
      requires Fail?
    {
      Fail
    }

    function Extract(): (T, Text)
      requires Ok?
    {
      (value, rest)
    }
  }

  const QUOTE: CodeUnit := 0x22
  const APOSTROPHE: CodeUnit := 0x27
  const COMMA: CodeUnit := 0x2C
  const COLON: CodeUnit := 0x3A
  const LBRACKET: CodeUnit := 0x5B
  const BACKSLASH: CodeUnit := 0x5C
  const RBRACKET: CodeUnit := 0x5D
  const LBRACE: CodeUnit := 0x7B
  const RBRACE: CodeUnit := 0x7D
  const LF: CodeUnit := 0x0A
  const CR: CodeUnit := 0x0D
  const TAB: CodeUnit := 0x09
  const SPACE: CodeUnit := 0x20

  /** The constants, spelled out. */
  lemma UnitsAreSpelled()
    ensures U("\"',:[]\\{}") == [QUOTE, APOSTROPHE, COMMA, COLON, LBRACKET, RBRACKET, BACKSLASH, LBRACE, RBRACE]
    ensures U("\n\r\t ") == [LF, CR, TAB, SPACE]
  {
  }

  function Unit(c: char): CodeUnit {
    if c as int < 0x1_0000 then c as int else 0xFFFD
  }

  /** The text of a literal. Every literal written in this project is below U+10000. */
  function U(s: string): (t: Text)
    ensures |t| == |s|
  {
    seq(|s|, i requires 0 <= i < |s| => Unit(s[i]))
  }

  const NULL := U("null")
  const TRUE := U("true")
  const FALSE := U("false")

  /** `f` of every element, concatenated in order. */
  function ConcatMap<T>(f: T -> Text, xs: seq<T>): Text {
    if xs == [] then [] else f(xs[0]) + ConcatMap(f, xs[1..])
  }

  lemma {:induction false} ConcatMapSnoc<T>(f: T -> Text, xs: seq<T>, x: T)
    ensures ConcatMap(f, xs + [x]) == ConcatMap(f, xs) + f(x)
  {
    if xs == [] {
      assert ConcatMap(f, [x]) == f(x) + ConcatMap(f, []);
    } else {
      ConcatMapSnoc(f, xs[1..], x);
      assert (xs + [x])[1..] == xs[1..] + [x];
    }
  }

  // ---------- Regrouping of concatenations ----------

  lemma Regroup3(a: Text, b: Text, c: Text)
    ensures (a + b) + c == a + (b + c)
  {
  }

  lemma Regroup4(a: Text, b: Text, c: Text, k: Text)
    ensures (a + b + c) + k == a + (b + (c + k))
  {
  }

  /** An opening, a body between two breaks, a closing, and what follows. */
  lemma RegroupBracketed(open: Text, b: Text, body: Text, b': Text, close: Text, k: Text)
    ensures (open + (b + body) + (b' + close)) + k == open + (b + (body + (b' + (close + k))))
  {
  }

  /** A first entry, a separator, the other entries, and what follows. */
  lemma RegroupEntries(first: Text, comma: Text, b: Text, more: Text, k: Text)
    ensures (first + (comma + b) + more) + k == first + (comma + (b + (more + k)))
  {
  }
}
