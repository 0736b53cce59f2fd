/** JSON.stringify, section 25.5.2 of ECMA-262 (2021). */
module Stringify {
  import opened JsText
  import opened Json

  // ---------- QuoteJSONString ----------

  predicate IsHighSurrogate(c: CodeUnit) {
    0xD800 <= c < 0xDC00
  }

  predicate IsLowSurrogate(c: CodeUnit) {
    0xDC00 <= c < 0xE000
  }

  function HexDigit(d: nat): CodeUnit
    requires d < 16
  {
    if d < 10 then 0x30 + d else 0x57 + d
  }

  function Hex4(c: CodeUnit): Text {
    [HexDigit(c / 0x1000), HexDigit(c / 0x100 % 16), HexDigit(c / 0x10 % 16), HexDigit(c % 16)]
  }

  /** The letter of a two-unit escape, for the units that have one. */
  function ShortEscape(c: CodeUnit): Option<CodeUnit> {
    match c
    case 0x08 => Some(0x62)
    case 0x09 => Some(0x74)
    case 0x0A => Some(0x6E)
    case 0x0C => Some(0x66)
    case 0x0D => Some(0x72)
    case 0x22 => Some(QUOTE)
    case 0x5C => Some(BACKSLASH)
    case _ => None
  }

  /** A unit that is not half of a surrogate pair. */
  function EscapeUnit(c: CodeUnit): Text {
    if ShortEscape(c).Some? then [BACKSLASH, ShortEscape(c).value]
    else if c < 0x20 || IsHighSurrogate(c) || IsLowSurrogate(c) then [BACKSLASH, 0x75] + Hex4(c)
    else [c]
  }

  function Escape(s: Text): Text {
    if s == [] then []
    else if |s| >= 2 && IsHighSurrogate(s[0]) && IsLowSurrogate(s[1]) then s[..2] + Escape(s[2..])
    else EscapeUnit(s[0]) + Escape(s[1..])
  }

  function Quote(s: Text): Text {
    [QUOTE] + Escape(s) + [QUOTE]
  }

  // ---------- SerializeJSONProperty ----------

  /** The indentation one level down. */
  function Deeper(gap: Text, indent: Text): Text {
    if gap == [] then indent else indent + gap
  }

  /** What separates two lines of the output: nothing when there is no gap. */
  function Break(gap: Text, indent: Text): Text {
    if gap == [] then [] else [LF] + indent
  }

  function Colon(gap: Text): Text {
    if gap == [] then [COLON] else [COLON, SPACE]
  }

  /** The text of `v`. Its continuation lines start with `indent`, grown by `gap` at each level. */
  function Serialize(v: Json, gap: Text, indent: Text): Text
    decreases v, 1
  {
    match v
    case Null => NULL
    case Bool(b) => if b then TRUE else FALSE
    case Num(n) => n
    case Str(s) => Quote(s)
    case Arr(items) =>
      if items == [] then [LBRACKET, RBRACKET]
      else
        var inner := Deeper(gap, indent);
        [LBRACKET] + (Break(gap, inner) + SerializeItems(items, gap, inner)) + (Break(gap, indent) + [RBRACKET])
    case Obj(ms) =>
      if ms == [] then [LBRACE, RBRACE]
      else
        var inner := Deeper(gap, indent);
        [LBRACE] + (Break(gap, inner) + SerializeMembers(ms, gap, inner)) + (Break(gap, indent) + [RBRACE])
  }

  function SerializeItems(items: seq<Json>, gap: Text, indent: Text): Text
    requires items != []
    decreases items, 0
  {
    var first := Serialize(items[0], gap, indent);
    if |items| == 1 then first
    else first + ([COMMA] + Break(gap, indent)) + SerializeItems(items[1..], gap, indent)
  }

  function SerializeMembers(ms: seq<Member>, gap: Text, indent: Text): Text
    requires ms != []
    decreases ms, 0
  {
    var first := SerializeMember(ms[0], gap, indent);
    if |ms| == 1 then first
    else first + ([COMMA] + Break(gap, indent)) + SerializeMembers(ms[1..], gap, indent)
  }

  function SerializeMember(m: Member, gap: Text, indent: Text): Text
    decreases m, 0
  {
    Quote(m.key) + Colon(gap) + Serialize(m.value, gap, indent)
  }

  /** `JSON.stringify(v)` */
  function Compact(v: Json): Text {
    Serialize(v, [], [])
  }

  /** `JSON.stringify(v, null, 2)` */
  function Pretty(v: Json): Text {
    Serialize(v, [SPACE, SPACE], [])
  }
}
