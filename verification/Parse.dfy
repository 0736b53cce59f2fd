/** JSON.parse: a reader for the grammar of RFC 8259. */
module Parse {
  import opened JsText
  import opened Json

  // ---------- Whitespace (section 2) ----------

  predicate IsSpace(c: CodeUnit) {
    c == SPACE || c == TAB || c == LF || c == CR
  }

  predicate AllSpace(t: Text) {
    forall i :: 0 <= i < |t| ==> IsSpace(t[i])
  }

  function SkipSpace(t: Text): (r: Text)
    ensures |r| <= |t|
    ensures r != [] ==> !IsSpace(r[0])
  {
    if t != [] && IsSpace(t[0]) then SkipSpace(t[1..]) else t
  }

  // ---------- Strings (section 7) ----------

  function HexValue(c: CodeUnit): (r: Option<nat>)
    ensures r.Some? ==> r.value < 16
  {
    if 0x30 <= c <= 0x39 then Some(c - 0x30)
    else if 0x61 <= c <= 0x66 then Some(c - 0x57)
    else if 0x41 <= c <= 0x46 then Some(c - 0x37)
    else None
  }

  /** The unit that a two-unit escape stands for. */
  function Unescape(c: CodeUnit): Option<CodeUnit> {
    match c
    case 0x22 => Some(QUOTE)
    case 0x2F => Some(0x2F)
    case 0x5C => Some(BACKSLASH)
    case 0x62 => Some(0x08)
    case 0x66 => Some(0x0C)
    case 0x6E => Some(0x0A)
    case 0x72 => Some(0x0D)
    case 0x74 => Some(0x09)
    case _ => None
  }

  function ParseHex4(t: Text): Parsed<CodeUnit> {
    if |t| < 4 then Fail
    else
      var a, b, c, d := HexValue(t[0]), HexValue(t[1]), HexValue(t[2]), HexValue(t[3]);
      if a.Some? && b.Some? && c.Some? && d.Some?
      then Ok(a.value * 0x1000 + b.value * 0x100 + c.value * 0x10 + d.value, t[4..])
      else Fail
  }

  /** One unit of a string literal, escaped or not. */
  function ParseUnit(t: Text): (r: Parsed<CodeUnit>)
    requires t != []
    ensures r.Ok? ==> |r.rest| < |t|
  {
    if t[0] != BACKSLASH then (if t[0] < 0x20 then Fail else Ok(t[0], t[1..]))
    else if |t| == 1 then Fail
    else if t[1] == 0x75 then ParseHex4(t[2..])
    else match Unescape(t[1])
      case None => Fail
      case Some(c) => Ok(c, t[2..])
  }

  /** The rest of a string literal, after its opening quote. */
  function ParseString(t: Text): (r: Parsed<Text>)
    ensures r.Ok? ==> |r.rest| < |t|
    decreases |t|
  {
    if t == [] then Fail
    else if t[0] == QUOTE then Ok([], t[1..])
    else match ParseUnit(t)
      case Fail => Fail
      case Ok(c, rest) =>
        match ParseString(rest)
        case Fail => Fail
        case Ok(s, rest') => Ok([c] + s, rest')
  }

  // ---------- Values (sections 3 to 6) ----------

  /** How many units at the start of `t` can belong to a numeral. */
  function NumeralRun(t: Text): (n: nat)
    ensures n <= |t|
  {
    if t != [] && IsNumeralUnit(t[0]) then 1 + NumeralRun(t[1..]) else 0
  }

  function ParseNumber(t: Text): (r: Parsed<Json>)
    ensures r.Ok? ==> |r.rest| < |t|
  {
    var n := NumeralRun(t);
    if n > 0 && IsNumeral(t[..n]) then Ok(Num(t[..n]), t[n..]) else Fail
  }

  function ParseValue(text: Text): (r: Parsed<Json>)
    ensures r.Ok? ==> |r.rest| < |text|
    decreases |text|, 0
  {
    var t := SkipSpace(text);
    if t == [] then Fail
    else if t[0] == QUOTE then
      match ParseString(t[1..])
      case Fail => Fail
      case Ok(s, rest) => Ok(Str(s), rest)
    else if t[0] == LBRACKET then
      var u := SkipSpace(t[1..]);
      if u != [] && u[0] == RBRACKET then Ok(Arr([]), u[1..])
      else match ParseItems(t[1..])
        case Fail => Fail
        case Ok(items, rest) => Ok(Arr(items), rest)
    else if t[0] == LBRACE then
      var u := SkipSpace(t[1..]);
      if u != [] && u[0] == RBRACE then Ok(Obj([]), u[1..])
      else match ParseMembers(t[1..])
        case Fail => Fail
        case Ok(ms, rest) => Ok(Obj(ms), rest)
    else if NULL <= t then Ok(Null, t[4..])
    else if TRUE <= t then Ok(Bool(true), t[4..])
    else if FALSE <= t then Ok(Bool(false), t[5..])
    else ParseNumber(t)
  }

  /** One or more values separated by commas, up to the closing bracket. */
  function ParseItems(t: Text): (r: Parsed<seq<Json>>)
    ensures r.Ok? ==> |r.rest| < |t|
    decreases |t|, 1
  {
    match ParseValue(t)
    case Fail => Fail
    case Ok(v, rest) =>
      var u := SkipSpace(rest);
      if u == [] then Fail
      else if u[0] == RBRACKET then Ok([v], u[1..])
      else if u[0] == COMMA then
        match ParseItems(u[1..])
        case Fail => Fail
        case Ok(items, rest') => Ok([v] + items, rest')
      else Fail
  }

  /** A quoted key and its colon. */
  function ParseKey(t: Text): (r: Parsed<Text>)
    ensures r.Ok? ==> |r.rest| < |t|
  {
    var u := SkipSpace(t);
    if u == [] || u[0] != QUOTE then Fail
    else match ParseString(u[1..])
      case Fail => Fail
      case Ok(key, rest) =>
        var w := SkipSpace(rest);
        if w != [] && w[0] == COLON then Ok(key, w[1..]) else Fail
  }

  /** One or more members separated by commas, up to the closing brace. */
  function ParseMembers(t: Text): (r: Parsed<seq<Member>>)
    ensures r.Ok? ==> |r.rest| < |t|
    decreases |t|, 1
  {
    match ParseKey(t)
    case Fail => Fail
    case Ok(key, afterKey) =>
      match ParseValue(afterKey)
      case Fail => Fail
      case Ok(v, rest) =>
        var u := SkipSpace(rest);
        if u == [] then Fail
        else if u[0] == RBRACE then Ok([Member(key, v)], u[1..])
        else if u[0] == COMMA then
          match ParseMembers(u[1..])
          case Fail => Fail
          case Ok(ms, rest') => Ok([Member(key, v)] + ms, rest')
        else Fail
  }

  /** `JSON.parse(text)`; None is the SyntaxError. */
  function JsonParse(text: Text): Option<Json> {
    match ParseValue(text)
    case Fail => None
    case Ok(v, rest) => if SkipSpace(rest) == [] then Some(Collapse(v)) else None
  }
}
