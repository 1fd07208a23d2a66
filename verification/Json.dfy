/** JSON text as the packet codec reads and writes it (RFC 8259). */
module Json {
  import opened Common
  import Utf8

  /** Numbers keep their text. Objects keep their fields in the order printed. */
  datatype Json =
    | Null
    | Bool(b: bool)
    | Number(text: Bytes)
    | Str(s: Bytes)
    | Arr(items: seq<Json>)
    | Obj(fields: seq<Field>)

  datatype Field = Field(name: Bytes, value: Json)

  const QUOTE: Byte := 34
  const COMMA: Byte := 44
  const COLON: Byte := 58
  const OPEN_BRACKET: Byte := 91
  const BACKSLASH: Byte := 92
  const CLOSE_BRACKET: Byte := 93
  const OPEN_BRACE: Byte := 123
  const CLOSE_BRACE: Byte := 125

  // ----- strings -----

  function HexDigit(n: nat): Byte
    requires n < 16
  {
    if n < 10 then 48 + n else 87 + n
  }

  function HexValue(c: Byte): Option<nat> {
    if 48 <= c <= 57 then Some(c - 48)
    else if 97 <= c <= 102 then Some(c - 87)
    else if 65 <= c <= 70 then Some(c - 55)
    else None
  }

  /** The characters that must be escaped (section 7 of RFC 8259). */
  predicate MustEscape(c: Byte) {
    c == QUOTE || c == BACKSLASH || c < 32
  }

  function EscapeByte(c: Byte): Bytes {
    if !MustEscape(c) then [c]
    else if c == QUOTE || c == BACKSLASH then [BACKSLASH, c]
    else if c == 8 then [BACKSLASH, 98]
    else if c == 9 then [BACKSLASH, 116]
    else if c == 10 then [BACKSLASH, 110]
    else if c == 12 then [BACKSLASH, 102]
    else if c == 13 then [BACKSLASH, 114]
    else [BACKSLASH, 117, 48, 48, HexDigit(c / 16), HexDigit(c % 16)]
  }

  function Escape(s: Bytes): Bytes {
    if s == [] then [] else EscapeByte(s[0]) + Escape(s[1..])
  }

  function PrintString(s: Bytes): Bytes {
    [QUOTE] + Escape(s) + [QUOTE]
  }

  function Hex4(s: Bytes): Option<nat>
    ensures Hex4(s).Some? ==> |s| >= 4 && Hex4(s).value < 0x10000
  {
    if |s| < 4 then None
    else match (HexValue(s[0]), HexValue(s[1]), HexValue(s[2]), HexValue(s[3]))
      case (Some(a), Some(b), Some(c), Some(d)) => Some(a * 4096 + b * 256 + c * 16 + d)
      case _ => None
  }

  /** The text after a backslash: the bytes it stands for, and the rest. */
  function Unescape(s: Bytes): (r: Option<(Bytes, Bytes)>)
    ensures r.Some? ==> |r.value.1| < |s|
  {
    if s == [] then None
    else if s[0] == QUOTE || s[0] == BACKSLASH || s[0] == 47 then Some(([s[0]], s[1..]))
    else if s[0] == 98 then Some(([8], s[1..]))
    else if s[0] == 116 then Some(([9], s[1..]))
    else if s[0] == 110 then Some(([10], s[1..]))
    else if s[0] == 102 then Some(([12], s[1..]))
    else if s[0] == 114 then Some(([13], s[1..]))
    else if s[0] == 117 && Hex4(s[1..]).Some? then
      var unit, rest := Hex4(s[1..]).value, s[5..];
      var low := if |rest| >= 6 && rest[0] == BACKSLASH && rest[1] == 117 then Hex4(rest[2..]) else None;
      if 0xD800 <= unit < 0xDC00 && low.Some? && 0xDC00 <= low.value < 0xE000 then
        Some((Utf8.Encode(0x10000 + (unit - 0xD800) * 1024 + (low.value - 0xDC00)), rest[6..]))
      else Some((Utf8.Encode(unit), rest))
    else None
  }

  /** The contents of a string whose opening quote has been read. */
  function ParseChars(s: Bytes): (r: Option<(Bytes, Bytes)>)
    ensures r.Some? ==> |r.value.1| < |s|
    decreases |s|
  {
    if s == [] || s[0] < 32 then None
    else if s[0] == QUOTE then Some(([], s[1..]))
    else if s[0] == BACKSLASH then
      match Unescape(s[1..])
      case None => None
      case Some((b, rest)) =>
        match ParseChars(rest)
        case None => None
        case Some((more, end)) => Some((b + more, end))
    else match ParseChars(s[1..])
      case None => None
      case Some((more, end)) => Some(([s[0]] + more, end))
  }

  // ----- numbers -----

  predicate IsDigit(c: Byte) {
    48 <= c <= 57
  }

  predicate Starts(s: Bytes, c: Byte) {
    s != [] && s[0] == c
  }

  function AfterDigits(s: Bytes): (r: Bytes)
    ensures |r| <= |s|
  {
    if s != [] && IsDigit(s[0]) then AfterDigits(s[1..]) else s
  }

  function AfterInt(s: Bytes): (r: Option<Bytes>)
    ensures r.Some? ==> |r.value| < |s|
  {
    if Starts(s, 48) then Some(s[1..])
    else if s != [] && IsDigit(s[0]) then Some(AfterDigits(s[1..]))
    else None
  }

  function AfterFraction(s: Bytes): (r: Option<Bytes>)
    ensures r.Some? ==> |r.value| <= |s|
  {
    if !Starts(s, 46) then Some(s)
    else if |s| > 1 && IsDigit(s[1]) then Some(AfterDigits(s[1..]))
    else None
  }

  function AfterExponent(s: Bytes): (r: Option<Bytes>)
    ensures r.Some? ==> |r.value| <= |s|
  {
    if !Starts(s, 101) && !Starts(s, 69) then Some(s)
    else
      var t := s[1..];
      var u := if Starts(t, 43) || Starts(t, 45) then t[1..] else t;
      if u != [] && IsDigit(u[0]) then Some(AfterDigits(u)) else None
  }

  function AfterNumber(s: Bytes): (r: Option<Bytes>)
    ensures r.Some? ==> |r.value| < |s|
  {
    match AfterInt(if Starts(s, 45) then s[1..] else s)
    case None => None
    case Some(t) =>
      match AfterFraction(t)
      case None => None
      case Some(u) => AfterExponent(u)
  }

  /** The text of one number and nothing else. */
  predicate IsNumber(t: Bytes) {
    AfterNumber(t) == Some([])
  }

  // ----- values -----

  function Print(v: Json): Bytes
    decreases v, 1
  {
    match v
    case Null => Ascii("null")
    case Bool(b) => if b then Ascii("true") else Ascii("false")
    case Number(text) => text
    case Str(s) => PrintString(s)
    case Arr(items) => [OPEN_BRACKET] + PrintItems(items) + [CLOSE_BRACKET]
    case Obj(fields) => [OPEN_BRACE] + PrintFields(fields) + [CLOSE_BRACE]
  }

  function PrintItems(items: seq<Json>): Bytes
    decreases items, 0
  {
    if items == [] then []
    else if |items| == 1 then Print(items[0])
    else Print(items[0]) + [COMMA] + PrintItems(items[1..])
  }

  function PrintFields(fields: seq<Field>): Bytes
    decreases fields, 0
  {
    if fields == [] then []
    else
      var first := PrintString(fields[0].name) + [COLON] + Print(fields[0].value);
      if |fields| == 1 then first else first + [COMMA] + PrintFields(fields[1..])
  }

  predicate IsSpace(c: Byte) {
    c == 32 || c == 9 || c == 10 || c == 13
  }

  function SkipSpace(s: Bytes): (r: Bytes)
    ensures |r| <= |s|
  {
    if s != [] && IsSpace(s[0]) then SkipSpace(s[1..]) else s
  }

  function ParseValue(s: Bytes): (r: Option<(Json, Bytes)>)
    ensures r.Some? ==> |r.value.1| < |s|
    decreases |s|, 0
  {
    var t := SkipSpace(s);
    if t == [] then None
    else if t[0] == OPEN_BRACE then
      var u := SkipSpace(t[1..]);
      if Starts(u, CLOSE_BRACE) then Some((Obj([]), u[1..]))
      else (match ParseFields(u)
        case None => None
        case Some((fields, rest)) => Some((Obj(fields), rest)))
    else if t[0] == OPEN_BRACKET then
      var u := SkipSpace(t[1..]);
      if Starts(u, CLOSE_BRACKET) then Some((Arr([]), u[1..]))
      else (match ParseItems(u)
        case None => None
        case Some((items, rest)) => Some((Arr(items), rest)))
    else if t[0] == QUOTE then
      match ParseChars(t[1..])
      case None => None
      case Some((b, rest)) => Some((Str(b), rest))
    else if Ascii("null") <= t then Some((Null, t[4..]))
    else if Ascii("true") <= t then Some((Bool(true), t[4..]))
    else if Ascii("false") <= t then Some((Bool(false), t[5..]))
    else match AfterNumber(t)
      case None => None
      case Some(rest) => Some((Number(t[..|t| - |rest|]), rest))
  }

  /** Items up to the closing bracket; at least one is read. */
  function ParseItems(s: Bytes): (r: Option<(seq<Json>, Bytes)>)
    ensures r.Some? ==> |r.value.1| < |s|
    decreases |s|, 1
  {
    match ParseValue(s)
    case None => None
    case Some((v, rest)) =>
      var t := SkipSpace(rest);
      if Starts(t, CLOSE_BRACKET) then Some(([v], t[1..]))
      else if Starts(t, COMMA) then
        match ParseItems(t[1..])
        case None => None
        case Some((vs, end)) => Some(([v] + vs, end))
      else None
  }

  /** Fields up to the closing brace; at least one is read. */
  function ParseFields(s: Bytes): (r: Option<(seq<Field>, Bytes)>)
    ensures r.Some? ==> |r.value.1| < |s|
    decreases |s|, 1
  {
    if !Starts(s, QUOTE) then None
    else match ParseChars(s[1..])
      case None => None
      case Some((name, rest)) =>
        var c := SkipSpace(rest);
        if !Starts(c, COLON) then None
        else match ParseValue(c[1..])
          case None => None
          case Some((v, after)) =>
            var t := SkipSpace(after);
            if Starts(t, CLOSE_BRACE) then Some(([Field(name, v)], t[1..]))
            else if Starts(t, COMMA) then
              match ParseFields(SkipSpace(t[1..]))
              case None => None
              case Some((more, end)) => Some(([Field(name, v)] + more, end))
            else None
  }

  /** A whole text: one value with nothing but space around it. */
  function Parse(s: Bytes): Option<Json> {
    match ParseValue(s)
    case None => None
    case Some((v, rest)) => if SkipSpace(rest) == [] then Some(v) else None
  }

  predicate IsValid(s: Bytes) {
    Parse(s).Some?
  }
}
