/** A reader for JSON texts after RFC 8259, written without the printer: it decodes escapes by
    its own table and accepts white space wherever the grammar does. */
module JsonReader {
  import opened Wrappers
  import opened Numerals
  import opened JsonText

  /** A value, and the text behind it. */
  datatype Parsed<T> = Parsed(value: T, rest: string)

  // --- white space, section 2 ---

  predicate IsWhite(c: char) {
    c == ' ' || c == '\t' || c == '\n' || c == '\r'
  }

  function Skip(s: string): (t: string)
    ensures |t| <= |s|
  {
    if s != "" && IsWhite(s[0]) then Skip(s[1..]) else s
  }

  // --- strings, section 7 ---

  function HexValue(c: char): Option<nat> {
    if '0' <= c <= '9' then Some((c - '0') as nat)
    else if 'a' <= c <= 'f' then Some(10 + (c - 'a') as nat)
    else if 'A' <= c <= 'F' then Some(10 + (c - 'A') as nat)
    else None
  }

  function HexNumber(s: string): Option<nat> {
    if s == "" then Some(0)
    else
      match (HexNumber(s[..|s| - 1]), HexValue(s[|s| - 1]))
      case (Some(high), Some(low)) => Some(16 * high + low)
      case _ => None
  }

  /** The character that a backslash and the start of this text stand for. A text that names
      half of a surrogate pair is not read. */
  function ReadEscape(s: string): Option<Parsed<char>> {
    if s == "" then None
    else
      match s[0]
      case '\"' => Some(Parsed('\"', s[1..]))
      case '\\' => Some(Parsed('\\', s[1..]))
      case '/' => Some(Parsed('/', s[1..]))
      case 'b' => Some(Parsed(0x08 as char, s[1..]))
      case 'f' => Some(Parsed(0x0C as char, s[1..]))
      case 'n' => Some(Parsed(0x0A as char, s[1..]))
      case 'r' => Some(Parsed(0x0D as char, s[1..]))
      case 't' => Some(Parsed(0x09 as char, s[1..]))
      case 'u' =>
        if |s| < 5 then None
        else
          (match HexNumber(s[1..5])
           case Some(n) => if n < 0xD800 || 0xE000 <= n < 0x1_0000 then Some(Parsed(n as char, s[5..])) else None
           case None => None)
      case _ => None
  }

  /** The characters up to the closing quote; the opening one has been read. */
  function ReadChars(s: string): (r: Option<Parsed<string>>)
    ensures r.Some? ==> |r.value.rest| < |s|
    decreases |s|
  {
    if s == "" then None
    else if s[0] == '\"' then Some(Parsed("", s[1..]))
    else if s[0] == '\\' then
      match ReadEscape(s[1..])
      case None => None
      case Some(e) => if |e.rest| < |s| then Before(e.value, ReadChars(e.rest)) else None
    else if s[0] as int < 0x20 then None
    else Before(s[0], ReadChars(s[1..]))
  }

  function Before(c: char, r: Option<Parsed<string>>): Option<Parsed<string>> {
    match r
    case Some(p) => Some(Parsed([c] + p.value, p.rest))
    case None => None
  }

  // --- numbers, section 6 ---

  predicate IsNumberChar(c: char) {
    IsDigit(c) || c == '+' || c == '-' || c == '.' || c == 'e' || c == 'E'
  }

  function NumberRun(s: string): (t: string)
    ensures |t| <= |s| && t <= s && forall i :: 0 <= i < |t| ==> IsNumberChar(t[i])
  {
    if s != "" && IsNumberChar(s[0]) then [s[0]] + NumberRun(s[1..]) else ""
  }

  function Digits(s: string): (d: string)
    ensures |d| <= |s| && d <= s && AllDigits(d)
  {
    if s != "" && IsDigit(s[0]) then [s[0]] + Digits(s[1..]) else ""
  }

  /** int: zero, or digits without a leading zero. */
  predicate IsWhole(d: string) {
    AllDigits(d) && d != "" && (d[0] == '0' ==> |d| == 1)
  }

  predicate IsFraction(s: string) {
    |s| >= 2 && s[0] == '.' && AllDigits(s[1..])
  }

  predicate IsExponent(s: string) {
    && s != "" && (s[0] == 'e' || s[0] == 'E')
    && var t := if |s| >= 2 && (s[1] == '+' || s[1] == '-') then s[2..] else s[1..];
       t != "" && AllDigits(t)
  }

  function Unsigned(s: string): string {
    if s != "" && s[0] == '-' then s[1..] else s
  }

  predicate IsIntText(s: string) {
    IsWhole(Unsigned(s))
  }

  /** A number with a fraction, an exponent or both. */
  predicate IsFloatText(s: string) {
    var t := Unsigned(s);
    var whole := Digits(t);
    var more := t[|whole|..];
    && IsWhole(whole)
    && (IsFraction(more) || IsExponent(more)
        || (more != "" && more[0] == '.' && Digits(more[1..]) != "" && IsExponent(more[1 + |Digits(more[1..])|..])))
  }

  function NumberOf(t: string): Option<Json> {
    if IsIntText(t) then
      var n: int := ParseDecimal(Unsigned(t));
      Some(Int(if t[0] == '-' then -n else n))
    else if IsFloatText(t) then Some(Float(t))
    else None
  }

  // --- values, sections 3 to 5 ---

  function ReadValue(s: string): (r: Option<Parsed<Json>>)
    ensures r.Some? ==> |r.value.rest| < |s|
    decreases |s|, 1
  {
    var t := Skip(s);
    if t == "" then None
    else if t[0] == '[' then
      var u := Skip(t[1..]);
      if u != "" && u[0] == ']' then Some(Parsed(Arr([]), u[1..]))
      else
        match ReadItems(t[1..])
        case Some(p) => Some(Parsed(Arr(p.value), p.rest))
        case None => None
    else if t[0] == '{' then
      var u := Skip(t[1..]);
      if u != "" && u[0] == '}' then Some(Parsed(Obj([]), u[1..]))
      else
        match ReadMembers(t[1..])
        case Some(p) => Some(Parsed(Obj(p.value), p.rest))
        case None => None
    else ReadScalar(t)
  }

  function ReadScalar(t: string): (r: Option<Parsed<Json>>)
    requires t != ""
    ensures r.Some? ==> |r.value.rest| < |t|
  {
    if t[0] == '\"' then
      match ReadChars(t[1..])
      case Some(p) => Some(Parsed(Str(p.value), p.rest))
      case None => None
    else if "null" <= t then Some(Parsed(Null, t[4..]))
    else if "true" <= t then Some(Parsed(Bool(true), t[4..]))
    else if "false" <= t then Some(Parsed(Bool(false), t[5..]))
    else
      var n := NumberRun(t);
      if n == "" then None
      else
        match NumberOf(n)
        case Some(v) => Some(Parsed(v, t[|n|..]))
        case None => None
  }

  /** The items of a list up to its closing bracket. */
  function ReadItems(s: string): (r: Option<Parsed<seq<Json>>>)
    ensures r.Some? ==> |r.value.rest| < |s|
    decreases |s|, 2
  {
    match ReadValue(s)
    case None => None
    case Some(p) =>
      var t := Skip(p.rest);
      if t == "" then None
      else if t[0] == ']' then Some(Parsed([p.value], t[1..]))
      else if t[0] == ',' then
        match ReadItems(t[1..])
        case Some(q) => Some(Parsed([p.value] + q.value, q.rest))
        case None => None
      else None
  }

  /** The members of an object up to its closing brace. */
  function ReadMembers(s: string): (r: Option<Parsed<seq<Field>>>)
    ensures r.Some? ==> |r.value.rest| < |s|
    decreases |s|, 2
  {
    match ReadMember(s)
    case None => None
    case Some(p) =>
      var t := Skip(p.rest);
      if t == "" then None
      else if t[0] == '}' then Some(Parsed([p.value], t[1..]))
      else if t[0] == ',' then
        match ReadMembers(t[1..])
        case Some(q) => Some(Parsed([p.value] + q.value, q.rest))
        case None => None
      else None
  }

  function ReadMember(s: string): (r: Option<Parsed<Field>>)
    ensures r.Some? ==> |r.value.rest| < |s|
    decreases |s|, 0
  {
    var t := Skip(s);
    if t == "" || t[0] != '\"' then None
    else
      match ReadChars(t[1..])
      case None => None
      case Some(key) =>
        var u := Skip(key.rest);
        if u == "" || u[0] != ':' then None
        else
          match ReadValue(u[1..])
          case Some(p) => Some(Parsed(Field(key.value, p.value), p.rest))
          case None => None
  }

  /** A whole text: one value, and nothing but white space around it. */
  function Read(s: string): Option<Json> {
    match ReadValue(s)
    case Some(p) => if Skip(p.rest) == "" then Some(p.value) else None
    case None => None
  }
}
