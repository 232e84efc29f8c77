/** A reader for JSON texts, written from the grammar of RFC 8259.  Strings are sequences
    of UTF-8 bytes, one per character. */
module JsonGrammar {
  import opened Text
  import opened Numerals
  import opened RValues

  predicate IsWhitespace(c: char) { c == ' ' || c == '\t' || c == '\n' || c == '\r' }

  function SkipWhitespace(s: string): (r: string)
    ensures |r| <= |s|
  {
    if s != "" && IsWhitespace(s[0]) then SkipWhitespace(s[1..]) else s
  }

  // Strings (section 7).

  predicate FourHex(s: string) {
    |s| >= 4 && IsHex(s[0]) && IsHex(s[1]) && IsHex(s[2]) && IsHex(s[3])
  }

  function HexCode(s: string): (n: nat)
    requires FourHex(s)
    ensures n < 0x10000
  {
    ((HexDigitValue(s[0]) * 16 + HexDigitValue(s[1])) * 16 + HexDigitValue(s[2])) * 16 + HexDigitValue(s[3])
  }

  /** The UTF-8 bytes of a code point. */
  function Utf8(n: nat): string
    requires n < 0x110000
  {
    if n < 0x80 then [n as char]
    else if n < 0x800 then [(0xC0 + n / 64) as char, (0x80 + n % 64) as char]
    else if n < 0x10000 then [(0xE0 + n / 4096) as char, (0x80 + n / 64 % 64) as char, (0x80 + n % 64) as char]
    else [(0xF0 + n / 262144) as char, (0x80 + n / 4096 % 64) as char, (0x80 + n / 64 % 64) as char, (0x80 + n % 64) as char]
  }

  function SimpleEscape(c: char): Option<char> {
    match c
    case '"' => Some('"')
    case '\\' => Some('\\')
    case '/' => Some('/')
    case 'b' => Some(8 as char)
    case 'f' => Some(12 as char)
    case 'n' => Some('\n')
    case 'r' => Some('\r')
    case 't' => Some('\t')
    case _ => None
  }

  /** The character behind the `u` of an escape, a surrogate pair taken together. */
  function UnicodeEscape(s: string): (r: Option<(string, string)>)
    ensures r.Some? ==> |r.value.1| < |s|
  {
    if !FourHex(s) then None
    else
      var code := HexCode(s);
      var rest := s[4..];
      if code < 0xD800 || 0xE000 <= code then Some((Utf8(code), rest))
      else if code < 0xDC00 && |rest| >= 2 && rest[0] == '\\' && rest[1] == 'u' && FourHex(rest[2..]) then
        var low := HexCode(rest[2..]);
        if 0xDC00 <= low < 0xE000 then Some((Utf8(0x10000 + (code - 0xD800) * 1024 + (low - 0xDC00)), rest[6..]))
        else None
      else None
  }

  /** The characters of a string and what follows its closing quote. */
  function ReadString(s: string): (r: Option<(string, string)>)
    ensures r.Some? ==> |r.value.1| < |s|
  {
    if s == "" || s[0] < ' ' then None
    else if s[0] == '"' then Some(("", s[1..]))
    else if s[0] != '\\' then Prefixed([s[0]], ReadString(s[1..]))
    else if |s| < 2 then None
    else if s[1] == 'u' then
      var e := UnicodeEscape(s[2..]);
      if e.None? then None else Prefixed(e.value.0, ReadString(e.value.1))
    else
      var e := SimpleEscape(s[1]);
      if e.None? then None else Prefixed([e.value], ReadString(s[2..]))
  }

  function Prefixed(c: string, r: Option<(string, string)>): Option<(string, string)> {
    match r case None => None case Some((s, rest)) => Some((c + s, rest))
  }

  // Values (section 3).

  function ReadValue(s: string): (r: Option<(Json, string)>)
    ensures r.Some? ==> |r.value.1| < |s|
    decreases |s|, 0
  {
    var t := SkipWhitespace(s);
    if t == "" then None
    else if t[0] == '"' then
      var r := ReadString(t[1..]);
      if r.None? then None else Some((JString(r.value.0), r.value.1))
    else if t[0] == '[' then
      var u := SkipWhitespace(t[1..]);
      if u != "" && u[0] == ']' then Some((JArray([]), u[1..]))
      else
        var r := ReadItems(u);
        if r.None? then None else Some((JArray(r.value.0), r.value.1))
    else if t[0] == '{' then
      var u := SkipWhitespace(t[1..]);
      if u != "" && u[0] == '}' then Some((JObject([]), u[1..]))
      else
        var r := ReadMembers(u);
        if r.None? then None else Some((JObject(r.value.0), r.value.1))
    else if "null" <= t then Some((JNull, t[4..]))
    else if "true" <= t then Some((JBool(true), t[4..]))
    else if "false" <= t then Some((JBool(false), t[5..]))
    else
      var n := NumberEnd(t);
      if n.None? then None else Some((JNumber(t[..n.value]), t[n.value..]))
  }

  function ReadItems(s: string): (r: Option<(seq<Json>, string)>)
    ensures r.Some? ==> |r.value.1| < |s|
    decreases |s|, 1
  {
    var v := ReadValue(s);
    if v.None? then None
    else
      var t := SkipWhitespace(v.value.1);
      if t == "" then None
      else if t[0] == ']' then Some(([v.value.0], t[1..]))
      else if t[0] != ',' then None
      else
        var r := ReadItems(t[1..]);
        if r.None? then None else Some(([v.value.0] + r.value.0, r.value.1))
  }

  function ReadMembers(s: string): (r: Option<(seq<(string, Json)>, string)>)
    ensures r.Some? ==> |r.value.1| < |s|
    decreases |s|, 1
  {
    var t := SkipWhitespace(s);
    if t == "" || t[0] != '"' then None
    else
      var k := ReadString(t[1..]);
      if k.None? then None
      else
        var u := SkipWhitespace(k.value.1);
        if u == "" || u[0] != ':' then None
        else
          var v := ReadValue(u[1..]);
          if v.None? then None
          else
            var t := SkipWhitespace(v.value.1);
            if t == "" then None
            else if t[0] == '}' then Some(([(k.value.0, v.value.0)], t[1..]))
            else if t[0] != ',' then None
            else
              var r := ReadMembers(t[1..]);
              if r.None? then None else Some(([(k.value.0, v.value.0)] + r.value.0, r.value.1))
  }
}
