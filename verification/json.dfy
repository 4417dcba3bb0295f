/** The part of Go's `encoding/json` that `DataType.UnmarshalJSON` relies on:
    classifying one JSON text as `null`, a string (with its escapes decoded),
    or anything else, which cannot be stored into a Go `string`. */
module Json {
  import opened Wrappers

  datatype Literal =
    | JNull
    | JString(s: string)
      /** any other JSON value (number, boolean, array, object) or malformed text */
    | JOther

  /** The whitespace JSON allows around a value. */
  predicate IsJsonSpace(c: char) {
    c == ' ' || c == '\t' || c == '\n' || c == '\r'
  }

  /** The number of leading JSON whitespace characters. */
  function JsonLead(s: string): (n: nat)
    ensures n <= |s|
    ensures forall k :: 0 <= k < n ==> IsJsonSpace(s[k])
    ensures n < |s| ==> !IsJsonSpace(s[n])
  {
    if |s| == 0 || !IsJsonSpace(s[0]) then 0 else 1 + JsonLead(s[1..])
  }

  /** The number of trailing JSON whitespace characters. */
  function JsonTrail(s: string): (n: nat)
    ensures n <= |s|
    ensures forall k :: |s| - n <= k < |s| ==> IsJsonSpace(s[k])
    ensures n < |s| ==> !IsJsonSpace(s[|s| - n - 1])
  {
    if |s| == 0 || !IsJsonSpace(s[|s| - 1]) then 0 else 1 + JsonTrail(s[..|s| - 1])
  }

  /** The value's text without the whitespace around it: a slice of `s` that
      neither starts nor ends with whitespace, with only whitespace cut away. */
  function TrimJsonSpace(s: string): (t: string)
    ensures |t| == 0 || (!IsJsonSpace(t[0]) && !IsJsonSpace(t[|t| - 1]))
    ensures JsonLead(s) + |t| <= |s| && t == s[JsonLead(s)..JsonLead(s) + |t|]
    ensures forall k :: 0 <= k < |s| && !(JsonLead(s) <= k < JsonLead(s) + |t|) ==> IsJsonSpace(s[k])
    ensures |s| > 0 && !IsJsonSpace(s[0]) && !IsJsonSpace(s[|s| - 1]) ==> t == s
  {
    var rest := s[JsonLead(s)..];
    rest[..|rest| - JsonTrail(rest)]
  }

  function HexValue(c: char): Option<nat> {
    if '0' <= c <= '9' then Some(c as int - '0' as int)
    else if 'a' <= c <= 'f' then Some(c as int - 'a' as int + 10)
    else if 'A' <= c <= 'F' then Some(c as int - 'A' as int + 10)
    else None
  }

  /** `getu4`: the value of a `\uXXXX` escape at the start of `s`, if there is one. */
  function U4(s: string): (r: Option<nat>)
    ensures r.Some? ==> |s| >= 6 && r.value < 0x1_0000
  {
    if |s| < 6 || s[0] != '\\' || s[1] != 'u' then None
    else match (HexValue(s[2]), HexValue(s[3]), HexValue(s[4]), HexValue(s[5]))
      case (Some(a), Some(b), Some(c), Some(d)) => Some(((a * 16 + b) * 16 + c) * 16 + d)
      case _ => None
  }

  /** The character a one-letter escape `\x` stands for. */
  function SimpleEscape(c: char): Option<char> {
    match c
    case '"' => Some('"')
    case '\\' => Some('\\')
    case '/' => Some('/')
    case 'b' => Some('\U{0008}')
    case 'f' => Some('\U{000C}')
    case 'n' => Some('\n')
    case 'r' => Some('\r')
    case 't' => Some('\t')
    case _ => None
  }

  function Prepend(c: char, rest: Option<string>): Option<string> {
    match rest
    case Some(t) => Some([c] + t)
    case None => None
  }

  /** Decodes the text between the quotes of a JSON string literal (`unquote`):
      an unescaped quote or control character, or a malformed escape, is a
      syntax error. A `\u` escape of a high surrogate followed by one of a low
      surrogate is one character; any other surrogate becomes U+FFFD. */
  function Unquote(s: string): Option<string>
    decreases |s|
  {
    if |s| == 0 then Some("")
    else if s[0] == '"' || s[0] < ' ' then None
    else if s[0] != '\\' then Prepend(s[0], Unquote(s[1..]))
    else if |s| < 2 then None
    else if s[1] != 'u' then
      match SimpleEscape(s[1])
      case Some(c) => Prepend(c, Unquote(s[2..]))
      case None => None
    else
      match U4(s)
      case None => None
      case Some(r) =>
        if r < 0xD800 || 0xE000 <= r then Prepend(r as char, Unquote(s[6..]))
        else
          match U4(s[6..])
          case Some(r2) =>
            if r < 0xDC00 && 0xDC00 <= r2 < 0xE000 then
              Prepend(((r - 0xD800) * 0x400 + (r2 - 0xDC00) + 0x1_0000) as char, Unquote(s[12..]))
            else Prepend('\U{FFFD}', Unquote(s[6..]))
          case None => Prepend('\U{FFFD}', Unquote(s[6..]))
  }

  /** Text that needs no escaping inside a JSON string literal. */
  predicate Plain(s: string) {
    forall i :: 0 <= i < |s| ==> s[i] != '"' && s[i] != '\\' && s[i] >= ' '
  }

  /** Plain text is its own decoding. */
  lemma {:induction false} UnquotePlain(s: string)
    requires Plain(s)
    ensures Unquote(s) == Some(s)
  {
    if |s| > 0 {
      UnquotePlain(s[1..]);
      assert s == [s[0]] + s[1..];
    }
  }

  /** Classifies one JSON text, surrounding whitespace allowed. */
  function ReadLiteral(b: string): (r: Literal)
    ensures r == JNull <==> TrimJsonSpace(b) == "null"
    // a string literal reads as the text its escapes decode to
    ensures var t := TrimJsonSpace(b);
            r.JString? <==> |t| >= 2 && t[0] == '"' && t[|t| - 1] == '"' && Unquote(t[1..|t| - 1]).Some?
    ensures var t := TrimJsonSpace(b);
            r.JString? ==> |t| >= 2 && Unquote(t[1..|t| - 1]) == Some(r.s)
  {
    var t := TrimJsonSpace(b);
    if t == "null" then JNull
    else if |t| >= 2 && t[0] == '"' && t[|t| - 1] == '"' then
      match Unquote(t[1..|t| - 1])
      case Some(s) => JString(s)
      case None => JOther
    else JOther
  }

  function Quote(s: string): string {
    "\"" + s + "\""
  }

  /** Quoting plain text and reading it back gives the text; the quoted
      text holds no control character. */
  lemma QuotePlainRoundTrip(s: string)
    requires Plain(s)
    ensures ReadLiteral(Quote(s)) == JString(s)
    ensures forall i :: 0 <= i < |Quote(s)| ==> ' ' <= Quote(s)[i]
  {
    var q := Quote(s);
    assert q[1..|q| - 1] == s;
    UnquotePlain(s);
    forall i | 0 <= i < |q| ensures ' ' <= q[i] {
      if 0 < i < |q| - 1 {
        assert q[i] == s[i - 1];
      }
    }
  }
}
