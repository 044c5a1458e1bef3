/**
 * Go's `%q` verb on a string (strconv.Quote), as used for the `dirPath` script
 * literal, the hrefs of the directory listing and the paths in error messages.
 * A string is one character per byte; bytes from 0x80 up are copied unchanged.
 */
module GoQuote {
  import opened Wrappers

  /** A character that appears in a quoted literal as itself: printable ASCII or a
      byte from 0x80 up, other than the quote and the backslash. */
  predicate Plain(c: char) {
    (0x20 <= c as int < 0x7f || 0x80 <= c as int) && c != '"' && c != '\\'
  }

  function HexDigit(v: int): (c: char)
    requires 0 <= v < 16
  {
    if v < 10 then ('0' as int + v) as char else ('a' as int + (v - 10)) as char
  }

  /** The value of a lower-case hexadecimal digit, if `c` is one. */
  function HexValue(c: char): Option<int> {
    if '0' <= c <= '9' then Some(c as int - '0' as int)
    else if 'a' <= c <= 'f' then Some(c as int - 'a' as int + 10)
    else None
  }

  /** The letter of the one-letter escape for a control character, if it has one. */
  function ShortEscape(code: int): Option<char> {
    if code == 7 then Some('a')
    else if code == 8 then Some('b')
    else if code == 9 then Some('t')
    else if code == 10 then Some('n')
    else if code == 11 then Some('v')
    else if code == 12 then Some('f')
    else if code == 13 then Some('r')
    else None
  }

  /** The control character a one-letter escape stands for. */
  function ShortEscaped(letter: char): Option<int> {
    if letter == 'a' then Some(7)
    else if letter == 'b' then Some(8)
    else if letter == 't' then Some(9)
    else if letter == 'n' then Some(10)
    else if letter == 'v' then Some(11)
    else if letter == 'f' then Some(12)
    else if letter == 'r' then Some(13)
    else None
  }

  /** How one character is written inside the quotes. */
  function EscapeChar(c: char): (e: string)
    ensures 1 <= |e| <= 4
    ensures forall i :: 0 <= i < |e| ==> Plain(e[i]) || e[i] == '\\' || e[i] == '"'
  {
    if c == '"' || c == '\\' then ['\\', c]
    else if Plain(c) then [c]
    else match ShortEscape(c as int)
      case Some(letter) => ['\\', letter]
      case None => ['\\', 'x', HexDigit(c as int / 16), HexDigit(c as int % 16)]
  }

  /** The text between the quotes of `%q`. */
  function Escape(s: string): (e: string)
    ensures forall i :: 0 <= i < |e| ==> Plain(e[i]) || e[i] == '\\' || e[i] == '"'
  {
    if |s| == 0 then "" else EscapeChar(s[0]) + Escape(s[1..])
  }

  /** The whole `%q` rendering, quotes included. */
  function Quote(s: string): string {
    "\"" + Escape(s) + "\""
  }

  /** Reads the text between the quotes of a Go string literal; `None` when it holds a
      raw quote (which would end the literal), a raw control character or a bad escape. */
  function Unescape(t: string): Option<string>
    decreases |t|
  {
    if |t| == 0 then Some("")
    else if t[0] == '\\' then
      if |t| < 2 then None
      else if t[1] == '"' || t[1] == '\\' then Prepend(t[1], Unescape(t[2..]))
      else if t[1] == 'x' then
        if |t| < 4 then None
        else match (HexValue(t[2]), HexValue(t[3]))
          case (Some(h), Some(l)) => Prepend((h * 16 + l) as char, Unescape(t[4..]))
          case _ => None
      else match ShortEscaped(t[1])
        case Some(code) => Prepend(code as char, Unescape(t[2..]))
        case None => None
    else if Plain(t[0]) then Prepend(t[0], Unescape(t[1..]))
    else None
  }

  function Prepend(c: char, r: Option<string>): Option<string> {
    match r
    case None => None
    case Some(s) => Some([c] + s)
  }

  /** Reads a quoted literal back. */
  function Unquote(q: string): Option<string> {
    if |q| < 2 || q[0] != '"' || q[|q| - 1] != '"' then None
    else Unescape(q[1..|q| - 1])
  }

  lemma HexRoundTrip(v: int)
    requires 0 <= v < 16
    ensures HexValue(HexDigit(v)) == Some(v)
  {
  }

  lemma ByteRoundTrip(c: char)
    requires c as int < 0x80
    ensures (c as int / 16) * 16 + c as int % 16 == c as int
    ensures 0 <= c as int / 16 < 16
  {
  }

  /** One escaped character is read back as itself, whatever follows it. */
  lemma UnescapeChar(c: char, t: string)
    ensures Unescape(EscapeChar(c) + t) == Prepend(c, Unescape(t))
  {
    var e := EscapeChar(c);
    if c == '"' || c == '\\' {
      assert (e + t)[2..] == t;
    } else if Plain(c) {
      assert (e + t)[1..] == t;
    } else {
      match ShortEscape(c as int)
      case Some(letter) =>
        assert (e + t)[2..] == t;
      case None =>
        ByteRoundTrip(c);
        HexRoundTrip(c as int / 16);
        HexRoundTrip(c as int % 16);
        assert (e + t)[4..] == t;
        assert ((c as int / 16) * 16 + c as int % 16) as char == c;
    }
  }

  /** Reading the escaped text gives back the string. */
  lemma {:induction false} UnescapeEscape(s: string)
    ensures Unescape(Escape(s)) == Some(s)
  {
    if |s| > 0 {
      UnescapeChar(s[0], Escape(s[1..]));
      UnescapeEscape(s[1..]);
      assert [s[0]] + s[1..] == s;
    }
  }

  /** `%q` is read back, with Go's string-literal syntax, as the string it quotes. */
  lemma UnquoteQuote(s: string)
    ensures Unquote(Quote(s)) == Some(s)
  {
    var q := Quote(s);
    assert q[1..|q| - 1] == Escape(s);
    UnescapeEscape(s);
  }

  /** A string of plain characters is quoted as itself between quotes. */
  lemma {:induction false} EscapePlain(s: string)
    requires forall i :: 0 <= i < |s| ==> Plain(s[i])
    ensures Escape(s) == s
  {
    if |s| > 0 {
      EscapePlain(s[1..]);
      assert [s[0]] + s[1..] == s;
    }
  }
}
