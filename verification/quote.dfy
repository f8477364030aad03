/** Go's strconv.Quote for text made of ASCII characters: the text that
    `strconv.ParseBool`'s syntax error puts between the quotes.

    A quote and a backslash are escaped with a backslash, the printable
    characters (space to '~') stand for themselves, the seven control
    characters with a C escape use it (`\a \b \f \n \r \t \v`), and every
    other control character, DEL included, becomes `\x` followed by two
    lower-case hexadecimal digits. */
module GoQuote {
  import opened Wrappers

  predicate IsAscii(c: char) { c as int < 0x80 }

  predicate IsPrintableAscii(c: char) { ' ' <= c <= '~' }

  predicate AllAscii(s: string) {
    forall k :: 0 <= k < |s| ==> IsAscii(s[k])
  }

  /** The lower-case hexadecimal digit for `d`. */
  function HexDigit(d: nat): (c: char)
    requires d < 16
    ensures IsPrintableAscii(c)
  {
    if d < 10 then ('0' as int + d) as char else ('a' as int + d - 10) as char
  }

  /** The value of a lower-case hexadecimal digit. */
  function HexValue(c: char): (r: Option<nat>)
    ensures r.Some? ==> r.value < 16
  {
    if '0' <= c <= '9' then Some(c as int - '0' as int)
    else if 'a' <= c <= 'f' then Some(c as int - 'a' as int + 10)
    else None
  }

  lemma HexRoundTrip(d: nat)
    requires d < 16
    ensures HexValue(HexDigit(d)) == Some(d)
  {
  }

  /** The letter after the backslash of a short escape, if `c` has one. */
  function ShortEscape(c: char): Option<char> {
    if c == '"' || c == '\\' then Some(c)
    else if c as int == 7 then Some('a')
    else if c as int == 8 then Some('b')
    else if c as int == 12 then Some('f')
    else if c as int == 10 then Some('n')
    else if c as int == 13 then Some('r')
    else if c as int == 9 then Some('t')
    else if c as int == 11 then Some('v')
    else None
  }

  /** The character a short escape letter stands for. */
  function ShortUnescape(e: char): Option<char> {
    match e
    case '"' => Some('"')
    case '\\' => Some('\\')
    case 'a' => Some(7 as char)
    case 'b' => Some(8 as char)
    case 'f' => Some(12 as char)
    case 'n' => Some(10 as char)
    case 'r' => Some(13 as char)
    case 't' => Some(9 as char)
    case 'v' => Some(11 as char)
    case _ => None
  }

  /** How one ASCII character appears between the quotes. */
  function EscapeChar(c: char): (r: string)
    requires IsAscii(c)
    ensures 1 <= |r| <= 4
    ensures forall k :: 0 <= k < |r| ==> IsPrintableAscii(r[k])
    ensures r[0] == '\\' <==> !IsPrintableAscii(c) || c == '"' || c == '\\'
  {
    if ShortEscape(c).Some? then ['\\', ShortEscape(c).value]
    else if IsPrintableAscii(c) then [c]
    else ['\\', 'x', HexDigit(c as int / 16), HexDigit(c as int % 16)]
  }

  /** The escaped text of an ASCII string. */
  function Escape(s: string): (r: string)
    requires AllAscii(s)
    ensures forall k :: 0 <= k < |r| ==> IsPrintableAscii(r[k])
    ensures forall k :: 0 <= k < |r| ==> r[k] == '"' ==> k > 0 && r[k - 1] == '\\'
    decreases |s|
  {
    if s == [] then []
    else
      var head := EscapeChar(s[0]);
      var tail := Escape(s[1..]);
      assert forall k :: 0 <= k < |head| ==> head[k] == '"' ==> k > 0 && head[k - 1] == '\\';
      var r := head + tail;
      assert forall k :: |head| <= k < |r| ==> r[k] == tail[k - |head|];
      r
  }

  /** strconv.Quote: the escaped text between double quotes, or None when
      the text holds a character beyond ASCII, whose escaping depends on
      Unicode's printability tables. */
  function Quote(s: string): (r: Option<string>)
    ensures r.Some? <==> AllAscii(s)
  {
    if AllAscii(s) then Some("\"" + Escape(s) + "\"") else None
  }

  // ------------------------------------------------------------------
  // Reading the escaped text back
  // ------------------------------------------------------------------

  function Cons(c: char, r: Option<string>): Option<string> {
    match r
    case Some(t) => Some([c] + t)
    case None => None
  }

  /** Undoes the escapes of Go's quoted strings that Escape produces. */
  function Unescape(q: string): Option<string>
    decreases |q|
  {
    if q == [] then Some([])
    else if q[0] != '\\' then Cons(q[0], Unescape(q[1..]))
    else if |q| >= 2 && ShortUnescape(q[1]).Some? then Cons(ShortUnescape(q[1]).value, Unescape(q[2..]))
    else if |q| >= 4 && q[1] == 'x' && HexValue(q[2]).Some? && HexValue(q[3]).Some? then
      Cons((HexValue(q[2]).value * 16 + HexValue(q[3]).value) as char, Unescape(q[4..]))
    else None
  }

  /** One escaped character reads back as itself. */
  lemma UnescapeChar(c: char, rest: string)
    requires IsAscii(c)
    ensures Unescape(EscapeChar(c) + rest) == Cons(c, Unescape(rest))
  {
    var e := EscapeChar(c);
    var q := e + rest;
    assert q[..|e|] == e && q[|e|..] == rest;
    if ShortEscape(c).Some? {
      assert q[0] == '\\' && q[1] == ShortEscape(c).value;
      assert q[2..] == rest;
    } else if IsPrintableAscii(c) {
      assert q[1..] == rest;
    } else {
      var hi := c as int / 16;
      var lo := c as int % 16;
      HexRoundTrip(hi);
      HexRoundTrip(lo);
      assert q[0] == '\\' && q[1] == 'x' && q[2] == HexDigit(hi) && q[3] == HexDigit(lo);
      assert q[4..] == rest;
      assert hi * 16 + lo == c as int;
    }
  }

  /** Unescaping undoes escaping for every ASCII string. */
  lemma {:induction false} UnescapeEscape(s: string)
    requires AllAscii(s)
    ensures Unescape(Escape(s)) == Some(s)
    decreases |s|
  {
    if s != [] {
      UnescapeChar(s[0], Escape(s[1..]));
      UnescapeEscape(s[1..]);
      assert s == [s[0]] + s[1..];
    }
  }
}
