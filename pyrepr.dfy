/** Python's `repr` of a `str` and of a `bytes` value, as `str(args)` writes each element
    of an argument tuple, and a reader for the literals it writes. */
module PyRepr {
  import opened Wrappers
  import Utf8

  /** The lower-case hexadecimal digit for `k`. */
  function HexDigit(k: nat): (c: char)
    requires k < 16
  {
    if k < 10 then (48 + k) as char else (87 + k) as char
  }

  /** A lower-case hexadecimal digit. */
  predicate IsHexDigit(c: char) {
    '0' <= c <= '9' || 'a' <= c <= 'f'
  }

  function HexValue(c: char): (k: nat)
    requires IsHexDigit(c)
    ensures k < 16
  {
    if c <= '9' then c as int - 48 else c as int - 87
  }

  /** The quote repr chooses: a single quote, unless the text holds a single quote and
      no double quote. */
  function QuoteFor(hasSingle: bool, hasDouble: bool): (q: char) {
    if hasSingle && !hasDouble then '"' else '\''
  }

  predicate IsQuote(q: char) {
    q == '\'' || q == '"'
  }

  /** `c` as it appears between the quotes of a repr. In a bytes literal (`bytesMode`)
      every code from 0x7F up is written as \xhh. In a str literal the code points
      0x7F-0xA0 and 0xAD, which Python does not count as printable, are written as \xhh,
      and every other code point from 0xA1 up is copied. */
  function EscapeChar(c: char, quote: char, bytesMode: bool): (t: string)
    requires bytesMode ==> c as int < 0x100
  {
    var n := c as int;
    if c == quote || c == '\\' then ['\\', c]
    else if c == '\t' then "\\t"
    else if c == '\n' then "\\n"
    else if c == '\r' then "\\r"
    else if n < 0x20 || n == 0x7F then ['\\', 'x', HexDigit(n / 16), HexDigit(n % 16)]
    else if n < 0x7F then [c]
    else if bytesMode || n <= 0xA0 || n == 0xAD then ['\\', 'x', HexDigit(n / 16), HexDigit(n % 16)]
    else [c]
  }

  function Escape(s: string, quote: char, bytesMode: bool): (t: string)
    requires bytesMode ==> forall i :: 0 <= i < |s| ==> s[i] as int < 0x100
  {
    if s == [] then [] else EscapeChar(s[0], quote, bytesMode) + Escape(s[1..], quote, bytesMode)
  }

  /** `repr(s)` for a str. */
  function StrRepr(s: string): (lit: string) {
    var q := QuoteFor('\'' in s, '"' in s);
    [q] + Escape(s, q, false) + [q]
  }

  /** The bytes as Latin-1 text, one character per byte. */
  function Latin1(b: Utf8.bytes): (s: string)
    ensures |s| == |b|
    ensures forall i :: 0 <= i < |b| ==> s[i] as int == b[i]
  {
    if b == [] then [] else [b[0] as char] + Latin1(b[1..])
  }

  /** `repr(b)` for a bytes value. */
  function BytesRepr(b: Utf8.bytes): (lit: string) {
    var q := QuoteFor(0x27 in b, 0x22 in b);
    "b" + [q] + Escape(Latin1(b), q, true) + [q]
  }

  function Prepend(c: char, r: Option<string>): (extended: Option<string>) {
    if r.Some? then Some([c] + r.value) else None
  }

  /** Reads the text between the quotes of a literal that repr writes: a backslash starts
      one of the escapes \\ \' \" \t \n \r \xhh; an unescaped closing quote, and in a bytes
      literal an unescaped character from 0x80 up, are refused. The other escapes that
      Python accepts are not read. */
  function ReadBody(t: string, quote: char, bytesMode: bool): (r: Option<string>)
    ensures r.Some? && bytesMode ==> forall i :: 0 <= i < |r.value| ==> r.value[i] as int < 0x100
    decreases |t|
  {
    if t == [] then Some([])
    else if t[0] == '\\' then
      if |t| >= 2 && (t[1] == '\\' || t[1] == '\'' || t[1] == '"') then Prepend(t[1], ReadBody(t[2..], quote, bytesMode))
      else if |t| >= 2 && t[1] == 't' then Prepend('\t', ReadBody(t[2..], quote, bytesMode))
      else if |t| >= 2 && t[1] == 'n' then Prepend('\n', ReadBody(t[2..], quote, bytesMode))
      else if |t| >= 2 && t[1] == 'r' then Prepend('\r', ReadBody(t[2..], quote, bytesMode))
      else if |t| >= 4 && t[1] == 'x' && IsHexDigit(t[2]) && IsHexDigit(t[3]) then
        Prepend((HexValue(t[2]) * 16 + HexValue(t[3])) as char, ReadBody(t[4..], quote, bytesMode))
      else None
    else if t[0] == quote || (bytesMode && t[0] as int >= 0x80) then None
    else Prepend(t[0], ReadBody(t[1..], quote, bytesMode))
  }

  /** Reading a repr-written character gives it back, whatever follows. */
  lemma ReadEscapeChar(c: char, quote: char, bytesMode: bool, rest: string)
    requires IsQuote(quote)
    requires bytesMode ==> c as int < 0x100
    ensures ReadBody(EscapeChar(c, quote, bytesMode) + rest, quote, bytesMode)
         == Prepend(c, ReadBody(rest, quote, bytesMode))
  {
    var e := EscapeChar(c, quote, bytesMode);
    var t := e + rest;
    var n := c as int;
    if |e| == 4 {
      assert t[1] == 'x' && t[2] == HexDigit(n / 16) && t[3] == HexDigit(n % 16);
      assert HexValue(t[2]) * 16 + HexValue(t[3]) == n;
      assert t[4..] == rest;
    } else if |e| == 2 {
      assert t[2..] == rest;
    } else {
      assert t[1..] == rest;
    }
  }

  lemma {:induction false} ReadEscape(s: string, quote: char, bytesMode: bool)
    requires IsQuote(quote)
    requires bytesMode ==> forall i :: 0 <= i < |s| ==> s[i] as int < 0x100
    ensures ReadBody(Escape(s, quote, bytesMode), quote, bytesMode) == Some(s)
  {
    if s != [] {
      ReadEscapeChar(s[0], quote, bytesMode, Escape(s[1..], quote, bytesMode));
      ReadEscape(s[1..], quote, bytesMode);
      assert [s[0]] + s[1..] == s;
    }
  }

  /** Reads a str literal as repr writes it. */
  function EvalStr(lit: string): (s: Option<string>) {
    if |lit| >= 2 && IsQuote(lit[0]) && lit[|lit| - 1] == lit[0] then
      ReadBody(lit[1..|lit| - 1], lit[0], false)
    else None
  }

  /** Reads a bytes literal as repr writes it. */
  function EvalBytes(lit: string): (b: Option<Utf8.bytes>) {
    if |lit| >= 3 && lit[0] == 'b' && IsQuote(lit[1]) && lit[|lit| - 1] == lit[1] then
      match ReadBody(lit[2..|lit| - 1], lit[1], true)
      case Some(s) => Some(seq(|s|, i requires 0 <= i < |s| => s[i] as int))
      case None => None
    else None
  }

  /** Round trip: the str literal repr writes reads back as the original text. */
  lemma EvalStrRepr(s: string)
    ensures EvalStr(StrRepr(s)) == Some(s)
  {
    var q := QuoteFor('\'' in s, '"' in s);
    var lit := StrRepr(s);
    assert lit[1..|lit| - 1] == Escape(s, q, false);
    ReadEscape(s, q, false);
  }

  /** Round trip: the bytes literal repr writes reads back as the original bytes. */
  lemma EvalBytesRepr(b: Utf8.bytes)
    ensures EvalBytes(BytesRepr(b)) == Some(b)
  {
    var q := QuoteFor(0x27 in b, 0x22 in b);
    var lit := BytesRepr(b);
    var text := Latin1(b);
    assert lit[2..|lit| - 1] == Escape(text, q, true);
    ReadEscape(text, q, true);
    assert seq(|text|, i requires 0 <= i < |text| => text[i] as int) == b;
  }
}
