/** Python's decimal text of an `int` (`str(n)`, `repr(n)`) and `int(b)` on a `bytes`
    value with the default base 10. */
module PyInt {
  import opened Wrappers
  import Utf8

  /** The decimal digits of `n`, most significant first, with no leading zero. */
  function Digits(n: nat): (s: string)
    ensures |s| > 0
    ensures forall i :: 0 <= i < |s| ==> '0' <= s[i] <= '9'
    ensures s[0] == '0' ==> n == 0
    decreases n
  {
    if n < 10 then [(48 + n) as char] else Digits(n / 10) + [(48 + n % 10) as char]
  }

  /** `str(n)`: a minus sign for a negative number, then the digits of its magnitude. */
  function Str(n: int): (s: string) {
    if n < 0 then "-" + Digits(-n) else Digits(n)
  }

  /** The ASCII whitespace that `int()` skips around a number: space, \t, \n, \v, \f, \r. */
  predicate IsSpace(b: Utf8.byte) {
    b == 0x20 || 0x09 <= b <= 0x0D
  }

  predicate IsDigit(b: Utf8.byte) {
    0x30 <= b <= 0x39
  }

  const Underscore: Utf8.byte := 0x5F

  function TrimLeft(s: Utf8.bytes): (r: Utf8.bytes)
    ensures |r| <= |s|
  {
    if s != [] && IsSpace(s[0]) then TrimLeft(s[1..]) else s
  }

  function TrimRight(s: Utf8.bytes): (r: Utf8.bytes)
    ensures |r| <= |s|
  {
    if s != [] && IsSpace(s[|s| - 1]) then TrimRight(s[..|s| - 1]) else s
  }

  /** Digits in which every underscore stands between two digits: at least one digit,
      no leading, trailing or doubled underscore. */
  predicate WellFormedDigits(s: Utf8.bytes) {
    && |s| > 0
    && (forall i :: 0 <= i < |s| ==> IsDigit(s[i]) || s[i] == Underscore)
    && IsDigit(s[0]) && IsDigit(s[|s| - 1])
    && (forall i, j :: 0 <= i < |s| && 0 <= j < |s| && j == i + 1 ==> IsDigit(s[i]) || IsDigit(s[j]))
  }

  /** The number the digits of `s` spell, underscores ignored. */
  function DigitsValue(s: Utf8.bytes): (n: nat)
    requires forall i :: 0 <= i < |s| ==> IsDigit(s[i]) || s[i] == Underscore
  {
    if s == [] then 0
    else if s[|s| - 1] == Underscore then DigitsValue(s[..|s| - 1])
    else
      assert IsDigit(s[|s| - 1]);
      DigitsValue(s[..|s| - 1]) * 10 + (s[|s| - 1] as int - 0x30)
  }

  /** `int(b)`: optional whitespace, an optional sign, well-formed digits, optional
      whitespace; anything else raises ValueError. */
  function Parse(b: Utf8.bytes): (r: Result<int, Exception>)
    ensures r.Err? ==> r.error == ValueError
  {
    var t := TrimRight(TrimLeft(b));
    if t == [] then Err(ValueError)
    else
      var negative := t[0] == 0x2D;
      var body := if t[0] == 0x2D || t[0] == 0x2B then t[1..] else t;
      if !WellFormedDigits(body) then Err(ValueError)
      else
        var magnitude: int := DigitsValue(body);
        Ok(if negative then -magnitude else magnitude)
  }

  /** The digits of `n`, encoded, spell `n`. */
  lemma {:induction false} DigitsValueOfDigits(n: nat)
    ensures var d := Utf8.Encode(Digits(n));
      && (forall i :: 0 <= i < |d| ==> IsDigit(d[i]))
      && WellFormedDigits(d)
      && DigitsValue(d) == n
  {
    Utf8.EncodeAscii(Digits(n));
    var d := Utf8.Encode(Digits(n));
    if n >= 10 {
      DigitsValueOfDigits(n / 10);
      var init := Utf8.Encode(Digits(n / 10));
      var last := (48 + n % 10) as char;
      Utf8.EncodeAppend(Digits(n / 10), [last]);
      assert d == init + [48 + n % 10];
      assert d[..|d| - 1] == init;
    }
  }

  /** The encoding of `str(n)`: a minus byte for a negative number, then the encoded digits. */
  lemma EncodeStr(n: int)
    ensures Utf8.Encode(Str(n))
         == (if n < 0 then [0x2D] else []) + Utf8.Encode(Digits(if n < 0 then -n else n))
  {
    if n < 0 {
      Utf8.EncodeAppend("-", Digits(-n));
      assert Utf8.Encode("-") == [0x2D];
    }
  }

  /** `int()` of well-formed plain digits is their value. */
  lemma ParseDigits(d: Utf8.bytes)
    requires WellFormedDigits(d) && forall i :: 0 <= i < |d| ==> IsDigit(d[i])
    ensures Parse(d) == Ok(DigitsValue(d))
  {
    assert TrimLeft(d) == d;
    assert TrimRight(d) == d;
  }

  /** `int()` of a minus byte followed by well-formed plain digits is their value negated. */
  lemma ParseMinusDigits(e: Utf8.bytes)
    requires |e| > 1 && e[0] == 0x2D
    requires WellFormedDigits(e[1..]) && forall i :: 1 <= i < |e| ==> IsDigit(e[i])
    ensures Parse(e) == Ok(-(DigitsValue(e[1..]) as int))
  {
    assert TrimLeft(e) == e;
    assert TrimRight(e) == e;
  }

  /** Round trip: `int(str(n).encode())` is `n`. */
  lemma ParseStr(n: int)
    ensures Parse(Utf8.Encode(Str(n))) == Ok(n)
  {
    var m := if n < 0 then -n else n;
    DigitsValueOfDigits(m);
    EncodeStr(n);
    if n < 0 {
      var e := Utf8.Encode(Str(n));
      assert e[1..] == Utf8.Encode(Digits(m));
      ParseMinusDigits(e);
    } else {
      ParseDigits(Utf8.Encode(Digits(m)));
    }
  }
}
