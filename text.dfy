/**
  String helpers shared by the channels and the dispatcher: Go's `strings.Split`
  on a one-character separator, `strconv.Itoa` and `strconv.ParseInt(s, 10, 64)`.
  Strings are sequences of Unicode scalar values.
 */
module Text {
  import opened Wrappers

  /** `strings.Split(s, string(sep))`: the pieces between separators; "" gives [""]. */
  function Split(s: string, sep: char): (r: seq<string>)
    ensures |r| >= 1
    decreases |s|
  {
    if |s| == 0 then [""]
    else
      var rest := Split(s[1..], sep);
      if s[0] == sep then [""] + rest else [[s[0]] + rest[0]] + rest[1..]
  }

  /** Splitting after a separator-free prefix and a separator yields that prefix first. */
  lemma {:induction false} SplitAfterPiece(a: string, b: string, sep: char)
    requires sep !in a
    ensures Split(a + [sep] + b, sep) == [a] + Split(b, sep)
    decreases |a|
  {
    if |a| == 0 {
      assert a + [sep] + b == [sep] + b;
      assert ([sep] + b)[1..] == b;
    } else {
      SplitAfterPiece(a[1..], b, sep);
      assert (a + [sep] + b)[1..] == a[1..] + [sep] + b;
      assert [a[0]] + a[1..] == a;
    }
  }

  /** A string without the separator splits into itself alone. */
  lemma {:induction false} SplitWithout(s: string, sep: char)
    requires sep !in s
    ensures Split(s, sep) == [s]
    decreases |s|
  {
    if |s| > 0 {
      SplitWithout(s[1..], sep);
      assert [s[0]] + s[1..] == s;
    }
  }

  predicate IsDigit(c: char) {
    '0' <= c <= '9'
  }

  function DigitChar(d: nat): (c: char)
    requires d < 10
    ensures IsDigit(c)
  {
    "0123456789"[d]
  }

  function DigitValue(c: char): (d: nat)
    requires IsDigit(c)
    ensures d < 10
  {
    (c as int - '0' as int) as nat
  }

  /** The decimal digits of a natural number, most significant first, no leading zero. */
  function NatToDecimal(n: nat): (s: string)
    ensures |s| >= 1 && IsDigit(s[0])
    decreases n
  {
    if n < 10 then [DigitChar(n)] else NatToDecimal(n / 10) + [DigitChar(n % 10)]
  }

  /** `strconv.Itoa`. */
  function IntToDecimal(n: int): (s: string)
    ensures |s| >= 1
  {
    if n < 0 then "-" + NatToDecimal(-n) else NatToDecimal(n)
  }

  /** The value of a string of decimal digits, or None when some character is not a digit. */
  function Digits(s: string): (r: Option<nat>)
    decreases |s|
  {
    if |s| == 0 then Some(0)
    else
      var init := Digits(s[..|s| - 1]);
      if init.None? || !IsDigit(s[|s| - 1]) then None
      else Some(init.value * 10 + DigitValue(s[|s| - 1]))
  }

  const MinInt64: int := -0x8000_0000_0000_0000
  const MaxInt64: int := 0x7FFF_FFFF_FFFF_FFFF

  /**
    `strconv.ParseInt(s, 10, 64)`: an optional sign, at least one decimal digit and
    nothing else, and the value must fit in 64 bits; otherwise an error (None).
   */
  function ParseInt64(s: string): (r: Option<int>)
    ensures r.Some? ==> MinInt64 <= r.value <= MaxInt64
  {
    if |s| == 0 then None
    else
      var body := if s[0] == '-' || s[0] == '+' then s[1..] else s;
      var mag := Digits(body);
      if |body| == 0 || mag.None? then None
      else
        var m: int := mag.value;
        var v := if s[0] == '-' then -m else m;
        if MinInt64 <= v <= MaxInt64 then Some(v) else None
  }

  lemma {:induction false} DigitsOfDecimal(n: nat)
    ensures Digits(NatToDecimal(n)) == Some(n)
    decreases n
  {
    var s := NatToDecimal(n);
    if n < 10 {
      assert s[..0] == [];
    } else {
      DigitsOfDecimal(n / 10);
      assert s[..|s| - 1] == NatToDecimal(n / 10);
    }
  }

  /** `strconv.ParseInt` reads back what `strconv.Itoa` wrote, for every 64-bit value. */
  lemma ParseItoa(n: int)
    requires MinInt64 <= n <= MaxInt64
    ensures ParseInt64(IntToDecimal(n)) == Some(n)
  {
    var s := IntToDecimal(n);
    if n < 0 {
      var d := NatToDecimal(-n);
      DigitsOfDecimal(-n);
      assert s == "-" + d && s[0] == '-' && s[1..] == d;
    } else {
      DigitsOfDecimal(n);
      assert s[0] != '-' && s[0] != '+' by { assert IsDigit(s[0]); }
    }
  }

  const MaxUint64: int := 0xFFFF_FFFF_FFFF_FFFF

  /** How `strconv.ParseInt(s, 10, 64)` ends: a value, or the kind of error it reports. */
  datatype IntParse = Parsed(value: int) | SyntaxError | RangeError

  /**
    `strconv.ParseUint(s, 10, 64)` reading `s` left to right: the first character that is
    not a digit is a syntax error, and the first prefix whose value passes the unsigned
    64-bit range is a range error, whatever follows it. The empty run reads as 0 here;
    the caller rejects an empty body before scanning.
   */
  function ScanUint64(s: string): (r: IntParse)
    ensures r.Parsed? ==> 0 <= r.value <= MaxUint64
    decreases |s|
  {
    if |s| == 0 then Parsed(0)
    else
      var init := ScanUint64(s[..|s| - 1]);
      if !init.Parsed? then init
      else if !IsDigit(s[|s| - 1]) then SyntaxError
      else
        var v := init.value * 10 + DigitValue(s[|s| - 1]);
        if v > MaxUint64 then RangeError else Parsed(v)
  }

  /**
    `strconv.ParseInt(s, 10, 64)` with the kind of its error: an empty string or an empty
    body after the sign is a syntax error, the unsigned scan's error is passed on, and a
    magnitude beyond the signed range is a range error.
   */
  function ParseIntOutcome(s: string): (r: IntParse)
    ensures r.Parsed? ==> MinInt64 <= r.value <= MaxInt64
  {
    if |s| == 0 then SyntaxError
    else
      var body := if s[0] == '-' || s[0] == '+' then s[1..] else s;
      if |body| == 0 then SyntaxError
      else
        var u := ScanUint64(body);
        if !u.Parsed? then u
        else if s[0] == '-' then (if u.value > -MinInt64 then RangeError else Parsed(-u.value))
        else if u.value > MaxInt64 then RangeError else Parsed(u.value)
  }

  /** The left-to-right scan succeeds exactly on digit strings within 64 bits, with their value. */
  lemma {:induction false} ScanAgreesWithDigits(s: string)
    ensures ScanUint64(s).Parsed? <==> Digits(s).Some? && Digits(s).value <= MaxUint64
    ensures ScanUint64(s).Parsed? ==> ScanUint64(s).value == Digits(s).value
    ensures ScanUint64(s).SyntaxError? ==> Digits(s).None?
    decreases |s|
  {
    if |s| > 0 {
      ScanAgreesWithDigits(s[..|s| - 1]);
    }
  }

  /** `ParseInt64` fails exactly when `strconv.ParseInt` reports an error, and agrees on the value. */
  lemma ParseOutcomeAgrees(s: string)
    ensures ParseInt64(s) == (if ParseIntOutcome(s).Parsed? then Some(ParseIntOutcome(s).value) else None)
  {
    if |s| > 0 {
      var body := if s[0] == '-' || s[0] == '+' then s[1..] else s;
      ScanAgreesWithDigits(body);
    }
  }

  /** A digit string whose value does not fit the signed range is a range error, not a syntax error. */
  lemma OutOfRangeIsRangeError(s: string)
    requires |s| > 0 && Digits(s).Some? && Digits(s).value > MaxInt64
    ensures ParseInt64(s).None? && ParseIntOutcome(s).RangeError?
  {
    assert IsDigit(s[0]) by {
      assert s[..1][..0] == [];
      DigitsPrefix(s, 1);
    }
    ScanAgreesWithDigits(s);
  }

  /** A prefix of a digit string is a digit string. */
  lemma {:induction false} DigitsPrefix(s: string, k: nat)
    requires k <= |s| && Digits(s).Some?
    ensures Digits(s[..k]).Some?
    decreases |s|
  {
    if k < |s| {
      assert s[..|s| - 1][..k] == s[..k];
      DigitsPrefix(s[..|s| - 1], k);
    } else {
      assert s[..k] == s;
    }
  }

  function Pow10(n: nat): (p: nat)
    ensures p >= 1
  {
    if n == 0 then 1 else 10 * Pow10(n - 1)
  }

  /** A run of at most `n` characters never passes the unsigned range and scans below 10^n. */
  lemma {:induction false} ScanShort(s: string)
    requires |s| <= 19
    ensures !ScanUint64(s).RangeError?
    ensures ScanUint64(s).Parsed? ==> ScanUint64(s).value < Pow10(|s|)
    decreases |s|
  {
    if |s| > 0 {
      ScanShort(s[..|s| - 1]);
      Pow10Monotone(|s|, 19);
      Pow10Values();
    }
  }

  lemma {:induction false} Pow10Monotone(m: nat, n: nat)
    requires m <= n
    ensures Pow10(m) <= Pow10(n)
    decreases n
  {
    if m < n {
      Pow10Monotone(m, n - 1);
    }
  }

  lemma {:induction false} Pow10Add(a: nat, b: nat)
    ensures Pow10(a + b) == Pow10(a) * Pow10(b)
    decreases a
  {
    if a > 0 {
      Pow10Add(a - 1, b);
    }
  }

  lemma Pow10Values()
    ensures Pow10(18) == 1_000_000_000_000_000_000
    ensures Pow10(19) == 10_000_000_000_000_000_000
  {
    assert Pow10(3) == 1000 by {
      assert Pow10(1) == 10;
    }
    Pow10Add(3, 3);
    Pow10Add(6, 6);
    Pow10Add(6, 12);
  }

  /**
    Every failure of a string of at most 18 characters is a syntax error: no such string
    holds a magnitude beyond the 64-bit range.
   */
  lemma ShortFailureIsSyntaxError(s: string)
    requires |s| <= 18 && ParseInt64(s).None?
    ensures ParseIntOutcome(s).SyntaxError?
  {
    ParseOutcomeAgrees(s);
    if |s| > 0 {
      var body := if s[0] == '-' || s[0] == '+' then s[1..] else s;
      ScanShort(body);
      Pow10Monotone(|body|, 18);
      Pow10Values();
    }
  }

  /** The lower-case hexadecimal digit of a value below 16. */
  function HexChar(d: nat): (c: char)
    requires d < 16
  {
    if d < 10 then ('0' as int + d) as char else ('a' as int + d - 10) as char
  }

  /** The value of a hexadecimal digit of either case. */
  function HexValue(c: char): (r: Option<nat>)
    ensures r.Some? ==> r.value < 16
  {
    if '0' <= c <= '9' then Some(c as int - '0' as int)
    else if 'a' <= c <= 'f' then Some(c as int - 'a' as int + 10)
    else if 'A' <= c <= 'F' then Some(c as int - 'A' as int + 10)
    else None
  }

  function HexPair(hi: char, lo: char): (r: Option<nat>)
    ensures r.Some? ==> r.value < 256
  {
    if HexValue(hi).None? || HexValue(lo).None? then None
    else Some(HexValue(hi).value * 16 + HexValue(lo).value)
  }

  /**
    One character as `strconv.Quote` writes it: a double quote and a backslash behind a
    backslash, printable ASCII as it is, the seven named control escapes, other ASCII
    controls as `\xhh`, the C1 controls U+0080..U+009F as `\u00hh`, and every other
    character as it is.
   */
  function QuoteChar(c: char): (t: string)
    ensures |t| >= 1
  {
    var n := c as int;
    if c == '"' || c == '\\' then ['\\', c]
    else if 0x20 <= n < 0x7F || n >= 0xA0 then [c]
    else if n == 7 then "\\a"
    else if n == 8 then "\\b"
    else if n == 12 then "\\f"
    else if n == 10 then "\\n"
    else if n == 13 then "\\r"
    else if n == 9 then "\\t"
    else if n == 11 then "\\v"
    else if n < 0x80 then "\\x" + [HexChar(n / 16), HexChar(n % 16)]
    else "\\u00" + [HexChar(n / 16), HexChar(n % 16)]
  }

  function QuoteBody(s: string): (t: string)
    ensures |t| >= |s|
    decreases |s|
  {
    if |s| == 0 then "" else QuoteChar(s[0]) + QuoteBody(s[1..])
  }

  /** `strconv.Quote`: the string between double quotes, each character escaped as Go does. */
  function Quote(s: string): (q: string)
    ensures |q| >= |s| + 2 && q[0] == '"' && q[|q| - 1] == '"'
  {
    "\"" + QuoteBody(s) + "\""
  }

  /** Printable ASCII other than the double quote and the backslash: what `Quote` copies. */
  predicate Plain(s: string) {
    forall i :: 0 <= i < |s| ==> 0x20 <= s[i] as int < 0x7F && s[i] != '"' && s[i] != '\\'
  }

  /** Quoting a plain string only adds the surrounding double quotes. */
  lemma {:induction false} QuotePlain(s: string)
    requires Plain(s)
    ensures Quote(s) == "\"" + s + "\""
    ensures QuoteBody(s) == s
    decreases |s|
  {
    if |s| > 0 {
      assert Plain(s[1..]) by {
        forall i | 0 <= i < |s[1..]| ensures 0x20 <= s[1..][i] as int < 0x7F {
          assert s[1..][i] == s[i + 1];
        }
      }
      QuotePlain(s[1..]);
      assert [s[0]] + s[1..] == s;
    }
  }

  /** A digit string is plain: `Quote` copies it. */
  lemma DigitsArePlain(s: string)
    requires Digits(s).Some?
    ensures Plain(s)
  {
    forall i | 0 <= i < |s| ensures IsDigit(s[i]) {
      DigitsPrefix(s, i + 1);
      assert s[..i + 1][..i] == s[..i];
    }
  }

  function Cons(c: char, r: Option<string>): Option<string> {
    if r.None? then None else Some([c] + r.value)
  }

  /** The character a one-letter escape stands for, or None for a letter that is not one. */
  function SimpleEscape(e: char): Option<char> {
    if e == 'a' then Some(7 as char)
    else if e == 'b' then Some(8 as char)
    else if e == 'f' then Some(12 as char)
    else if e == 'n' then Some(10 as char)
    else if e == 'r' then Some(13 as char)
    else if e == 't' then Some(9 as char)
    else if e == 'v' then Some(11 as char)
    else if e == '\\' || e == '"' then Some(e)
    else None
  }

  /**
    The inside of a double-quoted Go string literal read back, as `strconv.Unquote` does
    for the escapes `Quote` writes: one-letter escapes, `\xhh` below 0x80 and `\uhhhh`
    outside the surrogates; a bare double quote or any other backslash is an error.
   */
  function UnquoteBody(t: string): (r: Option<string>)
    decreases |t|
  {
    if |t| == 0 then Some("")
    else if t[0] == '"' then None
    else if t[0] != '\\' then Cons(t[0], UnquoteBody(t[1..]))
    else if |t| < 2 then None
    else if t[1] == 'x' then
      if |t| < 4 then None
      else
        var v := HexPair(t[2], t[3]);
        if v.None? || v.value >= 0x80 then None else Cons(v.value as char, UnquoteBody(t[4..]))
    else if t[1] == 'u' then
      if |t| < 6 then None
      else
        var hi := HexPair(t[2], t[3]);
        var lo := HexPair(t[4], t[5]);
        if hi.None? || lo.None? || 0xD8 <= hi.value < 0xE0 then None
        else Cons((hi.value * 256 + lo.value) as char, UnquoteBody(t[6..]))
    else if SimpleEscape(t[1]).None? then None
    else Cons(SimpleEscape(t[1]).value, UnquoteBody(t[2..]))
  }

  /** `strconv.Unquote` on a double-quoted literal. */
  function Unquote(q: string): Option<string> {
    if |q| < 2 || q[0] != '"' || q[|q| - 1] != '"' then None
    else UnquoteBody(q[1..|q| - 1])
  }

  lemma HexCharValue(d: nat)
    requires d < 16
    ensures HexValue(HexChar(d)) == Some(d)
  {
  }

  /** Reading back one quoted character leaves the rest to be read. */
  lemma UnquoteChar(c: char, rest: string)
    ensures UnquoteBody(QuoteChar(c) + rest) == Cons(c, UnquoteBody(rest))
  {
    var n := c as int;
    var t := QuoteChar(c) + rest;
    if c == '"' || c == '\\' {
      assert t[2..] == rest;
    } else if 0x20 <= n < 0x7F || n >= 0xA0 {
      assert t[1..] == rest;
    } else if n == 7 || n == 8 || n == 12 || n == 10 || n == 13 || n == 9 || n == 11 {
      assert t[2..] == rest;
    } else if n < 0x80 {
      HexCharValue(n / 16);
      HexCharValue(n % 16);
      assert t[4..] == rest;
      assert (n as char) == c;
    } else {
      HexCharValue(0);
      HexCharValue(n / 16);
      HexCharValue(n % 16);
      assert t[2] == '0' == HexChar(0) && t[3] == '0';
      assert t[6..] == rest;
      assert ((0 * 256 + n) as char) == c;
    }
  }

  /** `strconv.Unquote(strconv.Quote(s)) == s`: quoting loses nothing. */
  lemma {:induction false} QuoteRoundTrip(s: string)
    ensures UnquoteBody(QuoteBody(s)) == Some(s)
    ensures Unquote(Quote(s)) == Some(s)
    decreases |s|
  {
    if |s| > 0 {
      QuoteRoundTrip(s[1..]);
      UnquoteChar(s[0], QuoteBody(s[1..]));
      assert [s[0]] + s[1..] == s;
    }
    var q := Quote(s);
    assert q[1..|q| - 1] == QuoteBody(s);
  }
}
