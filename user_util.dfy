/**
  The password helpers of the user service: the random password drawn from a fixed
  72-character set, the 16-byte salt in standard Base64 (section 4 of RFC 4648), and the
  hash of the salted password. The random source and bcrypt are oracles.
 */
module UserUtil {
  import opened Wrappers

  newtype uint8 = x: int | 0 <= x < 256

  const CharSet: string := "abcdefghijklmnopqrstuvwxyzABCDEFGHIJKLMNOPQRSTUVWXYZ0123456789!@#$%^&*()"

  const LengthError: string := "password length must be greater than zero"
  const SaltError: string := "ERROR_GENERATING_SALT"
  const HashError: string := "ERROR_GENERATING_HASH_PASSWORD"

  predicate IsAlphanumeric(c: char) {
    'a' <= c <= 'z' || 'A' <= c <= 'Z' || '0' <= c <= '9'
  }

  const Specials: string := "!@#$%^&*()"

  /** The set has 72 characters, the last ten neither letters nor digits. */
  lemma CharSetShape()
    ensures |CharSet| == 72 && CharSet[62..] == Specials
    ensures forall c :: c in Specials ==> !IsAlphanumeric(c)
  {
  }

  // ---------------------------------------------------------------------------
  // generateRandomPassword

  /** The random source yields indices into the character set. */
  ghost predicate ValidDraw(draw: nat -> Result<int, string>) {
    forall i :: draw(i).Ok? ==> 0 <= draw(i).value < |CharSet|
  }

  /**
    The first `k` characters drawn: `draw(i)` is the i-th call to the random source, an
    index into the character set or its error; the first error stops the drawing.
   */
  function Drawn(k: nat, draw: nat -> Result<int, string>): (r: Result<string, string>)
    requires ValidDraw(draw)
    ensures r.Ok? ==> |r.value| == k
    decreases k
  {
    if k == 0 then Ok("")
    else
      match Drawn(k - 1, draw)
      case Err(e) => Err(e)
      case Ok(p) =>
        match draw(k - 1)
        case Err(e) => Err(e)
        case Ok(ix) => Ok(p + [CharSet[ix]])
  }

  function RandomPassword(length: int, draw: nat -> Result<int, string>): (r: Result<string, string>)
    requires ValidDraw(draw)
    ensures length <= 0 ==> r == Err(LengthError)
    ensures length > 0 ==> r == Drawn(length, draw)
  {
    if length <= 0 then Err(LengthError) else Drawn(length, draw)
  }

  /** `generateRandomPassword`: fills a buffer of `length` characters, one draw each. */
  method GenerateRandomPassword(length: int, draw: nat -> Result<int, string>) returns (r: Result<string, string>)
    requires ValidDraw(draw)
    ensures r == RandomPassword(length, draw)
  {
    if length <= 0 {
      return Err(LengthError);
    }
    var password := new char[length];
    var i := 0;
    while i < length
      invariant 0 <= i <= length
      invariant Drawn(i, draw) == Ok(password[..i])
    {
      var randomIndex := draw(i);
      if randomIndex.Err? {
        DrawnStops(i + 1, length, draw);
        return Err(randomIndex.error);
      }
      password[i] := CharSet[randomIndex.value];
      assert password[..i + 1] == password[..i] + [CharSet[randomIndex.value]];
      i := i + 1;
    }
    assert password[..i] == password[..];
    r := Ok(password[..]);
  }

  /** Once a draw has failed, drawing more changes nothing. */
  lemma {:induction false} DrawnStops(j: nat, k: nat, draw: nat -> Result<int, string>)
    requires ValidDraw(draw)
    requires j <= k && Drawn(j, draw).Err?
    ensures Drawn(k, draw) == Drawn(j, draw)
    decreases k - j
  {
    if j < k {
      DrawnStops(j, k - 1, draw);
    }
  }

  /**
    A password drawn in full has `length` characters, the i-th being the character set's
    entry at the i-th draw; any other result is the error of the first failing draw.
   */
  lemma {:induction false} DrawnChars(k: nat, draw: nat -> Result<int, string>)
    requires ValidDraw(draw)
    ensures Drawn(k, draw).Ok? <==> forall i :: 0 <= i < k ==> draw(i).Ok?
    ensures Drawn(k, draw).Ok? ==> forall i :: 0 <= i < k ==> Drawn(k, draw).value[i] == CharSet[draw(i).value]
    ensures Drawn(k, draw).Err? ==> exists j :: 0 <= j < k && draw(j).Err? && Drawn(k, draw).error == draw(j).error
                                     && forall i :: 0 <= i < j ==> draw(i).Ok?
    decreases k
  {
    if k > 0 {
      DrawnChars(k - 1, draw);
      if Drawn(k - 1, draw).Ok? && draw(k - 1).Err? {
        assert forall i :: 0 <= i < k - 1 ==> draw(i).Ok?;
      }
    }
  }

  /** Every character of a generated password comes from the character set. */
  lemma PasswordFromCharSet(length: int, draw: nat -> Result<int, string>)
    requires ValidDraw(draw)
    requires RandomPassword(length, draw).Ok?
    ensures |RandomPassword(length, draw).value| == length
    ensures forall i :: 0 <= i < length ==> RandomPassword(length, draw).value[i] in CharSet
  {
    DrawnChars(length, draw);
    forall i | 0 <= i < length ensures RandomPassword(length, draw).value[i] in CharSet {
      assert RandomPassword(length, draw).value[i] == CharSet[draw(i).value];
    }
  }

  // ---------------------------------------------------------------------------
  // Standard Base64

  /** The Base64 alphabet: A-Z, a-z, 0-9, '+', '/'. */
  function Sextet(v: int): (c: char)
    requires 0 <= v < 64
    ensures c != '='
  {
    if v < 26 then ('A' as int + v) as char
    else if v < 52 then ('a' as int + v - 26) as char
    else if v < 62 then ('0' as int + v - 52) as char
    else if v == 62 then '+'
    else '/'
  }

  /** The value of an alphabet character; 0 for any other. */
  function SextetValue(c: char): (v: int)
    ensures 0 <= v < 64
  {
    if 'A' <= c <= 'Z' then c as int - 'A' as int
    else if 'a' <= c <= 'z' then c as int - 'a' as int + 26
    else if '0' <= c <= '9' then c as int - '0' as int + 52
    else if c == '+' then 62
    else if c == '/' then 63
    else 0
  }

  lemma SextetInverse(v: int)
    requires 0 <= v < 64
    ensures SextetValue(Sextet(v)) == v
  {
  }

  predicate IsByte(x: int) {
    0 <= x < 256
  }

  /** Three bytes as four characters. */
  function Quad(b0: int, b1: int, b2: int): (s: string)
    requires IsByte(b0) && IsByte(b1) && IsByte(b2)
    ensures |s| == 4 && s[2] != '=' && s[3] != '='
  {
    [Sextet(b0 / 4), Sextet((b0 % 4) * 16 + b1 / 16), Sextet((b1 % 16) * 4 + b2 / 64), Sextet(b2 % 64)]
  }

  /** A last group of one byte: two characters and two '='. */
  function Pad1(b0: int): (s: string)
    requires IsByte(b0)
    ensures |s| == 4 && s[1] != '=' && s[2] == '=' && s[3] == '='
  {
    [Sextet(b0 / 4), Sextet((b0 % 4) * 16), '=', '=']
  }

  /** A last group of two bytes: three characters and one '='. */
  function Pad2(b0: int, b1: int): (s: string)
    requires IsByte(b0) && IsByte(b1)
    ensures |s| == 4 && s[2] != '=' && s[3] == '='
  {
    [Sextet(b0 / 4), Sextet((b0 % 4) * 16 + b1 / 16), Sextet((b1 % 16) * 4), '=']
  }

  /** Standard Base64: three bytes to four characters, a short last group padded with '='. */
  function Encode(b: seq<uint8>): (s: string)
    decreases |b|
  {
    if |b| == 0 then ""
    else if |b| == 1 then Pad1(b[0] as int)
    else if |b| == 2 then Pad2(b[0] as int, b[1] as int)
    else Quad(b[0] as int, b[1] as int, b[2] as int) + Encode(b[3..])
  }

  /** Four characters back to bytes; '=' padding ends the data. */
  function Decode(s: string): (b: seq<uint8>)
    decreases |s|
  {
    if |s| < 4 then []
    else
      var c0, c1, c2, c3 := SextetValue(s[0]), SextetValue(s[1]), SextetValue(s[2]), SextetValue(s[3]);
      var b0 := (c0 * 4 + c1 / 16) as uint8;
      if s[2] == '=' then [b0]
      else
        var b1 := ((c1 % 16) * 16 + c2 / 4) as uint8;
        if s[3] == '=' then [b0, b1]
        else [b0, b1, ((c2 % 4) * 64 + c3) as uint8] + Decode(s[4..])
  }

  /** The sextets of three bytes give the three bytes back. */
  lemma GroupRoundTrip(b0: int, b1: int, b2: int)
    requires IsByte(b0) && IsByte(b1) && IsByte(b2)
    ensures var c0, c1, c2, c3 := b0 / 4, (b0 % 4) * 16 + b1 / 16, (b1 % 16) * 4 + b2 / 64, b2 % 64;
      0 <= c1 < 64 && 0 <= c2 < 64
      && c0 * 4 + c1 / 16 == b0 && (c1 % 16) * 16 + c2 / 4 == b1 && (c2 % 4) * 64 + c3 == b2
  {
  }

  /** One full group decodes to its three bytes, then the rest decodes. */
  lemma DecodeQuad(b0: int, b1: int, b2: int, rest: string)
    requires IsByte(b0) && IsByte(b1) && IsByte(b2)
    ensures Decode(Quad(b0, b1, b2) + rest) == [b0 as uint8, b1 as uint8, b2 as uint8] + Decode(rest)
  {
    GroupRoundTrip(b0, b1, b2);
    SextetInverse(b0 / 4);
    SextetInverse((b0 % 4) * 16 + b1 / 16);
    SextetInverse((b1 % 16) * 4 + b2 / 64);
    SextetInverse(b2 % 64);
    var s := Quad(b0, b1, b2) + rest;
    assert s[..4] == Quad(b0, b1, b2) && s[4..] == rest;
  }

  lemma DecodePad1(b0: int)
    requires IsByte(b0)
    ensures Decode(Pad1(b0)) == [b0 as uint8]
  {
    GroupRoundTrip(b0, 0, 0);
    SextetInverse(b0 / 4);
    SextetInverse((b0 % 4) * 16);
  }

  lemma DecodePad2(b0: int, b1: int)
    requires IsByte(b0) && IsByte(b1)
    ensures Decode(Pad2(b0, b1)) == [b0 as uint8, b1 as uint8]
  {
    GroupRoundTrip(b0, b1, 0);
    SextetInverse(b0 / 4);
    SextetInverse((b0 % 4) * 16 + b1 / 16);
    SextetInverse((b1 % 16) * 4);
  }

  /** Decoding an encoding gives the bytes back. */
  lemma {:induction false} DecodeEncode(b: seq<uint8>)
    ensures Decode(Encode(b)) == b
    decreases |b|
  {
    if |b| == 1 {
      DecodePad1(b[0] as int);
    } else if |b| == 2 {
      DecodePad2(b[0] as int, b[1] as int);
    } else if |b| >= 3 {
      DecodeQuad(b[0] as int, b[1] as int, b[2] as int, Encode(b[3..]));
      DecodeEncode(b[3..]);
      assert b == [b[0], b[1], b[2]] + b[3..];
    }
  }

  /** `generateSalt`: 16 random bytes in Base64, or the salt error when the source fails. */
  function GenerateSalt(random: Option<seq<uint8>>): (r: Result<string, string>)
    requires random.Some? ==> |random.value| == 16
    ensures random.None? <==> r == Err(SaltError)
    ensures r.Ok? ==> r.value == Encode(random.value)
  {
    if random.None? then Err(SaltError) else Ok(Encode(random.value))
  }

  /** A salt is 24 characters, the last two of them padding, and it decodes to its bytes. */
  lemma SaltShape(random: seq<uint8>)
    requires |random| == 16
    ensures var s := GenerateSalt(Some(random)).value;
      |s| == 24 && s[22] == '=' && s[23] == '=' && s[21] != '=' && Decode(s) == random
  {
    DecodeEncode(random);
    EncodeLength(random, 6);
    SaltTail(random, 5);
  }

  /** Four characters per started group of three bytes. */
  lemma {:induction false} EncodeLength(b: seq<uint8>, k: nat)
    requires 3 * k < |b| + 3 <= 3 * k + 3
    ensures |Encode(b)| == 4 * k
    decreases k
  {
    if |b| >= 3 {
      EncodeLength(b[3..], k - 1);
    }
  }

  /** With one byte left over, the encoding ends with that byte's padded group. */
  lemma {:induction false} SaltTail(b: seq<uint8>, k: nat)
    requires |b| == 3 * k + 1
    ensures var s := Encode(b); |s| >= 4 && s[|s| - 4..] == Pad1(b[|b| - 1] as int)
    decreases k
  {
    if k > 0 {
      SaltTail(b[3..], k - 1);
      var rest := Encode(b[3..]);
      var s := Encode(b);
      assert s == Quad(b[0] as int, b[1] as int, b[2] as int) + rest;
      assert s[|s| - 4..] == rest[|rest| - 4..];
      assert b[3..][|b[3..]| - 1] == b[|b| - 1];
    }
  }

  /** `hashPassword`: bcrypt of the password with the salt appended, or the hash error. */
  function HashPassword(password: string, salt: string, bcrypt: string -> Option<string>): (r: Result<string, string>)
    ensures bcrypt(password + salt).Some? ==> r == Ok(bcrypt(password + salt).value)
    ensures bcrypt(password + salt).None? ==> r == Err(HashError)
  {
    match bcrypt(password + salt)
    case Some(h) => Ok(h)
    case None => Err(HashError)
  }
}
