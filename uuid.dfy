/**
  The version-7 UUID generator: 48 bits of Unix milliseconds, big-endian, then the
  version nibble 7 (section 5.7 of RFC 9562), 12 random bits, the variant bits 0b10
  (section 4.1 of RFC 9562) and 62 more random bits. The clock and the random source
  are parameters. Bytes are integers 0..255, so the source's masks appear in their
  arithmetic form: `x & 0x0F` is `x % 16`, `x >> 4` is `x / 16`, and setting high bits
  over a masked value is adding them.
 */
module Uuid {
  import opened Wrappers
  import UserUtil

  type byte = UserUtil.uint8

  const MinInt64: int := -0x8000_0000_0000_0000
  const MaxInt64: int := 0x7FFF_FFFF_FFFF_FFFF

  const Two48: int := 0x1_0000_0000_0000
  const Two64: int := 0x1_0000_0000_0000_0000

  /** `uint64(ms)`: the signed millisecond count reinterpreted as unsigned. */
  function Timestamp(ms: int): (t: nat)
    requires MinInt64 <= ms <= MaxInt64
    ensures t < Two64
    ensures ms >= 0 ==> t == ms
    ensures ms < 0 ==> t == ms + Two64
  {
    if ms < 0 then ms + Two64 else ms
  }

  /** `byte(t >> shift)`: bits shift..shift+7 of the unsigned timestamp. */
  function Byte(t: nat, shift: nat): byte
    requires shift in {0, 8, 16, 24, 32, 40}
  {
    var d := if shift == 40 then 0x100_0000_0000 else if shift == 32 then 0x1_0000_0000
      else if shift == 24 then 0x100_0000 else if shift == 16 then 0x1_0000 else if shift == 8 then 0x100 else 1;
    ((t / d) % 256) as byte
  }

  /** The sixteen bytes `New` writes for timestamp `t` and ten random bytes `r`. */
  function Layout(t: nat, r: seq<byte>): (u: seq<byte>)
    requires |r| == 10
    ensures |u| == 16
    ensures u[6] / 16 == 7 && u[6] % 16 == r[0] % 16
    ensures u[7] == r[1]
    ensures u[8] / 64 == 2 && u[8] % 64 == r[2] % 64
    ensures u[9..] == r[3..]
  {
    [Byte(t, 40), Byte(t, 32), Byte(t, 24), Byte(t, 16), Byte(t, 8), Byte(t, 0),
     0x70 + r[0] % 16, r[1], 0x80 + r[2] % 64] + r[3..]
  }

  /** Six bytes read back as a big-endian 48-bit number. */
  function Join48(b: seq<byte>): int
    requires |b| >= 6
  {
    b[0] as int * 0x100_0000_0000 + b[1] as int * 0x1_0000_0000 + b[2] as int * 0x100_0000
      + b[3] as int * 0x1_0000 + b[4] as int * 0x100 + b[5] as int
  }

  /** Dividing by `d` and then by 256 is dividing by `256 * d`, for the shifts the layout uses. */
  lemma DivideFurther(t: nat, d: nat)
    requires d in {0x100_0000_0000, 0x1_0000_0000, 0x100_0000, 0x1_0000, 0x100, 1}
    ensures t / d == (t / (d * 256)) * 256 + (t / d) % 256
  {
    var x := t / d;
    assert t == x * d + t % d;
    var y := x / 256;
    assert x == y * 256 + x % 256;
    assert t == y * (d * 256) + ((x % 256) * d + t % d);
    assert 0 <= (x % 256) * d + t % d < d * 256;
  }

  /** The first six bytes are the timestamp's low 48 bits, most significant first. */
  lemma LayoutTimestamp(t: nat, r: seq<byte>)
    requires |r| == 10
    ensures Join48(Layout(t, r)) == t % Two48
  {
    var u := Layout(t, r);
    DivideFurther(t, 0x100_0000_0000);
    DivideFurther(t, 0x1_0000_0000);
    DivideFurther(t, 0x100_0000);
    DivideFurther(t, 0x1_0000);
    DivideFurther(t, 0x100);
    DivideFurther(t, 1);
    assert t == (t / Two48) * Two48 + Join48(u);
    assert 0 <= Join48(u) < Two48;
  }

  /** A non-negative millisecond count below 2^48 is recovered exactly from the identifier. */
  lemma MillisecondsReadBack(ms: int, r: seq<byte>)
    requires 0 <= ms < Two48 && |r| == 10
    ensures Join48(Layout(Timestamp(ms), r)) == ms
  {
    LayoutTimestamp(ms, r);
  }

  /** `a` sorts before `b` byte by byte. */
  predicate LexLess(a: seq<byte>, b: seq<byte>) {
    exists k :: 0 <= k < |a| && k < |b| && a[..k] == b[..k] && a[k] < b[k]
  }

  /** Identifiers from a later millisecond (within 2^48) sort after earlier ones, whatever their random bits. */
  lemma LaterSortsAfter(t1: nat, t2: nat, r1: seq<byte>, r2: seq<byte>)
    requires |r1| == 10 && |r2| == 10
    requires t1 % Two48 < t2 % Two48
    ensures LexLess(Layout(t1, r1), Layout(t2, r2))
  {
    var a, b := Layout(t1, r1), Layout(t2, r2);
    LayoutTimestamp(t1, r1);
    LayoutTimestamp(t2, r2);
    var k := FirstDifference(a[..6], b[..6]);
    assert a[..k] == a[..6][..k] && b[..k] == b[..6][..k];
  }

  /** The first of six big-endian bytes where a smaller number differs from a larger one is smaller. */
  lemma FirstDifference(a: seq<byte>, b: seq<byte>) returns (k: nat)
    requires |a| == 6 && |b| == 6
    requires Join48(a) < Join48(b)
    ensures k < 6 && a[..k] == b[..k] && a[k] < b[k]
  {
    if a[0] != b[0] {
      k := 0;
      assert a[0] < b[0];
    } else if a[1] != b[1] {
      k := 1;
      assert a[1] < b[1];
    } else if a[2] != b[2] {
      k := 2;
      assert a[2] < b[2];
    } else if a[3] != b[3] {
      k := 3;
      assert a[3] < b[3];
    } else if a[4] != b[4] {
      k := 4;
      assert a[4] < b[4];
    } else {
      k := 5;
      assert a[5] < b[5];
    }
  }

  /** `uuid.Nil`. */
  const Nil: seq<byte> := seq(16, _ => 0)

  /**
    `New`: the timestamp bytes, then the random source asked for ten bytes; when it fails
    the result is the nil identifier with its error.
   */
  method New(ms: int, random: Result<seq<byte>, string>) returns (u: seq<byte>, err: Option<string>)
    requires MinInt64 <= ms <= MaxInt64
    requires random.Ok? ==> |random.value| == 10
    ensures random.Ok? ==> u == Layout(Timestamp(ms), random.value) && err.None?
    ensures random.Err? ==> u == Nil && err == Some(random.error)
  {
    var buf := new byte[16](_ => 0);
    var t := Timestamp(ms);
    buf[0] := Byte(t, 40);
    buf[1] := Byte(t, 32);
    buf[2] := Byte(t, 24);
    buf[3] := Byte(t, 16);
    buf[4] := Byte(t, 8);
    buf[5] := Byte(t, 0);
    if random.Err? {
      return Nil, Some(random.error);
    }
    var r := random.value;
    buf[6] := 0x70 + r[0] % 16;
    buf[7] := r[1];
    buf[8] := 0x80 + r[2] % 64;
    for i := 9 to 16
      invariant buf[..9] == Layout(t, r)[..9]
      invariant forall j :: 9 <= j < i ==> buf[j] == r[j - 6]
    {
      buf[i] := r[i - 6];
    }
    u, err := buf[..], None;
  }

  // ---------------------------------------------------------------------------
  // Text form

  function HexDigit(n: byte): char
    requires n < 16
  {
    "0123456789abcdef"[n as int]
  }

  function HexBytes(b: seq<byte>): (s: string)
    ensures |s| == 2 * |b|
    decreases |b|
  {
    if |b| == 0 then "" else [HexDigit(b[0] / 16), HexDigit(b[0] % 16)] + HexBytes(b[1..])
  }

  /** `UUID.String`: lower-case hex in groups of 8, 4, 4, 4 and 12 digits. */
  function Format(u: seq<byte>): (s: string)
    requires |u| == 16
    ensures |s| == 36
    ensures s[8] == '-' && s[13] == '-' && s[18] == '-' && s[23] == '-'
    ensures s[14] == HexDigit(u[6] / 16) && s[19] == HexDigit(u[8] / 16)
  {
    HexBytes(u[..4]) + "-" + HexBytes(u[4..6]) + "-" + HexBytes(u[6..8]) + "-" + HexBytes(u[8..10]) + "-" + HexBytes(u[10..])
  }

  /** In the text form of a generated identifier the version digit is 7 and the variant digit one of 8, 9, a, b. */
  lemma TextVersionAndVariant(t: nat, r: seq<byte>)
    requires |r| == 10
    ensures Format(Layout(t, r))[14] == '7'
    ensures Format(Layout(t, r))[19] in "89ab"
  {
    var u := Layout(t, r);
    assert 8 <= u[8] / 16 <= 11;
  }

  /** `NewUUIDv7`: the text form, or the empty string and the error. */
  method NewUuidV7(ms: int, random: Result<seq<byte>, string>) returns (s: string, err: Option<string>)
    requires MinInt64 <= ms <= MaxInt64
    requires random.Ok? ==> |random.value| == 10
    ensures random.Ok? ==> s == Format(Layout(Timestamp(ms), random.value)) && err.None?
    ensures random.Err? ==> s == "" && err == Some(random.error)
  {
    var u, e := New(ms, random);
    if e.Some? {
      return "", e;
    }
    s, err := Format(u), None;
  }
}
