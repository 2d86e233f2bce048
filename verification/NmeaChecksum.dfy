/** The checksum that ends an NMEA sentence, on bytes. */
module NmeaChecksum {

  const NUL: bv8 := 0
  const STAR: bv8 := 0x2A
  const CR: bv8 := 0x0D
  const LF: bv8 := 0x0A
  const DOLLAR: bv8 := 0x24

  function Checksum(body: seq<bv8>): bv8 {
    if body == [] then 0 else Checksum(body[..|body| - 1]) ^ body[|body| - 1]
  }

  function HexDigit(n: bv8): bv8 {
    if n < 10 then 0x30 + n else 0x37 + n
  }

  /** One of the characters 0 to 9 and A to F. */
  predicate IsHexDigit(c: bv8) {
    (0x30 <= c <= 0x39) || (0x41 <= c <= 0x46)
  }

  function ReadHex(c: bv8): bv8 {
    if 0x41 <= c then c - 0x37 else c - 0x30
  }

  /** What `"*%02X\r\n"` prints. */
  function Trailer(sum: bv8): (t: seq<bv8>)
    ensures |t| == 5
  {
    [STAR, HexDigit(sum >> 4), HexDigit(sum & 0xF), CR, LF]
  }

  /** A receiver accepts a sentence: it begins and ends as it should, and the two
      digits are the checksum of what lies between. */
  predicate Accepts(s: seq<bv8>) {
    && |s| >= 6 && s[0] == DOLLAR
    && s[|s| - 5] == STAR && s[|s| - 2] == CR && s[|s| - 1] == LF
    && IsHexDigit(s[|s| - 4]) && IsHexDigit(s[|s| - 3])
    && (ReadHex(s[|s| - 4]) << 4) | ReadHex(s[|s| - 3]) == Checksum(s[1..|s| - 5])
  }

  lemma HexReadsBack(sum: bv8)
    ensures IsHexDigit(HexDigit(sum >> 4)) && IsHexDigit(HexDigit(sum & 0xF))
    ensures (ReadHex(HexDigit(sum >> 4)) << 4) | ReadHex(HexDigit(sum & 0xF)) == sum
  {
    var high, low := sum >> 4, sum & 0xF;
    assert high < 16 && low < 16;
    assert (high << 4) | low == sum;
  }

  lemma TrailerIsAccepted(body: seq<bv8>)
    ensures Accepts([DOLLAR] + body + Trailer(Checksum(body)))
  {
    var s := [DOLLAR] + body + Trailer(Checksum(body));
    assert s[1..|s| - 5] == body;
    HexReadsBack(Checksum(body));
  }

  lemma {:induction false} ChecksumSplits(a: seq<bv8>, b: seq<bv8>)
    ensures Checksum(a + b) == Checksum(a) ^ Checksum(b)
  {
    if b == [] {
      assert a + b == a;
    } else {
      var k := |b| - 1;
      assert (a + b)[..|a| + k] == a + b[..k];
      ChecksumSplits(a, b[..k]);
    }
  }

  /** Changing one byte of the body is always noticed. */
  lemma OneWrongByteIsNoticed(body: seq<bv8>, k: nat, wrong: bv8)
    requires k < |body| && wrong != body[k]
    ensures !Accepts([DOLLAR] + body[k := wrong] + Trailer(Checksum(body)))
  {
    var other := body[k := wrong];
    ChecksumAround(body, k);
    ChecksumAround(other, k);
    assert other[..k] == body[..k] && other[k + 1..] == body[k + 1..];
    XorDiffers(Checksum(body[..k]), body[k], wrong, Checksum(body[k + 1..]));
    OtherBodyIsRefused(body, other);
  }

  lemma OtherBodyIsRefused(body: seq<bv8>, other: seq<bv8>)
    requires Checksum(other) != Checksum(body)
    ensures !Accepts([DOLLAR] + other + Trailer(Checksum(body)))
  {
    var s := [DOLLAR] + other + Trailer(Checksum(body));
    assert s[1..|s| - 5] == other;
    HexReadsBack(Checksum(body));
  }

  lemma ChecksumParts(a: seq<bv8>, b: bv8, rest: seq<bv8>)
    ensures Checksum(a + ([b] + rest)) == Checksum(a) ^ (b ^ Checksum(rest))
  {
    ChecksumSplits(a, [b] + rest);
    ChecksumSplits([b], rest);
    OneByte(b);
  }

  lemma ChecksumAround(s: seq<bv8>, k: nat)
    requires k < |s|
    ensures Checksum(s) == Checksum(s[..k]) ^ (s[k] ^ Checksum(s[k + 1..]))
  {
    assert s == s[..k] + ([s[k]] + s[k + 1..]);
    ChecksumParts(s[..k], s[k], s[k + 1..]);
  }

  lemma OneByte(b: bv8)
    ensures Checksum([b]) == b
  {
    assert [b][..0] == [];
    assert 0 ^ b == b;
  }

  lemma XorDiffers(a: bv8, x: bv8, y: bv8, c: bv8)
    requires x != y
    ensures a ^ (x ^ c) != a ^ (y ^ c)
  {
  }

  // ----- the routine -----

  /** The sentence in the buffer, up to its end mark. */
  ghost predicate Holds(buffer: seq<bv8>, s: seq<bv8>) {
    |s| < |buffer| && buffer[..|s|] == s && buffer[|s|] == NUL && NUL !in s
  }

  /** `snprintf` with a room of `room` bytes: as much as fits, then an end mark;
      the length it reports is that of the whole text. */
  method PrintInto(a: array<bv8>, at: nat, room: nat, text: seq<bv8>) returns (length: nat)
    requires 0 < room && at + room <= a.Length
    modifies a
    ensures length == |text|
    ensures var n := if |text| < room then |text| else room - 1;
      a[..at + n] == old(a[..at]) + text[..n] && a[at + n] == NUL
  {
    var n := 0;
    while n < |text| && n + 1 < room
      invariant 0 <= n <= |text| && n < room
      invariant a[..at + n] == old(a[..at]) + text[..n]
    {
      a[at + n] := text[n];
      n := n + 1;
    }
    a[at + n] := NUL;
    length := |text|;
  }

  /** Appends the trailer to the sentence that the buffer holds.  The length it
      returns leaves out the dollar sign. */
  method PutChecksum(a: array<bv8>, maxSize: nat, ghost body: seq<bv8>) returns (length: nat)
    requires maxSize <= a.Length && Holds(a[..maxSize], [DOLLAR] + body)
    modifies a
    ensures length == |body| + 5
    ensures |body| + 7 <= maxSize ==> Holds(a[..maxSize], [DOLLAR] + body + Trailer(Checksum(body)))
    // without that room the receiver cannot accept what is left of the sentence
    ensures |body| + 7 > maxSize ==>
      exists n :: 0 <= n < 5 && Holds(a[..maxSize], [DOLLAR] + body + Trailer(Checksum(body))[..n])
  {
    ghost var s := [DOLLAR] + body;
    assert forall i :: 0 <= i < maxSize ==> a[..maxSize][i] == a[i];
    assert forall i :: 0 <= i < |s| ==> a[i] == s[i] && a[i] != NUL;
    var checksum: bv8 := 0;
    length := 0;
    while a[length + 1] != NUL
      invariant 0 <= length <= |body| && checksum == Checksum(body[..length])
      decreases |body| - length
    {
      assert length < |body|;
      assert a[length + 1] == s[length + 1] == body[length];
      assert body[..length + 1][..length] == body[..length];
      checksum := checksum ^ a[length + 1];
      length := length + 1;
    }
    assert body[..length] == body;
    ghost var t, room := Trailer(checksum), maxSize - length - 1;
    assert a[..length + 1] == s;
    var checksumLength := PrintInto(a, length + 1, maxSize - length - 1, Trailer(checksum));
    ghost var n := if |t| < room then |t| else room - 1;
    TrailerHasNoEnd(checksum);
    assert a[..maxSize][..|s| + n] == a[..|s| + n] == s + t[..n];
    assert |body| + 7 <= maxSize ==> t[..n] == t;
    assert Holds(a[..maxSize], s + t[..n]);
    length := length + checksumLength;
  }

  lemma TrailerHasNoEnd(sum: bv8)
    ensures NUL !in Trailer(sum)
  {
    var high, low := sum >> 4, sum & 0xF;
    assert high < 16 && low < 16;
  }

  /** A sentence whose trailer is cut short is not accepted. */
  lemma CutTrailerIsRefused(body: seq<bv8>, n: nat)
    requires n < 5 && LF !in body
    ensures !Accepts([DOLLAR] + body + Trailer(Checksum(body))[..n])
  {
    var s := [DOLLAR] + body + Trailer(Checksum(body))[..n];
    var high, low := Checksum(body) >> 4, Checksum(body) & 0xF;
    assert high < 16 && low < 16;
    assert |s| >= 2 && n == 0 ==> s[|s| - 1] in body;
  }
}
