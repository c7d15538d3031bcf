// The Base64urlUInt text of an RSA parameter: minimal big-endian octets in
// unpadded base64url (section 2 of RFC 7518, section 5 of RFC 4648).

module JwkInteger {
  import opened Options

  type Byte = b: int | 0 <= b < 256
  type Sextet = s: int | 0 <= s < 64

  // ----- the encoder -----

  function BitLength(n: nat): nat {
    if n == 0 then 0 else 1 + BitLength(n / 2)
  }

  function Pow2(k: nat): (r: nat)
    ensures r > 0
  {
    if k == 0 then 1 else 2 * Pow2(k - 1)
  }

  function ByteLength(n: nat): nat {
    (BitLength(n) + 7) / 8
  }

  // int.to_bytes(len, "big"), which overflows unless n fits
  function ToBytes(n: nat, len: nat): (r: seq<Byte>)
    requires n < Pow2(8 * len)
    ensures |r| == len
  {
    if len == 0 then []
    else
      PowStep(len);
      ToBytes(n / 256, len - 1) + [n % 256]
  }

  lemma PowStep(len: nat)
    requires len > 0
    ensures Pow2(8 * len) == 256 * Pow2(8 * (len - 1))
  {
    PowPlusEight(8 * (len - 1));
  }

  lemma PowPlusEight(k: nat)
    ensures Pow2(k + 8) == 256 * Pow2(k)
  {
    PowPlusFour(k);
    PowPlusFour(k + 4);
  }

  lemma PowPlusFour(k: nat)
    ensures Pow2(k + 4) == 16 * Pow2(k)
  {
    assert Pow2(k + 2) == 4 * Pow2(k);
    assert Pow2(k + 4) == 4 * Pow2(k + 2);
  }

  // The URL-safe alphabet.
  function Char(s: Sextet): char {
    if s < 26 then ('A' as int + s) as char
    else if s < 52 then ('a' as int + s - 26) as char
    else if s < 62 then ('0' as int + s - 52) as char
    else if s == 62 then '-' else '_'
  }

  // Three octets become four characters.
  function Group(x: Byte, y: Byte, z: Byte): (r: string)
    ensures |r| == 4 && '=' !in r
  {
    [Char(x / 4), Char(x % 4 * 16 + y / 16), Char(y % 16 * 4 + z / 64), Char(z % 64)]
  }

  // urlsafe_b64encode, padding included
  function Encode(b: seq<Byte>): string {
    if |b| >= 3 then
      Group(b[0], b[1], b[2]) + Encode(b[3..])
    else if |b| == 2 then
      [Char(b[0] / 4), Char(b[0] % 4 * 16 + b[1] / 16), Char(b[1] % 16 * 4), '=']
    else if |b| == 1 then
      [Char(b[0] / 4), Char(b[0] % 4 * 16), '=', '=']
    else []
  }

  // rstrip("=")
  function StripPadding(t: string): string {
    if t != [] && t[|t| - 1] == '=' then StripPadding(t[..|t| - 1]) else t
  }

  function IntToBase64Url(n: nat): string {
    FitsByteLength(n);
    StripPadding(Encode(ToBytes(n, ByteLength(n))))
  }

  // ----- the decoder, independently -----

  function Value(c: char): Option<Sextet> {
    if 'A' <= c <= 'Z' then Some(c as int - 'A' as int)
    else if 'a' <= c <= 'z' then Some(c as int - 'a' as int + 26)
    else if '0' <= c <= '9' then Some(c as int - '0' as int + 52)
    else if c == '-' then Some(62)
    else if c == '_' then Some(63)
    else None
  }

  function Sextets(t: string): Option<seq<Sextet>> {
    if t == [] then Some([])
    else
      var (v, rest) := (Value(t[0]), Sextets(t[1..]));
      if v.Some? && rest.Some? then Some([v.value] + rest.value) else None
  }

  function First(s: Sextet, t: Sextet): Byte {
    s * 4 + t / 16
  }

  function Middle(s: Sextet, t: Sextet): Byte {
    s % 16 * 16 + t / 4
  }

  function Last(s: Sextet, t: Sextet): Byte {
    s % 4 * 64 + t
  }

  // Left-over bits must be zero.
  function Octets(s: seq<Sextet>): Option<seq<Byte>> {
    if |s| >= 4 then
      var rest := Octets(s[4..]);
      if rest.None? then None
      else Some([First(s[0], s[1]), Middle(s[1], s[2]), Last(s[2], s[3])] + rest.value)
    else if |s| == 3 then
      if s[2] % 4 == 0 then Some([First(s[0], s[1]), Middle(s[1], s[2])]) else None
    else if |s| == 2 then
      if s[1] % 16 == 0 then Some([First(s[0], s[1])]) else None
    else if |s| == 1 then None
    else Some([])
  }

  function Decode(t: string): Option<seq<Byte>> {
    var s := Sextets(t);
    if s.None? then None else Octets(s.value)
  }

  function FromBytes(b: seq<Byte>): nat {
    if b == [] then 0 else FromBytes(b[..|b| - 1]) * 256 + b[|b| - 1]
  }

  // ----- octets -----

  lemma {:induction false} BitLengthBounds(n: nat)
    ensures n < Pow2(BitLength(n))
    ensures n > 0 ==> Pow2(BitLength(n) - 1) <= n
  {
    if n > 0 {
      BitLengthBounds(n / 2);
    }
  }

  lemma {:induction false} PowMonotone(a: nat, b: nat)
    requires a <= b
    ensures Pow2(a) <= Pow2(b)
  {
    if a < b {
      PowMonotone(a, b - 1);
    }
  }

  lemma FitsByteLength(n: nat)
    ensures n < Pow2(8 * ByteLength(n))
    ensures n > 0 ==> ByteLength(n) > 0 && Pow2(8 * (ByteLength(n) - 1)) <= n
  {
    BitLengthBounds(n);
    PowMonotone(BitLength(n), 8 * ByteLength(n));
    if n > 0 {
      PowMonotone(8 * (ByteLength(n) - 1), BitLength(n) - 1);
    }
  }

  lemma {:induction false} BytesRoundTrip(n: nat, len: nat)
    requires n < Pow2(8 * len)
    ensures FromBytes(ToBytes(n, len)) == n
  {
    if len > 0 {
      PowStep(len);
      BytesRoundTrip(n / 256, len - 1);
      assert ToBytes(n, len)[..len - 1] == ToBytes(n / 256, len - 1);
    }
  }

  lemma {:induction false} LeadingByte(n: nat, len: nat)
    requires len > 0 && Pow2(8 * (len - 1)) <= n < Pow2(8 * len)
    ensures ToBytes(n, len)[0] != 0
  {
    PowStep(len);
    if len > 1 {
      PowStep(len - 1);
      LeadingByte(n / 256, len - 1);
      assert ToBytes(n, len)[0] == ToBytes(n / 256, len - 1)[0];
    } else {
      assert Pow2(0) == 1;
      assert ToBytes(n / 256, 0) == [];
    }
  }

  lemma {:induction false} FromBytesBound(b: seq<Byte>)
    ensures FromBytes(b) < Pow2(8 * |b|)
  {
    if b != [] {
      FromBytesBound(b[..|b| - 1]);
      PowStep(|b|);
    }
  }

  // ----- text -----

  lemma CharValue(s: Sextet)
    ensures Value(Char(s)) == Some(s) && Char(s) != '='
  {
  }

  // The encoding without its padding.
  function Unpadded(b: seq<Byte>): string {
    if |b| >= 3 then
      Group(b[0], b[1], b[2]) + Unpadded(b[3..])
    else if |b| == 2 then
      [Char(b[0] / 4), Char(b[0] % 4 * 16 + b[1] / 16), Char(b[1] % 16 * 4)]
    else if |b| == 1 then
      [Char(b[0] / 4), Char(b[0] % 4 * 16)]
    else []
  }

  function Padding(len: nat): string {
    if len % 3 == 1 then "==" else if len % 3 == 2 then "=" else ""
  }

  lemma {:induction false} EncodeSplits(b: seq<Byte>)
    ensures Encode(b) == Unpadded(b) + Padding(|b|)
    ensures '=' !in Unpadded(b)
  {
    if |b| >= 3 {
      EncodeSplits(b[3..]);
      PaddingPeriod(|b|);
      var head := Group(b[0], b[1], b[2]);
      assert head + (Unpadded(b[3..]) + Padding(|b|)) == (head + Unpadded(b[3..])) + Padding(|b|);
    }
  }

  lemma PaddingPeriod(n: nat)
    requires n >= 3
    ensures Padding(n - 3) == Padding(n)
  {
  }

  lemma StripKeepsUnpadded(t: string)
    requires '=' !in t
    ensures StripPadding(t) == t && StripPadding(t + "=") == t && StripPadding(t + "==") == t
  {
    assert (t + "=")[..|t|] == t;
    assert (t + "==")[..|t| + 1] == t + "=";
  }

  /** Stripping removes exactly the padding: no character of the encoding proper
      is an equals sign. */
  lemma StripRemovesExactlyPadding(b: seq<Byte>)
    ensures StripPadding(Encode(b)) + Padding(|b|) == Encode(b)
    ensures '=' !in StripPadding(Encode(b))
    ensures StripPadding(Encode(b)) == Unpadded(b)
  {
    EncodeSplits(b);
    StripKeepsUnpadded(Unpadded(b));
    assert Unpadded(b) + "" == Unpadded(b);
  }

  function GroupSextets(x: Byte, y: Byte, z: Byte): seq<Sextet> {
    [x / 4, x % 4 * 16 + y / 16, y % 16 * 4 + z / 64, z % 64]
  }

  function SextetsOf(b: seq<Byte>): seq<Sextet> {
    if |b| >= 3 then
      GroupSextets(b[0], b[1], b[2]) + SextetsOf(b[3..])
    else if |b| == 2 then [b[0] / 4, b[0] % 4 * 16 + b[1] / 16, b[1] % 16 * 4]
    else if |b| == 1 then [b[0] / 4, b[0] % 4 * 16]
    else []
  }

  function Chars(s: seq<Sextet>): (t: string)
    ensures |t| == |s| && forall i :: 0 <= i < |s| ==> t[i] == Char(s[i])
  {
    seq(|s|, i requires 0 <= i < |s| => Char(s[i]))
  }

  lemma {:induction false} UnpaddedIsChars(b: seq<Byte>)
    ensures Unpadded(b) == Chars(SextetsOf(b))
  {
    if |b| >= 3 {
      UnpaddedIsChars(b[3..]);
      GroupChars(b[0], b[1], b[2]);
      var head := GroupSextets(b[0], b[1], b[2]);
      assert Chars(head + SextetsOf(b[3..])) == Chars(head) + Chars(SextetsOf(b[3..]));
    }
  }

  lemma GroupChars(x: Byte, y: Byte, z: Byte)
    ensures Chars(GroupSextets(x, y, z)) == Group(x, y, z)
  {
  }

  lemma {:induction false} SextetsOfChars(s: seq<Sextet>)
    ensures Sextets(Chars(s)) == Some(s)
  {
    if s != [] {
      CharValue(s[0]);
      SextetsOfChars(s[1..]);
      assert Chars(s)[1..] == Chars(s[1..]);
      assert [s[0]] + s[1..] == s;
    }
  }

  lemma {:induction false} OctetsOfSextets(b: seq<Byte>)
    ensures Octets(SextetsOf(b)) == Some(b)
  {
    if |b| >= 3 {
      OctetsOfSextets(b[3..]);
      OctetsOfGroup(b[0], b[1], b[2], SextetsOf(b[3..]));
      assert b == [b[0], b[1], b[2]] + b[3..];
    } else if |b| == 2 {
      GroupRoundTrip(b[0], b[1], 0);
      assert b == [b[0], b[1]];
    } else if |b| == 1 {
      GroupRoundTrip(b[0], 0, 0);
      assert b == [b[0]];
    }
  }

  lemma OctetsOfGroup(x: Byte, y: Byte, z: Byte, rest: seq<Sextet>)
    requires Octets(rest).Some?
    ensures Octets(GroupSextets(x, y, z) + rest) == Some([x, y, z] + Octets(rest).value)
  {
    var s := GroupSextets(x, y, z) + rest;
    assert s[4..] == rest;
    GroupRoundTrip(x, y, z);
  }

  lemma GroupRoundTrip(x: Byte, y: Byte, z: Byte)
    ensures First(x / 4, x % 4 * 16 + y / 16) == x
    ensures Middle(x % 4 * 16 + y / 16, y % 16 * 4 + z / 64) == y
    ensures Last(y % 16 * 4 + z / 64, z % 64) == z
  {
  }

  lemma DecodeUnpadded(b: seq<Byte>)
    ensures Decode(Unpadded(b)) == Some(b)
  {
    UnpaddedIsChars(b);
    SextetsOfChars(SextetsOf(b));
    OctetsOfSextets(b);
  }

  // ----- the result -----

  /** The text carries no padding and decodes to n, and the octets are minimal:
      the first one is not zero, and no shorter octet string spells n. */
  lemma JwkIntegerRoundTrip(n: nat)
    requires n >= 1
    ensures var t := IntToBase64Url(n);
      && '=' !in t && Decode(t).Some?
      && var b := Decode(t).value;
         && FromBytes(b) == n && |b| == ByteLength(n) > 0 && b[0] != 0
         && forall b' :: FromBytes(b') == n ==> |b| <= |b'|
  {
    FitsByteLength(n);
    var b := ToBytes(n, ByteLength(n));
    StripRemovesExactlyPadding(b);
    DecodeUnpadded(b);
    BytesRoundTrip(n, ByteLength(n));
    LeadingByte(n, ByteLength(n));
    forall b' | FromBytes(b') == n ensures |b| <= |b'| {
      FromBytesBound(b');
      if |b'| < |b| {
        PowMonotone(8 * |b'|, 8 * (|b| - 1));
      }
    }
  }

  /** Distinct integers have distinct texts. */
  lemma JwkIntegerInjective(n: nat, m: nat)
    requires IntToBase64Url(n) == IntToBase64Url(m)
    ensures n == m
  {
    ZeroIsEmpty();
    if n >= 1 {
      JwkIntegerRoundTrip(n);
    }
    if m >= 1 {
      JwkIntegerRoundTrip(m);
    }
  }

  lemma ZeroIsEmpty()
    ensures IntToBase64Url(0) == ""
    ensures Decode("") == Some([])
  {
    FitsByteLength(0);
    assert ToBytes(0, 0) == [];
  }

  // Section 2 of RFC 7518, without an encoder: unpadded base64url text of the
  // shortest non-empty octet sequence that represents n.
  ghost predicate IsBase64UrlUInt(t: string, n: nat) {
    && Decode(t).Some?
    && var b := Decode(t).value;
       && b != [] && FromBytes(b) == n
       && forall b' :: b' != [] && FromBytes(b') == n ==> |b| <= |b'|
  }

  lemma ValueChar(c: char)
    requires Value(c).Some?
    ensures Char(Value(c).value) == c
  {
  }

  lemma {:induction false} CharsOfSextets(t: string)
    requires Sextets(t).Some?
    ensures Chars(Sextets(t).value) == t
  {
    if t != [] {
      var rest := Sextets(t[1..]).value;
      ValueChar(t[0]);
      CharsOfSextets(t[1..]);
      assert Sextets(t).value == [Value(t[0]).value] + rest;
      assert t == [t[0]] + t[1..];
      assert Chars([Value(t[0]).value] + rest) == [t[0]] + Chars(rest);
    }
  }

  lemma FirstSplits(p: Sextet, q: Sextet)
    ensures First(p, q) / 4 == p && First(p, q) % 4 == q / 16
  {
  }

  lemma MiddleSplits(q: Sextet, r: Sextet)
    ensures Middle(q, r) / 16 == q % 16 && Middle(q, r) % 16 == r / 4
  {
  }

  lemma LastSplits(r: Sextet, s: Sextet)
    ensures Last(r, s) / 64 == r % 4 && Last(r, s) % 64 == s
  {
  }

  lemma GroupBack(p: Sextet, q: Sextet, r: Sextet, s: Sextet)
    ensures GroupSextets(First(p, q), Middle(q, r), Last(r, s)) == [p, q, r, s]
  {
    FirstSplits(p, q);
    MiddleSplits(q, r);
    LastSplits(r, s);
  }

  lemma {:induction false} SextetsOfOctets(s: seq<Sextet>)
    requires Octets(s).Some?
    ensures SextetsOf(Octets(s).value) == s
  {
    if |s| >= 4 {
      var rest := Octets(s[4..]).value;
      SextetsOfOctets(s[4..]);
      GroupBack(s[0], s[1], s[2], s[3]);
      var group := [First(s[0], s[1]), Middle(s[1], s[2]), Last(s[2], s[3])];
      assert Octets(s).value == group + rest && (group + rest)[3..] == rest;
      assert s == [s[0], s[1], s[2], s[3]] + s[4..];
    } else if |s| == 3 {
      GroupBack(s[0], s[1], s[2], 0);
      assert s == [s[0], s[1], s[2]];
    } else if |s| == 2 {
      GroupBack(s[0], s[1], 0, 0);
      assert s == [s[0], s[1]];
    }
  }

  /** Each octet sequence has one text only. */
  lemma TextIsUnique(t: string)
    requires Decode(t).Some?
    ensures t == Unpadded(Decode(t).value)
  {
    var s := Sextets(t).value;
    CharsOfSextets(t);
    SextetsOfOctets(s);
    UnpaddedIsChars(Decode(t).value);
  }

  lemma {:induction false} FromBytesInjective(a: seq<Byte>, b: seq<Byte>)
    requires |a| == |b| && FromBytes(a) == FromBytes(b)
    ensures a == b
  {
    if a != [] {
      var n := |a| - 1;
      LastByte(FromBytes(a[..n]), a[n], FromBytes(b[..n]), b[n]);
      FromBytesInjective(a[..n], b[..n]);
      assert a == a[..n] + [a[n]] && b == b[..n] + [b[n]];
    }
  }

  lemma LastByte(x: nat, p: Byte, y: nat, q: Byte)
    requires x * 256 + p == y * 256 + q
    ensures x == y && p == q
  {
  }

  lemma SameIntegerSameText(t: string, u: string, n: nat)
    requires IsBase64UrlUInt(t, n) && IsBase64UrlUInt(u, n)
    ensures t == u
  {
    TextIsUnique(t);
    TextIsUnique(u);
    FromBytesInjective(Decode(t).value, Decode(u).value);
  }

  lemma EncoderConforms(n: nat)
    requires n >= 1
    ensures IsBase64UrlUInt(IntToBase64Url(n), n)
  {
    JwkIntegerRoundTrip(n);
  }

  /** For every integer but zero the encoder's text is the one and only
      Base64urlUInt of the RFC; the text it gives zero is not one at all. */
  lemma FollowsRfcIff(n: nat)
    ensures IsBase64UrlUInt(IntToBase64Url(n), n) <==> n >= 1
    ensures n >= 1 ==> forall t :: IsBase64UrlUInt(t, n) <==> t == IntToBase64Url(n)
  {
    if n >= 1 {
      EncoderConforms(n);
      forall t | IsBase64UrlUInt(t, n) ensures t == IntToBase64Url(n) {
        SameIntegerSameText(t, IntToBase64Url(n), n);
      }
    } else {
      ZeroIsEmpty();
    }
  }

  /** The RFC writes zero as one zero octet. */
  lemma ZeroInTheRfc(t: string)
    ensures IsBase64UrlUInt(t, 0) <==> t == "AA"
  {
    var zero: seq<Byte> := [0];
    DecodeUnpadded(zero);
    assert Unpadded(zero) == "AA" && FromBytes(zero) == 0 by {
      assert zero[..0] == [];
    }
    assert IsBase64UrlUInt("AA", 0);
    if IsBase64UrlUInt(t, 0) {
      SameIntegerSameText(t, "AA", 0);
    }
  }

  /** The alphabet of table 2 in section 5 of RFC 4648: its corners, and that it
      counts up between them. */
  lemma AlphabetIs(s: Sextet)
    ensures Char(0) == 'A' && Char(25) == 'Z' && Char(26) == 'a' && Char(51) == 'z'
    ensures Char(52) == '0' && Char(61) == '9' && Char(62) == '-' && Char(63) == '_'
    ensures s !in {25, 51, 61, 62, 63} ==> Char(s + 1) as int == Char(s) as int + 1
    ensures Value(Char(s)) == Some(s)
  {
  }

  lemma ExponentOctets()
    ensures FromBytes([1, 0, 1]) == 65537
  {
    assert FromBytes([1]) == 1 by {
      assert [1][..0] == [];
    }
    assert FromBytes([1, 0]) == 256 by {
      assert [1, 0][..1] == [1];
    }
    assert [1, 0, 1][..2] == [1, 0];
  }

  lemma ExponentText()
    ensures Unpadded([1, 0, 1]) == "AQAB"
  {
    AlphabetIs(0);
    AlphabetIs(26);
    assert [1, 0, 1][3..] == [];
    assert Unpadded([1, 0, 1]) == Group(1, 0, 1) + [];
    assert Group(1, 0, 1) == [Char(0), Char(16), Char(0), Char(1)];
  }

  lemma NeedsThreeOctets(c: seq<Byte>)
    requires FromBytes(c) == 65537
    ensures |c| >= 3
  {
    FromBytesBound(c);
    if |c| <= 2 {
      PowMonotone(8 * |c|, 16);
      PowPlusEight(0);
      PowPlusEight(8);
    }
  }

  /** The usual public exponent: big-endian octets 1, 0, 1. */
  lemma PublicExponent()
    ensures IntToBase64Url(65537) == "AQAB"
  {
    ExponentText();
    ExponentOctets();
    DecodeUnpadded([1, 0, 1]);
    forall c | c != [] && FromBytes(c) == 65537 ensures 3 <= |c| {
      NeedsThreeOctets(c);
    }
    assert IsBase64UrlUInt("AQAB", 65537);
    FollowsRfcIff(65537);
  }
}
