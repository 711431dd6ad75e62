/** The integer encoding of the JWKS endpoint (auth.py): Base64urlUInt of section 2 of RFC 7518. */
module Jwks {
  import opened Common
  import opened Base64Url

  function BitLength(n: nat): nat {
    if n == 0 then 0 else 1 + BitLength(n / 2)
  }

  /** `n.to_bytes(length, "big")` does not overflow. */
  predicate Fits(n: nat, length: nat) {
    if length == 0 then n == 0 else Fits(n / 256, length - 1)
  }

  function ToBytes(n: nat, length: nat): seq<byte>
    requires Fits(n, length)
  {
    if length == 0 then [] else ToBytes(n / 256, length - 1) + [n % 256]
  }

  /** The integer of a big-endian octet string. */
  function FromBytes(bs: seq<byte>): nat {
    if bs == [] then 0 else FromBytes(bs[..|bs| - 1]) * 256 + bs[|bs| - 1]
  }

  function ByteLength(n: nat): nat {
    (BitLength(n) + 7) / 8
  }

  lemma EightBits(n: nat)
    requires n >= 256
    ensures BitLength(n) == 8 + BitLength(n / 256)
  {
    var a := n / 2;
    var b := a / 2;
    var c := b / 2;
    var d := c / 2;
    var e := d / 2;
    var f := e / 2;
    var g := f / 2;
    assert g / 2 == n / 256 && g > 0;
    assert BitLength(n) == 1 + BitLength(a) && BitLength(a) == 1 + BitLength(b) && BitLength(b) == 1 + BitLength(c);
    assert BitLength(c) == 1 + BitLength(d) && BitLength(d) == 1 + BitLength(e) && BitLength(e) == 1 + BitLength(f);
    assert BitLength(f) == 1 + BitLength(g) && BitLength(g) == 1 + BitLength(g / 2);
  }

  lemma {:induction false} SmallBits(n: nat, k: nat, limit: nat)
    requires 1 <= n < limit && (k == 0 ==> limit == 1) && k <= 8 && limit == [1, 2, 4, 8, 16, 32, 64, 128, 256][k]
    ensures 1 <= BitLength(n) <= k
  {
    if n >= 2 {
      SmallBits(n / 2, k - 1, [1, 2, 4, 8, 16, 32, 64, 128, 256][k - 1]);
    } else {
      assert BitLength(1) == 1;
    }
  }

  /** The byte length grows by one octet per factor of 256. */
  lemma ByteLengthStep(n: nat)
    requires n >= 1
    ensures ByteLength(n) == 1 + ByteLength(n / 256)
  {
    if n >= 256 {
      EightBits(n);
    } else {
      SmallBits(n, 8, 256);
      assert BitLength(n / 256) == 0;
    }
  }

  lemma {:induction false} ByteLengthFits(n: nat)
    ensures Fits(n, ByteLength(n))
  {
    if n >= 1 {
      ByteLengthStep(n);
      ByteLengthFits(n / 256);
    } else {
      assert ByteLength(0) == 0;
    }
  }

  function Octets(n: nat): seq<byte> {
    ByteLengthFits(n);
    ToBytes(n, ByteLength(n))
  }

  function EncodeUInt(n: nat): string {
    Segment(Octets(n))
  }

  lemma {:induction false} FromToBytes(n: nat, length: nat)
    requires Fits(n, length)
    ensures |ToBytes(n, length)| == length && FromBytes(ToBytes(n, length)) == n
  {
    if length > 0 {
      FromToBytes(n / 256, length - 1);
      var bs := ToBytes(n, length);
      assert bs[..|bs| - 1] == ToBytes(n / 256, length - 1);
    }
  }

  lemma {:induction false} NoShorter(n: nat, bs: seq<byte>)
    requires FromBytes(bs) == n
    ensures |bs| >= ByteLength(n)
  {
    if n >= 1 {
      ByteLengthStep(n);
      NoShorter(n / 256, bs[..|bs| - 1]);
    } else {
      assert ByteLength(0) == 0;
    }
  }

  lemma OneOctet(n: nat)
    requires 1 <= n < 256
    ensures Octets(n) == [n]
  {
    ByteLengthStep(n);
    assert ByteLength(0) == 0;
    assert ByteLength(n) == 1;
    assert ToBytes(n, 1) == ToBytes(n / 256, 0) + [n % 256];
  }

  lemma {:induction false} LeadingOctet(n: nat)
    requires n >= 1
    ensures |Octets(n)| >= 1 && Octets(n)[0] != 0
  {
    ByteLengthFits(n);
    ByteLengthStep(n);
    if n >= 256 {
      LeadingOctet(n / 256);
      assert Octets(n) == Octets(n / 256) + [n % 256];
    } else {
      OneOctet(n);
    }
  }

  /** For every n of at least 1 the encoding is the shortest big-endian octet string of n, without
      a leading zero, and it decodes back to n. */
  lemma EncodingExact(n: nat)
    requires n >= 1
    ensures FromBytes(Octets(n)) == n && Octets(n)[0] != 0
    ensures forall bs :: FromBytes(bs) == n ==> |bs| >= |Octets(n)|
    ensures ReadSegment(EncodeUInt(n)) == Some(Octets(n))
  {
    ByteLengthFits(n);
    FromToBytes(n, ByteLength(n));
    LeadingOctet(n);
    SegmentRoundTrip(Octets(n));
    forall bs | FromBytes(bs) == n
      ensures |bs| >= |Octets(n)|
    {
      NoShorter(n, bs);
    }
  }

  /** Zero is the one exception: it becomes the empty text instead of a single zero octet. */
  lemma ZeroIsEmpty()
    ensures EncodeUInt(0) == "" && EncodeUInt(0) != Segment([0])
  {
    assert ByteLength(0) == 0;
    SegmentRoundTrip([0]);
    assert ReadSegment("") == Some([]);
  }
}
