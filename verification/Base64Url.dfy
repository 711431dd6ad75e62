/** The base64url encoding of section 5 of RFC 4648, with the padding handling of auth.py. */
module Base64Url {
  import opened Common

  type byte = b: int | 0 <= b < 256

  type sextet = v: int | 0 <= v < 64

  function EncodeChar(v: sextet): char {
    if v < 26 then ('A' as int + v) as char
    else if v < 52 then ('a' as int + v - 26) as char
    else if v < 62 then ('0' as int + v - 52) as char
    else if v == 62 then '-'
    else '_'
  }

  function DecodeChar(c: char): Option<sextet> {
    if 'A' <= c <= 'Z' then Some(c as int - 'A' as int)
    else if 'a' <= c <= 'z' then Some(c as int - 'a' as int + 26)
    else if '0' <= c <= '9' then Some(c as int - '0' as int + 52)
    else if c == '-' then Some(62)
    else if c == '_' then Some(63)
    else None
  }

  predicate InAlphabet(c: char) {
    DecodeChar(c).Some?
  }

  lemma CharRoundTrip(v: sextet)
    ensures DecodeChar(EncodeChar(v)) == Some(v)
  {
  }

  function Three(a: byte, b: byte, c: byte): string {
    [EncodeChar(a / 4), EncodeChar(a % 4 * 16 + b / 16), EncodeChar(b % 16 * 4 + c / 64), EncodeChar(c % 64)]
  }

  /** `urlsafe_b64encode`: groups of three octets, the last one padded with '='. */
  function Encode(bs: seq<byte>): string {
    if bs == [] then ""
    else if |bs| == 1 then [EncodeChar(bs[0] / 4), EncodeChar(bs[0] % 4 * 16), '=', '=']
    else if |bs| == 2 then [EncodeChar(bs[0] / 4), EncodeChar(bs[0] % 4 * 16 + bs[1] / 16),
                            EncodeChar(bs[1] % 16 * 4), '=']
    else Three(bs[0], bs[1], bs[2]) + Encode(bs[3..])
  }

  /** `urlsafe_b64decode`; only the last group may be padded, and leftover bits are ignored. */
  function Decode(s: string): Option<seq<byte>> {
    if s == "" then Some([])
    else if |s| < 4 then None
    else
      var v0, v1, v2, v3 := DecodeChar(s[0]), DecodeChar(s[1]), DecodeChar(s[2]), DecodeChar(s[3]);
      if v0.None? || v1.None? then None
      else if |s| == 4 && s[2] == '=' && s[3] == '=' then Some([v0.value * 4 + v1.value / 16])
      else if v2.None? then None
      else if |s| == 4 && s[3] == '=' then Some([v0.value * 4 + v1.value / 16, v1.value % 16 * 16 + v2.value / 4])
      else if v3.None? then None
      else
        match Decode(s[4..])
        case None => None
        case Some(rest) => Some([v0.value * 4 + v1.value / 16, v1.value % 16 * 16 + v2.value / 4,
                                 v2.value % 4 * 64 + v3.value] + rest)
  }

  lemma ThreeValues(a: byte, b: byte, c: byte)
    ensures a / 4 * 4 + (a % 4 * 16 + b / 16) / 16 == a
    ensures (a % 4 * 16 + b / 16) % 16 * 16 + (b % 16 * 4 + c / 64) / 4 == b
    ensures (b % 16 * 4 + c / 64) % 4 * 64 + c % 64 == c
  {
  }

  lemma GroupDecodes(v0: sextet, v1: sextet, v2: sextet, v3: sextet, s: string)
    ensures Decode([EncodeChar(v0), EncodeChar(v1), EncodeChar(v2), EncodeChar(v3)] + s) ==
            match Decode(s)
            case None => None
            case Some(rest) => Some([v0 * 4 + v1 / 16, v1 % 16 * 16 + v2 / 4, v2 % 4 * 64 + v3] + rest)
  {
    var t := [EncodeChar(v0), EncodeChar(v1), EncodeChar(v2), EncodeChar(v3)] + s;
    assert t[4..] == s;
    CharRoundTrip(v0);
    CharRoundTrip(v1);
    CharRoundTrip(v2);
    CharRoundTrip(v3);
  }

  lemma ThreeDecodes(a: byte, b: byte, c: byte, s: string)
    ensures Decode(Three(a, b, c) + s) == match Decode(s) case None => None case Some(rest) => Some([a, b, c] + rest)
  {
    GroupDecodes(a / 4, a % 4 * 16 + b / 16, b % 16 * 4 + c / 64, c % 64, s);
    ThreeValues(a, b, c);
  }

  lemma OneDecodes(a: byte)
    ensures Decode([EncodeChar(a / 4), EncodeChar(a % 4 * 16), '=', '=']) == Some([a])
  {
    CharRoundTrip(a / 4);
    CharRoundTrip(a % 4 * 16);
    assert a / 4 * 4 + a % 4 * 16 / 16 == a;
  }

  lemma TwoDecodes(a: byte, b: byte)
    ensures Decode([EncodeChar(a / 4), EncodeChar(a % 4 * 16 + b / 16), EncodeChar(b % 16 * 4), '=']) == Some([a, b])
  {
    CharRoundTrip(a / 4);
    CharRoundTrip(a % 4 * 16 + b / 16);
    CharRoundTrip(b % 16 * 4);
    ThreeValues(a, b, 0);
  }

  lemma EncodeThree(bs: seq<byte>)
    requires |bs| >= 3
    ensures Encode(bs) == Three(bs[0], bs[1], bs[2]) + Encode(bs[3..])
  {
  }

  lemma DecodeNext(bs: seq<byte>, s: string, rest: string)
    requires |bs| >= 3 && s == Three(bs[0], bs[1], bs[2]) + rest && Decode(rest) == Some(bs[3..])
    ensures Decode(s) == Some(bs)
  {
    ThreeDecodes(bs[0], bs[1], bs[2], rest);
    assert [bs[0], bs[1], bs[2]] + bs[3..] == bs;
  }

  lemma {:induction false} DecodeEncode(bs: seq<byte>)
    ensures Decode(Encode(bs)) == Some(bs)
  {
    if |bs| >= 3 {
      DecodeEncode(bs[3..]);
      EncodeThree(bs);
      DecodeNext(bs, Encode(bs), Encode(bs[3..]));
    } else if |bs| == 2 {
      TwoDecodes(bs[0], bs[1]);
      assert bs == [bs[0], bs[1]];
    } else if |bs| == 1 {
      OneDecodes(bs[0]);
      assert bs == [bs[0]];
    }
  }

  // ---- the encoding of RFC 4648 -----------------------------------------------------

  lemma UpperExact(v: sextet)
    requires 0 <= v < 26
    ensures EncodeChar(v) == "ABCDEFGHIJKLMNOPQRSTUVWXYZ"[v]
  {
    assert v == 0 || v == 1 || v == 2 || v == 3 || v == 4 || v == 5 || v == 6 || v == 7 || v == 8 || v == 9 || v == 10
           || v == 11 || v == 12 || v == 13 || v == 14 || v == 15 || v == 16 || v == 17 || v == 18 || v == 19
           || v == 20 || v == 21 || v == 22 || v == 23 || v == 24 || v == 25;
  }

  lemma LowerExact(v: sextet)
    requires 26 <= v < 52
    ensures EncodeChar(v) == "abcdefghijklmnopqrstuvwxyz"[v - 26]
  {
    assert v == 26 || v == 27 || v == 28 || v == 29 || v == 30 || v == 31 || v == 32 || v == 33 || v == 34 || v == 35
           || v == 36 || v == 37 || v == 38 || v == 39 || v == 40 || v == 41 || v == 42 || v == 43 || v == 44
           || v == 45 || v == 46 || v == 47 || v == 48 || v == 49 || v == 50 || v == 51;
  }

  lemma DigitExact(v: sextet)
    requires 52 <= v < 62
    ensures EncodeChar(v) == "0123456789"[v - 52]
  {
    assert v == 52 || v == 53 || v == 54 || v == 55 || v == 56 || v == 57 || v == 58 || v == 59 || v == 60 || v == 61;
  }

  /** Table 2 of section 5 of RFC 4648: letters, digits, minus and underline, in this order. */
  lemma AlphabetExact(v: sextet)
    ensures EncodeChar(v) ==
            if v < 26 then "ABCDEFGHIJKLMNOPQRSTUVWXYZ"[v]
            else if v < 52 then "abcdefghijklmnopqrstuvwxyz"[v - 26]
            else if v < 62 then "0123456789"[v - 52]
            else "-_"[v - 62]
    ensures DecodeChar(EncodeChar(v)) == Some(v)
  {
    if v < 26 {
      UpperExact(v);
    } else if v < 52 {
      LowerExact(v);
    } else if v < 62 {
      DigitExact(v);
    }
    CharRoundTrip(v);
  }

  /** A character decodes to a value exactly when the table has it for that value. */
  lemma DecodeCharExact(c: char, v: sextet)
    ensures DecodeChar(c) == Some(v) <==> EncodeChar(v) == c
  {
  }

  /** A full group: its four characters stand for the same 24 bits as its three octets. */
  lemma GroupExact(bs: seq<byte>) returns (v0: sextet, v1: sextet, v2: sextet, v3: sextet)
    requires |bs| >= 3
    ensures v0 as int * 262144 + v1 as int * 4096 + v2 as int * 64 + v3 ==
            bs[0] as int * 65536 + bs[1] as int * 256 + bs[2]
    ensures Encode(bs) == [EncodeChar(v0), EncodeChar(v1), EncodeChar(v2), EncodeChar(v3)] + Encode(bs[3..])
  {
    v0, v1, v2, v3 := bs[0] / 4, bs[0] % 4 * 16 + bs[1] / 16, bs[1] % 16 * 4 + bs[2] / 64, bs[2] % 64;
    EncodeThree(bs);
  }

  /** A last group of two octets: three characters for their 16 bits, two zero bits, and a padding. */
  lemma PairExact(bs: seq<byte>) returns (v0: sextet, v1: sextet, v2: sextet)
    requires |bs| == 2
    ensures v0 as int * 4096 + v1 as int * 64 + v2 == (bs[0] as int * 256 + bs[1]) * 4
    ensures Encode(bs) == [EncodeChar(v0), EncodeChar(v1), EncodeChar(v2), '=']
  {
    v0, v1, v2 := bs[0] / 4, bs[0] % 4 * 16 + bs[1] / 16, bs[1] % 16 * 4;
  }

  lemma SingleExact(bs: seq<byte>) returns (v0: sextet, v1: sextet)
    requires |bs| == 1
    ensures v0 as int * 64 + v1 == bs[0] as int * 16 && Encode(bs) == [EncodeChar(v0), EncodeChar(v1), '=', '=']
  {
    v0, v1 := bs[0] / 4, bs[0] % 4 * 16;
  }

  // ---- what decodes ---------------------------------------------------------------

  /** Text over the alphabet, and at most two padding characters up to a multiple of four. */
  ghost predicate Padded(s: string, n: nat) {
    && n <= |s| && |s| % 4 == 0 && |s| - n <= 2
    && (forall i :: 0 <= i < n ==> InAlphabet(s[i]))
    && (forall i :: n <= i < |s| ==> s[i] == '=')
  }

  /** A last group with padding, or a full group and the rest. */
  ghost predicate LastGroup(s: string) {
    |s| == 4 && s[3] == '=' && InAlphabet(s[0]) && InAlphabet(s[1]) && (s[2] == '=' || InAlphabet(s[2]))
  }

  ghost predicate FullGroup(s: string) {
    |s| >= 4 && InAlphabet(s[0]) && InAlphabet(s[1]) && InAlphabet(s[2]) && InAlphabet(s[3])
  }

  lemma DecodeGroups(s: string)
    requires s != ""
    ensures Decode(s).Some? <==> LastGroup(s) || (FullGroup(s) && Decode(s[4..]).Some?)
  {
  }

  lemma LastPadded(s: string)
    requires LastGroup(s)
    ensures Padded(s, if s[2] == '=' then 2 else 3)
  {
  }

  lemma FullPadded(s: string, n: nat)
    requires FullGroup(s) && Padded(s[4..], n)
    ensures Padded(s, n + 4)
  {
    assert forall i :: 4 <= i < |s| ==> s[i] == s[4..][i - 4];
  }

  lemma PaddedGroups(s: string, n: nat)
    requires Padded(s, n) && s != ""
    ensures LastGroup(s) || (FullGroup(s) && n >= 4 && Padded(s[4..], n - 4))
  {
    if n >= 4 {
      assert forall i :: 0 <= i < |s| - 4 ==> s[4..][i] == s[i + 4];
    }
  }

  lemma {:induction false} DecodedPadded(s: string) returns (n: nat)
    requires Decode(s).Some?
    ensures Padded(s, n)
  {
    if s == "" {
      n := 0;
    } else {
      DecodeGroups(s);
      if LastGroup(s) {
        LastPadded(s);
        n := if s[2] == '=' then 2 else 3;
      } else {
        n := DecodedPadded(s[4..]);
        FullPadded(s, n);
        n := n + 4;
      }
    }
  }

  lemma {:induction false} PaddedDecodes(s: string, n: nat)
    requires Padded(s, n)
    ensures Decode(s).Some?
  {
    if s != "" {
      PaddedGroups(s, n);
      DecodeGroups(s);
      if !LastGroup(s) {
        PaddedDecodes(s[4..], n - 4);
      }
    }
  }

  /** Exactly the padded texts decode. */
  lemma DecodesExactly(s: string)
    ensures Decode(s).Some? <==> exists n :: Padded(s, n)
  {
    if Decode(s).Some? {
      var n := DecodedPadded(s);
    }
    if n :| Padded(s, n) {
      PaddedDecodes(s, n);
    }
  }

  // ---- padding --------------------------------------------------------------------

  /** `rstrip(b"=")`. */
  function StripPadding(s: string): string {
    if s != "" && s[|s| - 1] == '=' then StripPadding(s[..|s| - 1]) else s
  }

  /** Append '=' up to a multiple of four, unless the length already is one. */
  function AddPadding(s: string): string {
    var n := 4 - |s| % 4;
    if n == 4 then s else s + seq(n, _ => '=')
  }

  lemma ThreePadded(a: byte, b: byte, c: byte, rest: string, n: nat)
    requires Padded(rest, n)
    ensures Padded(Three(a, b, c) + rest, n + 4)
  {
    CharRoundTrip(a / 4);
    CharRoundTrip(a % 4 * 16 + b / 16);
    CharRoundTrip(b % 16 * 4 + c / 64);
    CharRoundTrip(c % 64);
    var s := Three(a, b, c) + rest;
    assert forall i :: 4 <= i < |s| ==> s[i] == rest[i - 4];
  }

  lemma {:induction false} EncodePadded(bs: seq<byte>) returns (n: nat)
    ensures Padded(Encode(bs), n)
  {
    if bs == [] {
      n := 0;
    } else if |bs| == 1 {
      CharRoundTrip(bs[0] / 4);
      CharRoundTrip(bs[0] % 4 * 16);
      n := 2;
    } else if |bs| == 2 {
      CharRoundTrip(bs[0] / 4);
      CharRoundTrip(bs[0] % 4 * 16 + bs[1] / 16);
      CharRoundTrip(bs[1] % 16 * 4);
      n := 3;
    } else {
      var m := EncodePadded(bs[3..]);
      ThreePadded(bs[0], bs[1], bs[2], Encode(bs[3..]), m);
      EncodeThree(bs);
      n := m + 4;
    }
  }

  lemma {:induction false} StripPadded(s: string, n: nat)
    requires n <= |s| && (n > 0 ==> s[n - 1] != '=') && forall i :: n <= i < |s| ==> s[i] == '='
    ensures StripPadding(s) == s[..n]
  {
    if |s| > n {
      StripPadded(s[..|s| - 1], n);
      assert s[..|s| - 1][..n] == s[..n];
    } else {
      assert s[..n] == s;
    }
  }

  /** The segments that auth.py writes. */
  function Segment(bs: seq<byte>): string {
    StripPadding(Encode(bs))
  }

  /** Reading a segment: restore the padding, then decode. */
  function ReadSegment(s: string): Option<seq<byte>> {
    Decode(AddPadding(s))
  }

  lemma MissingPadding(length: nat, n: nat)
    requires length % 4 == 0 && n <= length <= n + 2
    ensures 4 - n % 4 == if n == length then 4 else length - n
  {
  }

  lemma PaddingRestored(s: string, n: nat)
    requires Padded(s, n)
    ensures StripPadding(s) == s[..n] && AddPadding(s[..n]) == s
  {
    if n > 0 {
      assert InAlphabet(s[n - 1]);
    }
    StripPadded(s, n);
    MissingPadding(|s|, n);
    assert s == s[..n] + s[n..] && s[n..] == seq(|s| - n, _ => '=');
  }

  /** Restoring the padding inverts removing it, so a segment reads back as its octets; it holds
      only characters of the alphabet, hence neither '.' nor '='. */
  lemma SegmentRoundTrip(bs: seq<byte>)
    ensures AddPadding(StripPadding(Encode(bs))) == Encode(bs)
    ensures ReadSegment(Segment(bs)) == Some(bs)
    ensures forall i :: 0 <= i < |Segment(bs)| ==> InAlphabet(Segment(bs)[i])
  {
    var s := Encode(bs);
    var n := EncodePadded(bs);
    PaddingRestored(s, n);
    DecodeEncode(bs);
  }

  /** Distinct octet strings have distinct segments. */
  lemma SegmentInjective(a: seq<byte>, b: seq<byte>)
    requires Segment(a) == Segment(b)
    ensures a == b
  {
    SegmentRoundTrip(a);
    SegmentRoundTrip(b);
  }
}
