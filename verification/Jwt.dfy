/** Signing and verification of RS256 tokens in compact form (auth.py; sections 2 and 7.1 of
    RFC 7515). JSON text, character encoding and RSA stay abstract. */
module Jwt {
  import opened Common
  import opened Json
  import opened Base64Url

  /** The library functions: JSON text, UTF-8, and PKCS #1 v1.5 signatures with a key pair. */
  datatype Codec = Codec(
    dumps: Json -> seq<byte>,
    loads: seq<byte> -> Option<Json>,
    utf8: string -> seq<byte>,
    sign: seq<byte> -> seq<byte>,
    verify: (seq<byte>, seq<byte>) -> bool)
  {
    /** Parsing inverts printing on this value. */
    predicate Prints(j: Json) {
      loads(dumps(j)) == Some(j)
    }

    /** The header survives its text, and a key verifies what its private half signed. */
    ghost predicate Sound() {
      Prints(HEADER) && forall m :: verify(sign(m), m)
    }
  }

  const HEADER := JObj(map["alg" := JStr("RS256"), "typ" := JStr("JWT")])

  function Sign(c: Codec, payload: Object): string {
    var header := Segment(c.dumps(HEADER));
    var body := Segment(c.dumps(JObj(payload)));
    header + "." + body + "." + Segment(c.sign(c.utf8(header + "." + body)))
  }

  /** `token.split(".")`. */
  function Split(s: string): (parts: seq<string>)
    ensures |parts| >= 1
  {
    if s == "" then [""]
    else
      var rest := Split(s[1..]);
      if s[0] == '.' then [""] + rest else [[s[0]] + rest[0]] + rest[1..]
  }

  predicate NoDot(s: string) {
    forall i :: 0 <= i < |s| ==> s[i] != '.'
  }

  lemma {:induction false} SplitPlain(s: string)
    requires NoDot(s)
    ensures Split(s) == [s]
  {
    if s != "" {
      SplitPlain(s[1..]);
      assert [s[0]] + s[1..] == s;
    }
  }

  lemma {:induction false} SplitAtDot(a: string, s: string)
    requires NoDot(a)
    ensures Split(a + "." + s) == [a] + Split(s)
  {
    var t := a + "." + s;
    if a == "" {
      assert t[1..] == s;
    } else {
      SplitAtDot(a[1..], s);
      assert t[1..] == a[1..] + "." + s;
      assert [a[0]] + a[1..] == a;
    }
  }

  /** The expiry check rejects: a true value that is not a number makes the comparison raise. */
  predicate Expired(exp: Json, now: real) {
    match exp
    case JNum(n) => n != 0.0 && now > n
    case JBool(b) => b && now > 1.0
    case _ => Truth(exp)
  }

  predicate AudienceMatches(payload: Object, audience: Option<seq<string>>) {
    match audience
    case None => true
    case Some(wanted) =>
      match GetOr(payload, "aud", JArr([]))
      case JStr(s) => s in wanted
      case JArr(items) => exists a :: a in wanted && JStr(a) in items
      case JObj(members) => exists a :: a in wanted && a in members
      case _ => false
  }

  predicate Acceptable(payload: Object, issuer: string, audience: Option<seq<string>>, now: real) {
    !Expired(Get(payload, "exp"), now) && Get(payload, "iss") == JStr(issuer) && AudienceMatches(payload, audience)
  }

  function ReadJson(c: Codec, segment: string): Option<Object> {
    match ReadSegment(segment)
    case None => None
    case Some(bs) =>
      match c.loads(bs)
      case Some(JObj(members)) => Some(members)
      case _ => None
  }

  /** Every failure, raised or not, ends in None. */
  function Verify(c: Codec, token: string, issuer: string, audience: Option<seq<string>>, now: real): Option<Object> {
    var parts := Split(token);
    if |parts| != 3 then None
    else
      var header := ReadJson(c, parts[0]);
      var payload := ReadJson(c, parts[1]);
      var signature := ReadSegment(parts[2]);
      if header.None? || Get(header.value, "alg") != JStr("RS256") then None
      else if payload.None? || !Acceptable(payload.value, issuer, audience, now) then None
      else if signature.None? || !c.verify(signature.value, c.utf8(parts[0] + "." + parts[1])) then None
      else payload
  }

  lemma SegmentHasNoDot(bs: seq<byte>)
    ensures NoDot(Segment(bs))
  {
    SegmentRoundTrip(bs);
    forall i | 0 <= i < |Segment(bs)|
      ensures Segment(bs)[i] != '.'
    {
      assert InAlphabet(Segment(bs)[i]);
    }
  }

  lemma SplitToken(a: string, b: string, s: string)
    requires NoDot(a) && NoDot(b) && NoDot(s)
    ensures Split(a + "." + b + "." + s) == [a, b, s]
  {
    assert a + "." + b + "." + s == a + "." + (b + "." + s);
    SplitAtDot(a, b + "." + s);
    SplitAtDot(b, s);
    SplitPlain(s);
  }

  /** The payload of a token after its trip through JSON text. */
  function Received(c: Codec, payload: Object): Option<Object> {
    match c.loads(c.dumps(JObj(payload)))
    case Some(JObj(members)) => Some(members)
    case _ => None
  }

  lemma SignedParts(c: Codec, payload: Object) returns (parts: seq<string>, signature: seq<byte>)
    ensures Split(Sign(c, payload)) == parts && |parts| == 3
    ensures ReadSegment(parts[0]) == Some(c.dumps(JObj(map["alg" := JStr("RS256"), "typ" := JStr("JWT")])))
    ensures ReadSegment(parts[1]) == Some(c.dumps(JObj(payload)))
    ensures ReadSegment(parts[2]) == Some(signature) && signature == c.sign(c.utf8(parts[0] + "." + parts[1]))
  {
    var header := Segment(c.dumps(HEADER));
    var body := Segment(c.dumps(JObj(payload)));
    signature := c.sign(c.utf8(header + "." + body));
    parts := [header, body, Segment(signature)];
    SegmentHasNoDot(c.dumps(HEADER));
    SegmentHasNoDot(c.dumps(JObj(payload)));
    SegmentHasNoDot(signature);
    SplitToken(header, body, Segment(signature));
    SegmentRoundTrip(c.dumps(HEADER));
    SegmentRoundTrip(c.dumps(JObj(payload)));
    SegmentRoundTrip(signature);
  }

  /** For every payload and whatever JSON text makes of it, verifying the signed token returns
      exactly what its text reads as, when that passes the checks, and nothing otherwise. */
  lemma VerifyReceived(c: Codec, payload: Object, issuer: string, audience: Option<seq<string>>, now: real)
    requires c.Sound()
    ensures Verify(c, Sign(c, payload), issuer, audience, now) ==
            var p := Received(c, payload);
            if p.Some? && Acceptable(p.value, issuer, audience, now) then p else None
  {
    var parts, signature := SignedParts(c, payload);
    assert ReadJson(c, parts[0]) == Some(HEADER.members);
    assert ReadJson(c, parts[1]) == Received(c, payload);
  }

  /** Verifying a signed token returns exactly the signed payload when the issuer and audience
      match and it is not past its expiry, and nothing otherwise, for every payload that its JSON
      text preserves. */
  lemma VerifySigned(c: Codec, payload: Object, issuer: string, audience: Option<seq<string>>, now: real)
    requires c.Sound() && c.Prints(JObj(payload))
    ensures Verify(c, Sign(c, payload), issuer, audience, now) ==
            if Acceptable(payload, issuer, audience, now) then Some(payload) else None
  {
    VerifyReceived(c, payload, issuer, audience, now);
  }

  /** The checks spelled out: a payload comes back exactly when its issuer is the expected one, it has
      no expiry or a false one or one not yet passed, and, if an audience is asked for, its "aud"
      member names one of it. An expiry or audience of another type makes the check raise. */
  lemma AcceptedExactly(c: Codec, payload: Object, issuer: string, audience: Option<seq<string>>, now: real)
    requires c.Sound() && c.Prints(JObj(payload))
    ensures Verify(c, Sign(c, payload), issuer, audience, now) == Some(payload) <==>
            && "iss" in payload && payload["iss"] == JStr(issuer)
            && (if "exp" !in payload then true
                else match payload["exp"]
                     case JNull => true
                     case JNum(n) => n == 0.0 || now <= n
                     case JBool(b) => !b || now <= 1.0
                     case JStr(s) => s == ""
                     case JArr(items) => items == []
                     case JObj(members) => members == map[])
            && (audience.Some? ==>
                  && "aud" in payload
                  && match payload["aud"]
                     case JStr(s) => s in audience.value
                     case JArr(items) => exists a :: a in audience.value && JStr(a) in items
                     case JObj(members) => exists a :: a in audience.value && a in members
                     case _ => false)
  {
    VerifySigned(c, payload, issuer, audience, now);
  }

  /** The assumptions can be met for any two payloads: there is a codec that prints both. */
  lemma CodecExists(p: Object, q: Object) returns (c: Codec)
    ensures c.Sound() && c.Prints(JObj(p)) && c.Prints(JObj(q))
  {
    c := Codec(
      j => if j == HEADER then [0] else if j == JObj(p) then [1] else [2],
      bs => Some(if bs == [0] then HEADER else if bs == [1] then JObj(p) else JObj(q)),
      _ => [],
      m => m,
      (signature, m) => signature == m);
    assert c.Prints(HEADER) && c.Prints(JObj(p)) && c.Prints(JObj(q));
  }

  /** Different payloads that JSON text preserves never share a token. */
  lemma SignInjective(c: Codec, p: Object, q: Object)
    requires c.Prints(JObj(p)) && c.Prints(JObj(q)) && Sign(c, p) == Sign(c, q)
    ensures p == q
  {
    var a, _ := SignedParts(c, p);
    var b, _ := SignedParts(c, q);
    assert ReadSegment(a[1]) == ReadSegment(b[1]);
  }

  function Join(parts: seq<string>): string
    requires |parts| >= 1
  {
    if |parts| == 1 then parts[0] else parts[0] + "." + Join(parts[1..])
  }

  lemma {:induction false} JoinSplit(s: string)
    ensures Join(Split(s)) == s
  {
    if s != "" {
      JoinSplit(s[1..]);
      var rest := Split(s[1..]);
      var parts := Split(s);
      if s[0] == '.' {
        assert parts[1..] == rest;
        assert "" + "." + s[1..] == s;
      } else if |rest| == 1 {
        assert [s[0]] + s[1..] == s;
      } else {
        assert parts[1..] == rest[1..];
        assert parts[0] + "." + Join(rest[1..]) == [s[0]] + (rest[0] + "." + Join(rest[1..]));
        assert [s[0]] + s[1..] == s;
      }
    }
  }

  lemma JoinThree(parts: seq<string>)
    requires |parts| == 3
    ensures Join(parts) == parts[0] + "." + parts[1] + "." + parts[2]
  {
    var rest := parts[1..];
    assert Join(rest) == parts[1] + "." + Join(rest[1..]) && rest[1..] == [parts[2]];
    assert parts[0] + "." + (parts[1] + "." + parts[2]) == parts[0] + "." + parts[1] + "." + parts[2];
  }

  /** Whatever token is accepted, its signature covers its first two segments, the second of which
      holds the returned payload, and the payload passes the issuer, audience and expiry checks. */
  lemma VerifiedIsSigned(c: Codec, token: string, issuer: string, audience: Option<seq<string>>, now: real)
    requires Verify(c, token, issuer, audience, now).Some?
    ensures exists header, body, signature, octets ::
              && token == header + "." + body + "." + signature
              && ReadSegment(signature) == Some(octets) && c.verify(octets, c.utf8(header + "." + body))
              && ReadJson(c, header).Some? && "alg" in ReadJson(c, header).value
              && ReadJson(c, header).value["alg"] == JStr("RS256")
              && ReadJson(c, body) == Verify(c, token, issuer, audience, now)
              && Acceptable(Verify(c, token, issuer, audience, now).value, issuer, audience, now)
  {
    var parts := Split(token);
    JoinSplit(token);
    JoinThree(parts);
    var octets := ReadSegment(parts[2]).value;
    assert ReadSegment(parts[2]) == Some(octets) && c.verify(octets, c.utf8(parts[0] + "." + parts[1]));
  }

  /** The other half: every token of three segments, with the right algorithm in its header, a payload
      that passes the checks and a signature over both, is accepted. */
  lemma SignedIsVerified(c: Codec, header: string, body: string, signature: string, issuer: string,
                         audience: Option<seq<string>>, now: real)
    requires NoDot(header) && NoDot(body) && NoDot(signature)
    requires ReadJson(c, header).Some? && Get(ReadJson(c, header).value, "alg") == JStr("RS256")
    requires ReadJson(c, body).Some? && Acceptable(ReadJson(c, body).value, issuer, audience, now)
    requires ReadSegment(signature).Some? && c.verify(ReadSegment(signature).value, c.utf8(header + "." + body))
    ensures Verify(c, header + "." + body + "." + signature, issuer, audience, now) == ReadJson(c, body)
  {
    SplitToken(header, body, signature);
  }
}
