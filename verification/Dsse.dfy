/**
 The DSSE pre-authentication encoding (protocol v1, section "Signature Definition" of the
 DSSE protocol): `DSSEv1 <len(type)> <type> <len(payload)> <payload>` over raw bytes.
 */
module Dsse {
  import opened Common

  const SPACE: Byte := 32

  function Length(b: Bytes): Bytes { Ascii(Decimal(|b|)) }

  function Pae(payloadType: Bytes, payload: Bytes): Bytes {
    Ascii("DSSEv1") + [SPACE] +
    (Length(payloadType) + [SPACE] +
     (payloadType + [SPACE] + (Length(payload) + [SPACE] + payload)))
  }

  /**
   Read as text: the formula of the DSSE protocol, version 1, section "Signature Definition",
   with decimal lengths and single spaces.
   */
  lemma PaeAsText(t: string, p: string)
    ensures Pae(Ascii(t), Ascii(p)) == Ascii("DSSEv1 " + Decimal(|t|) + " " + t + " " + Decimal(|p|) + " " + p)
  {
    var n, m := Decimal(|t|), Decimal(|p|);
    assert |Ascii(t)| == |t| && |Ascii(p)| == |p|;
    hide Ascii, Decimal;
    AsciiOfThree(m, p);
    AsciiOfThree(t, m + " " + p);
    AsciiOfThree(n, t + " " + (m + " " + p));
    AsciiOfThree("DSSEv1", n + " " + (t + " " + (m + " " + p)));
    assert "DSSEv1" + " " == "DSSEv1 ";
    Regroup("DSSEv1 ", n, t, m, p);
  }

  lemma Regroup(a: string, n: string, t: string, m: string, p: string)
    ensures a + n + " " + t + " " + m + " " + p == a + (n + " " + (t + " " + (m + " " + p)))
  {
  }

  lemma AsciiOfThree(a: string, b: string)
    ensures Ascii(a + " " + b) == Ascii(a) + [SPACE] + Ascii(b)
  {
  }

  lemma LengthInjective(a: Bytes, b: Bytes)
    requires Length(a) == Length(b)
    ensures |a| == |b|
  {
    DecimalRoundTrip(|a|);
    DecimalRoundTrip(|b|);
    var x, y := Decimal(|a|), Decimal(|b|);
    forall i | 0 <= i < |x| ensures x[i] == y[i] {
      assert Length(a)[i] == Length(b)[i];
    }
    assert x == y;
  }

  lemma LengthHasNoSpace(a: Bytes)
    ensures SPACE !in Length(a)
  {
    DecimalRoundTrip(|a|);
  }

  function FirstSpace(s: Bytes): nat {
    if s == [] || s[0] == SPACE then 0 else 1 + FirstSpace(s[1..])
  }

  lemma {:induction false} FirstSpaceAfter(a: Bytes, x: Bytes)
    requires SPACE !in a
    ensures FirstSpace(a + [SPACE] + x) == |a|
  {
    if a != [] {
      FirstSpaceAfter(a[1..], x);
      assert (a + [SPACE] + x)[1..] == a[1..] + [SPACE] + x;
    }
  }

  /** Text before the first space is determined. */
  lemma FirstField(a: Bytes, x: Bytes, b: Bytes, y: Bytes)
    requires SPACE !in a && SPACE !in b
    requires a + [SPACE] + x == b + [SPACE] + y
    ensures a == b && x == y
  {
    FirstSpaceAfter(a, x);
    FirstSpaceAfter(b, y);
    SizedField(a + [SPACE], x, b + [SPACE], y);
    assert a == (a + [SPACE])[..|a|] && b == (b + [SPACE])[..|b|];
  }

  /** A field of known length is determined. */
  lemma SizedField(a: Bytes, x: Bytes, b: Bytes, y: Bytes)
    requires |a| == |b| && a + x == b + y
    ensures a == b && x == y
  {
    assert a == (a + x)[..|a|] && b == (b + y)[..|b|];
    assert x == (a + x)[|a|..] && y == (b + y)[|b|..];
  }

  /**
   No two (type, payload) pairs share an encoding, whatever bytes they contain: a signature
   over the encoding covers both the type and the payload.
   */
  lemma PaeInjective(t1: Bytes, p1: Bytes, t2: Bytes, p2: Bytes)
    requires Pae(t1, p1) == Pae(t2, p2)
    ensures t1 == t2 && p1 == p2
  {
    var tail1, tail2 := Length(p1) + [SPACE] + p1, Length(p2) + [SPACE] + p2;
    var body1, body2 := t1 + [SPACE] + tail1, t2 + [SPACE] + tail2;
    var rest1, rest2 := Length(t1) + [SPACE] + body1, Length(t2) + [SPACE] + body2;
    SizedField(Ascii("DSSEv1") + [SPACE], rest1, Ascii("DSSEv1") + [SPACE], rest2);
    LengthHasNoSpace(t1);
    LengthHasNoSpace(t2);
    FirstField(Length(t1), body1, Length(t2), body2);
    LengthInjective(t1, t2);
    SizedField(t1 + [SPACE], tail1, t2 + [SPACE], tail2);
    assert t1 == (t1 + [SPACE])[..|t1|] && t2 == (t2 + [SPACE])[..|t2|];
    LengthHasNoSpace(p1);
    LengthHasNoSpace(p2);
    FirstField(Length(p1), p1, Length(p2), p2);
  }
}
