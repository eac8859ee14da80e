/**
 UTF-8 as captured output meets it: well-formedness (the syntax of section 4 of RFC 3629),
 lossy decoding, character boundaries, and truncation at a boundary.
 */
module Utf8 {
  import opened Common

  predicate Tail(b: Byte) { 0x80 <= b <= 0xBF }

  /** Length of the well-formed character at the front, or 0 if there is none. */
  function CharLength(s: Bytes): (n: nat)
    ensures n <= 4 && n <= |s|
    ensures n > 0 ==> !Tail(s[0]) && forall i | 1 <= i < n :: Tail(s[i])
  {
    if |s| >= 1 && s[0] <= 0x7F then 1
    else if |s| >= 2 && 0xC2 <= s[0] <= 0xDF && Tail(s[1]) then 2
    else if |s| >= 3 && SecondOfThree(s[0], s[1]) && Tail(s[2]) then 3
    else if |s| >= 4 && SecondOfFour(s[0], s[1]) && Tail(s[2]) && Tail(s[3]) then 4
    else 0
  }

  predicate SecondOfThree(b0: Byte, b1: Byte) {
    || (b0 == 0xE0 && 0xA0 <= b1 <= 0xBF)
    || (0xE1 <= b0 <= 0xEC && Tail(b1))
    || (b0 == 0xED && 0x80 <= b1 <= 0x9F)
    || (0xEE <= b0 <= 0xEF && Tail(b1))
  }

  predicate SecondOfFour(b0: Byte, b1: Byte) {
    || (b0 == 0xF0 && 0x90 <= b1 <= 0xBF)
    || (0xF1 <= b0 <= 0xF3 && Tail(b1))
    || (b0 == 0xF4 && 0x80 <= b1 <= 0x8F)
  }

  // ----- characters are encoded scalar values

  /** A Unicode scalar value: a code point that is not a surrogate. */
  predicate Scalar(cp: nat) { cp < 0xD800 || 0xE000 <= cp <= 0x10FFFF }

  /** The encoding table of section 3 of RFC 3629. */
  function Encode(cp: nat): Bytes
    requires Scalar(cp)
  {
    if cp < 0x80 then [cp]
    else if cp < 0x800 then [0xC0 + cp / 64, 0x80 + cp % 64]
    else if cp < 0x10000 then [0xE0 + cp / 4096, 0x80 + cp / 64 % 64, 0x80 + cp % 64]
    else [0xF0 + cp / 262144, 0x80 + cp / 4096 % 64, 0x80 + cp / 64 % 64, 0x80 + cp % 64]
  }

  lemma Digits(a: nat, b: nat, c: nat, d: nat)
    requires b < 64 && c < 64 && d < 64
    ensures
      var cp := a * 262144 + b * 4096 + c * 64 + d;
      cp / 262144 == a && cp / 4096 % 64 == b && cp / 64 % 64 == c && cp % 64 == d && cp / 4096 == a * 64 + b && cp / 64 == (a * 64 + b) * 64 + c
  {
    var cp := a * 262144 + b * 4096 + c * 64 + d;
    assert cp == 64 * ((a * 64 + b) * 64 + c) + d;
    assert cp / 64 == (a * 64 + b) * 64 + c;
    assert cp / 4096 == a * 64 + b;
    assert cp / 262144 == a;
  }

  /** What a scalar value encodes to is a character, whatever follows. */
  lemma EncodedIsCharacter(cp: nat, s: Bytes)
    requires Scalar(cp) && Encode(cp) <= s
    ensures CharLength(s) == |Encode(cp)|
  {
    var e := Encode(cp);
    CharacterOfCode(cp);
    assert e[..|e|] == e;
    CharLengthLocal(e, s);
  }

  lemma CharacterOfCode(cp: nat)
    requires Scalar(cp)
    ensures CharLength(Encode(cp)) == |Encode(cp)|
  {
    if 0x800 <= cp < 0x10000 {
      CharacterOfThree(cp);
    } else if cp >= 0x10000 {
      CharacterOfFour(cp);
    }
  }

  lemma CharacterOfThree(cp: nat)
    requires Scalar(cp) && 0x800 <= cp < 0x10000
    ensures CharLength(Encode(cp)) == 3
  {
    var a, b, c := cp / 4096, cp / 64 % 64, cp % 64;
    assert cp == a * 4096 + b * 64 + c;
    LeadOfThree(a, b, c);
  }

  lemma LeadOfThree(a: nat, b: nat, c: nat)
    requires a < 16 && b < 64 && c < 64
    requires 0x800 <= a * 4096 + b * 64 + c && Scalar(a * 4096 + b * 64 + c)
    ensures CharLength([0xE0 + a, 0x80 + b, 0x80 + c]) == 3
  {
  }

  lemma CharacterOfFour(cp: nat)
    requires Scalar(cp) && cp >= 0x10000
    ensures CharLength(Encode(cp)) == 4
  {
    var a, b, c, d := cp / 262144, cp / 4096 % 64, cp / 64 % 64, cp % 64;
    InBase64(cp);
    hide CharLength;
    LeadOfFour(a, b, c, d);
  }

  lemma InBase64(cp: nat)
    ensures cp == cp / 262144 * 262144 + cp / 4096 % 64 * 4096 + cp / 64 % 64 * 64 + cp % 64
  {
    assert cp / 4096 == cp / 64 / 64 && cp / 262144 == cp / 4096 / 64;
  }

  lemma LeadOfFour(a: nat, b: nat, c: nat, d: nat)
    requires b < 64 && c < 64 && d < 64
    requires 0x10000 <= a * 262144 + b * 4096 + c * 64 + d <= 0x10FFFF
    ensures a <= 4 && CharLength([0xF0 + a, 0x80 + b, 0x80 + c, 0x80 + d]) == 4
  {
  }

  /** Every well-formed character encodes a scalar value. */
  lemma CharacterIsEncoded(s: Bytes) returns (cp: nat)
    requires CharLength(s) > 0
    ensures Scalar(cp) && s[..CharLength(s)] == Encode(cp)
  {
    var n := CharLength(s);
    if n == 1 {
      cp := s[0];
    } else if n == 2 {
      cp := TwoBytes(s[0], s[1]);
      assert s[..2] == [s[0], s[1]];
    } else if n == 3 {
      cp := ThreeBytes(s[0], s[1], s[2]);
      assert s[..3] == [s[0], s[1], s[2]];
    } else {
      cp := FourBytes(s[0], s[1], s[2], s[3]);
      assert s[..4] == [s[0], s[1], s[2], s[3]];
    }
  }

  lemma TwoBytes(a: int, b: int) returns (cp: nat)
    requires 0xC2 <= a <= 0xDF && 0x80 <= b <= 0xBF
    ensures Scalar(cp) && Encode(cp) == [a, b]
  {
    cp := (a - 0xC0) * 64 + (b - 0x80);
    Digits(0, 0, a - 0xC0, b - 0x80);
  }

  lemma ThreeBytes(a: Byte, b: Byte, c: Byte) returns (cp: nat)
    requires SecondOfThree(a, b) && Tail(c)
    ensures Scalar(cp) && Encode(cp) == [a, b, c]
  {
    var x: int, y: int, z: int := a as int - 0xE0, b as int - 0x80, c as int - 0x80;
    cp := x * 4096 + y * 64 + z;
    Digits(0, x, y, z);
  }

  lemma FourBytes(a: Byte, b: Byte, c: Byte, d: Byte) returns (cp: nat)
    requires SecondOfFour(a, b) && Tail(c) && Tail(d)
    ensures Scalar(cp) && Encode(cp) == [a, b, c, d]
  {
    var w: int, x: int, y: int, z: int := a as int - 0xF0, b as int - 0x80, c as int - 0x80, d as int - 0x80;
    cp := w * 262144 + x * 4096 + y * 64 + z;
    Digits(w, x, y, z);
  }

  /** A sequence of whole characters: what a Rust `String` may hold. */
  predicate Valid(s: Bytes)
    decreases |s|
  {
    s == [] || (CharLength(s) > 0 && Valid(s[CharLength(s)..]))
  }

  // ----- lossy decoding

  const REPLACEMENT: Bytes := [0xEF, 0xBF, 0xBD]

  /** How many bytes one replacement character stands for: the longest truncated character. */
  function InvalidLength(s: Bytes): (n: nat)
    requires s != [] && CharLength(s) == 0
    ensures 1 <= n <= |s|
  {
    if |s| >= 3 && SecondOfFour(s[0], s[1]) && Tail(s[2]) then 3
    else if |s| >= 2 && (SecondOfFour(s[0], s[1]) || SecondOfThree(s[0], s[1])) then 2
    else 1
  }

  /** `String::from_utf8_lossy`. */
  function Lossy(s: Bytes): Bytes
    decreases |s|
  {
    if s == [] then []
    else
      var n := CharLength(s);
      if n > 0 then s[..n] + Lossy(s[n..]) else REPLACEMENT + Lossy(s[InvalidLength(s)..])
  }

  /** A character's length depends only on its own bytes. */
  lemma CharLengthLocal(s: Bytes, t: Bytes)
    requires CharLength(s) > 0 && s[..CharLength(s)] <= t
    ensures CharLength(t) == CharLength(s)
  {
    var n := CharLength(s);
    assert forall i | 0 <= i < n :: t[i] == s[..n][i] == s[i];
  }

  lemma {:induction false} ValidConcat(c: Bytes, s: Bytes)
    requires CharLength(c) == |c| > 0 && Valid(s)
    ensures Valid(c + s)
  {
    assert c[..|c|] == c;
    CharLengthLocal(c, c + s);
    assert (c + s)[|c|..] == s;
  }

  lemma LossyOfCharacter(s: Bytes, n: nat)
    requires n == CharLength(s) > 0
    ensures Lossy(s) == s[..n] + Lossy(s[n..])
  {
    hide CharLength;
  }

  lemma {:induction false} LossyIsText(s: Bytes)
    ensures Valid(Lossy(s))
    decreases |s|
  {
    if s != [] {
      var n := CharLength(s);
      if n > 0 {
        LossyIsText(s[n..]);
        LossyOfCharacter(s, n);
        CharLengthLocal(s, s[..n]);
        ValidConcat(s[..n], Lossy(s[n..]));
      } else {
        var rest := s[InvalidLength(s)..];
        LossyIsText(rest);
        assert CharLength(REPLACEMENT) == 3;
        ValidConcat(REPLACEMENT, Lossy(rest));
      }
    }
  }

  /** Lossy decoding always yields text, and changes nothing exactly when there was nothing to repair. */
  lemma {:induction false} LossyRepairs(s: Bytes)
    ensures Valid(Lossy(s))
    ensures Lossy(s) == s <==> Valid(s)
    decreases |s|
  {
    hide CharLength, Lossy;
    LossyIsText(s);
    if Valid(s) && s != [] {
      var n := CharLength(s);
      LossyRepairs(s[n..]);
      LossyOfCharacter(s, n);
      assert s == s[..n] + s[n..];
    } else if s == [] {
      LossyOfNothing();
    }
  }

  lemma LossyOfNothing()
    ensures Lossy([]) == []
  {
  }

  lemma {:induction false} AsciiIsText(s: Bytes)
    requires forall i | 0 <= i < |s| :: s[i] < 128
    ensures Valid(s)
  {
    if s != [] {
      AsciiIsText(s[1..]);
    }
  }

  lemma FirstCharacter(s: Bytes)
    requires Valid(s) && s != []
    ensures 0 < CharLength(s) <= |s| && Valid(s[CharLength(s)..])
  {
    hide CharLength;
  }

  lemma CharacterThenText(s: Bytes, n: nat)
    requires 0 < n <= |s| && CharLength(s) == n && Valid(s[n..])
    ensures Valid(s)
  {
    hide CharLength;
  }

  lemma {:induction false} TextConcat(a: Bytes, b: Bytes)
    requires Valid(a) && Valid(b)
    ensures Valid(a + b)
    decreases |a|
  {
    hide CharLength, Valid;
    if a == [] {
      assert a + b == b;
    } else {
      FirstCharacter(a);
      var n := CharLength(a);
      TextConcat(a[n..], b);
      assert a[..n] <= a + b && (a + b)[n..] == a[n..] + b;
      CharLengthLocal(a, a + b);
      CharacterThenText(a + b, n);
    }
  }

  /** Decoding text followed by anything repairs only what follows. */
  lemma {:induction false} LossyAfterText(a: Bytes, b: Bytes)
    requires Valid(a)
    ensures Lossy(a + b) == a + Lossy(b)
    decreases |a|
  {
    hide CharLength, Lossy, Valid;
    if a == [] {
      assert a + b == b && a + Lossy(b) == Lossy(b);
    } else {
      FirstCharacter(a);
      var n := CharLength(a);
      assert (a + b)[..n] == a[..n] && (a + b)[n..] == a[n..] + b;
      CharLengthLocal(a, a + b);
      LossyOfCharacter(a + b, n);
      LossyAfterText(a[n..], b);
      assert a[..n] + (a[n..] + Lossy(b)) == a + Lossy(b);
    }
  }

  /** Text after anything is kept: a character cut short is not completed by what follows. */
  lemma {:induction false} LossyBeforeText(s: Bytes, t: Bytes)
    requires Valid(t)
    ensures Lossy(s + t) == Lossy(s) + t
    decreases |s|
  {
    if s == [] {
      LossyRepairs(t);
      assert s + t == t && [] + t == t;
    } else {
      BreakIsUnaffected(s, t);
      var n := CharLength(s);
      var m := if n > 0 then n else InvalidLength(s);
      var front := if n > 0 then s[..n] else REPLACEMENT;
      hide CharLength, InvalidLength;
      assert (s + t)[m..] == s[m..] + t && (s + t)[..m] == s[..m];
      LossyBeforeText(s[m..], t);
      assert front + (Lossy(s[m..]) + t) == front + Lossy(s[m..]) + t;
    }
  }

  lemma BreakIsUnaffected(s: Bytes, t: Bytes)
    requires Valid(t) && s != []
    ensures CharLength(s + t) == CharLength(s)
    ensures CharLength(s) == 0 ==> InvalidLength(s + t) == InvalidLength(s)
  {
    var whole := s + t;
    assert forall i | 0 <= i < |s| :: whole[i] == s[i];
    if t != [] {
      assert whole[|s|] == t[0] && !Tail(t[0]) by { FirstCharacter(t); }
    } else {
      assert whole == s;
    }
  }

  /**
   One replacement character stands for the longest piece that begins some character, or for
   one byte if no character begins so.
   */
  lemma ReplacedPieceIsMaximal(s: Bytes)
    requires s != [] && CharLength(s) == 0
    ensures
      var n := InvalidLength(s);
      && (n > 1 ==> Completion(s[..n]).Some?)
      && forall m | n < m <= |s| :: Completion(s[..m]).None?
  {
  }

  /** Decoding neither adds nor hides a newline. */
  lemma {:induction false} LossyKeepsToTheLine(s: Bytes)
    requires NEWLINE !in s
    ensures NEWLINE !in Lossy(s) && (Lossy(s) == [] <==> s == [])
    decreases |s|
  {
    if s != [] {
      var n := CharLength(s);
      var rest := if n > 0 then s[n..] else s[InvalidLength(s)..];
      LossyKeepsToTheLine(rest);
      hide CharLength, InvalidLength;
      assert NEWLINE !in REPLACEMENT && (n > 0 ==> NEWLINE !in s[..n]);
    }
  }

  // ----- text cut short

  /** The shortest way to complete a character cut short, if these bytes are one. */
  function Completion(s: Bytes): (c: Option<Bytes>)
    ensures c.Some? ==> c.value != [] && forall i | 0 <= i < |c.value| :: Tail(c.value[i])
  {
    if |s| == 1 then
      if 0xC2 <= s[0] <= 0xDF then Some([0x80])
      else if s[0] == 0xE0 then Some([0xA0, 0x80])
      else if 0xE1 <= s[0] <= 0xEF then Some([0x80, 0x80])
      else if s[0] == 0xF0 then Some([0x90, 0x80, 0x80])
      else if 0xF1 <= s[0] <= 0xF4 then Some([0x80, 0x80, 0x80])
      else None
    else if |s| == 2 then
      if SecondOfThree(s[0], s[1]) then Some([0x80])
      else if SecondOfFour(s[0], s[1]) then Some([0x80, 0x80])
      else None
    else if |s| == 3 && SecondOfFour(s[0], s[1]) && Tail(s[2]) then Some([0x80])
    else None
  }

  /** What bytes lack at their end to be text; None if nothing appended can make them text. */
  function Lacks(s: Bytes): Option<Bytes>
    decreases |s|
  {
    if s == [] then Some([])
    else if CharLength(s) > 0 then Lacks(s[CharLength(s)..])
    else Completion(s)
  }

  lemma CompletionCompletes(s: Bytes)
    requires CharLength(s) == 0 && Completion(s).Some?
    ensures CharLength(s + Completion(s).value) == |s + Completion(s).value|
  {
    var t := s + Completion(s).value;
    assert forall i | 0 <= i < |s| :: t[i] == s[i];
    assert forall i | 0 <= i < |Completion(s).value| :: t[|s| + i] == Completion(s).value[i];
  }

  /** No character starts with these bytes unless they can be completed, and not with fewer bytes. */
  lemma CompletionIsShortest(s: Bytes, t: Bytes)
    requires s != [] && CharLength(s) == 0 && CharLength(s + t) > 0
    ensures Completion(s).Some? && |Completion(s).value| <= |t|
    ensures forall i | 0 <= i < |Completion(s).value| :: Tail(t[i])
  {
    var whole := s + t;
    var n := CharLength(whole);
    assert forall i | 0 <= i < |s| :: whole[i] == s[i];
    assert forall i | 0 <= i < |t| :: whole[|s| + i] == t[i];
  }

  /** Appending what is lacking gives text. */
  lemma {:induction false} LackingCompletes(s: Bytes)
    requires Lacks(s).Some?
    ensures Valid(s + Lacks(s).value)
    ensures Lacks(s).value == [] <==> Valid(s)
    decreases |s|
  {
    hide CharLength, Completion;
    if s == [] {
    } else if CharLength(s) > 0 {
      var n := CharLength(s);
      LackingCompletes(s[n..]);
      var whole := s + Lacks(s).value;
      assert s[..n] <= whole && whole[n..] == s[n..] + Lacks(s).value;
      CharLengthLocal(s, whole);
      CharacterThenText(whole, n);
    } else {
      CompletionCompletes(s);
      var whole := s + Lacks(s).value;
      assert whole[|whole|..] == [];
      CharacterThenText(whole, |whole|);
    }
  }

  /** Whatever completes bytes to text starts with at least as many continuation bytes as are lacking. */
  lemma {:induction false} LackingIsShortest(s: Bytes, t: Bytes)
    requires Valid(s + t)
    ensures Lacks(s).Some? && |Lacks(s).value| <= |t|
    ensures forall i | 0 <= i < |Lacks(s).value| :: Tail(t[i])
    decreases |s|
  {
    var whole := s + t;
    if s == [] {
    } else if CharLength(s) > 0 {
      var n := CharLength(s);
      assert s[..n] <= whole && whole[n..] == s[n..] + t;
      CharLengthLocal(s, whole);
      FirstCharacter(whole);
      LackingIsShortest(s[n..], t);
    } else {
      FirstCharacter(whole);
      CompletionIsShortest(s, t);
    }
  }

  // ----- character boundaries

  /** `str::is_char_boundary`, a test on one byte. */
  predicate Boundary(s: Bytes, i: nat) {
    i == 0 || i == |s| || (i < |s| && !Tail(s[i]))
  }

  lemma SliceOfSlice(s: Bytes, n: nat, i: nat)
    requires n <= i <= |s|
    ensures s[..i][n..] == s[n..][..i - n] && s[i..] == s[n..][i - n..] && s[..n] <= s[..i]
  {
  }

  /** In text, the one-byte test finds exactly the positions where a prefix is text. */
  lemma {:induction false} BoundaryIffPrefixValid(s: Bytes, i: nat)
    requires Valid(s) && i <= |s|
    ensures Boundary(s, i) <==> Valid(s[..i])
    ensures Valid(s[..i]) ==> Valid(s[i..])
    decreases |s|
  {
    if s != [] && i > 0 {
      var n := CharLength(s);
      if i < n {
        var p := s[..i];
        if CharLength(p) > 0 {
          assert p[..CharLength(p)] <= s;
          CharLengthLocal(p, s);
        }
      } else {
        BoundaryIffPrefixValid(s[n..], i - n);
        SliceOfSlice(s, n, i);
        CharLengthLocal(s, s[..i]);
      }
    } else {
      assert i == 0 ==> s[..i] == [] && s[i..] == s;
    }
  }

  /** The longest prefix of `text` within the limit that is still text. */
  ghost predicate LongestText(text: Bytes, maxBytes: nat, short: Bytes) {
    && short <= text && |short| <= maxBytes && Valid(short)
    && forall n: nat | |short| < n <= maxBytes && n <= |text| :: !Valid(text[..n])
  }

  lemma LongestTextUnique(text: Bytes, maxBytes: nat, a: Bytes, b: Bytes)
    requires LongestText(text, maxBytes, a) && LongestText(text, maxBytes, b)
    ensures a == b
  {
    assert a == text[..|a|] && b == text[..|b|];
  }

  /**
   Shorten text to at most `maxBytes`: walk back to a character boundary.
   */
  method TruncateUtf8(text: Bytes, maxBytes: nat) returns (short: Bytes)
    requires Valid(text)
    ensures LongestText(text, maxBytes, short)
    ensures maxBytes >= |text| ==> short == text
  {
    var end := if |text| <= maxBytes then |text| else maxBytes;
    BoundaryIffPrefixValid(text, end);
    while !Boundary(text, end)
      invariant 0 <= end <= |text| && end <= maxBytes
      invariant maxBytes >= |text| ==> end == |text|
      invariant forall n: nat | end < n <= maxBytes && n <= |text| :: !Valid(text[..n])
      invariant Boundary(text, end) <==> Valid(text[..end])
      decreases end
    {
      end := end - 1;
      BoundaryIffPrefixValid(text, end);
    }
    short := text[..end];
  }
}
