/** UTF-8 as section 3 of RFC 3629 defines it: the octets of a text, and where its characters can
    be told apart. */
module Utf8Text {
  import opened Common

  /** A Unicode scalar value. */
  type Scalar = c: int | 0 <= c < 0xD800 || 0xE000 <= c <= 0x10FFFF

  /** The octets of one character, section 3 of RFC 3629. */
  function Octets(c: Scalar): seq<byte> {
    if c < 0x80 then [c]
    else if c < 0x800 then [0xC0 + c / 0x40, 0x80 + c % 0x40]
    else if c < 0x1_0000 then [0xE0 + c / 0x1000, 0x80 + c / 0x40 % 0x40, 0x80 + c % 0x40]
    else [0xF0 + c / 0x4_0000, 0x80 + c / 0x1000 % 0x40, 0x80 + c / 0x40 % 0x40, 0x80 + c % 0x40]
  }

  function Utf8(text: seq<Scalar>): seq<byte> {
    if text == [] then [] else Octets(text[0]) + Utf8(text[1..])
  }

  lemma {:induction false} Utf8Snoc(text: seq<Scalar>, c: Scalar)
    ensures Utf8(text + [c]) == Utf8(text) + Octets(c)
  {
    if text == [] {
      assert [c][1..] == [];
      assert text + [c] == [c];
    } else {
      Utf8Snoc(text[1..], c);
      assert (text + [c])[1..] == text[1..] + [c];
    }
  }

  predicate Continuation(b: byte) {
    0x80 <= b <= 0xBF
  }

  /** `str::is_char_boundary`. */
  predicate IsCharBoundary(s: seq<byte>, i: nat) {
    i == 0 || i == |s| || (i < |s| && !Continuation(s[i]))
  }

  lemma OctetsShape(c: Scalar)
    ensures 1 <= |Octets(c)| <= 4 && !Continuation(Octets(c)[0])
    ensures forall k :: 0 < k < |Octets(c)| ==> Continuation(Octets(c)[k])
  {
    if 0x1_0000 <= c {
      assert c / 0x4_0000 <= 4;
    }
  }

  /** Byte `i` of the encoded text lies between two of its characters. */
  ghost predicate IsCut(text: seq<Scalar>, i: nat) {
    exists k :: 0 <= k <= |text| && |Utf8(text[..k])| == i
  }

  lemma CutLater(text: seq<Scalar>, i: nat)
    requires text != [] && |Octets(text[0])| <= i
    ensures IsCut(text, i) <==> IsCut(text[1..], i - |Octets(text[0])|)
  {
    var n := |Octets(text[0])|;
    if k :| 0 <= k <= |text| && |Utf8(text[..k])| == i {
      OctetsShape(text[0]);
      assert k > 0;
      assert text[..k][1..] == text[1..][..k - 1];
    }
    if k :| 0 <= k <= |text| - 1 && |Utf8(text[1..][..k])| == i - n {
      assert text[..k + 1][1..] == text[1..][..k];
      assert |Utf8(text[..k + 1])| == i;
    }
  }

  /** The boundaries of an encoded text are exactly its cuts between characters. */
  lemma {:induction false} BoundaryIffCut(text: seq<Scalar>, i: nat)
    requires i <= |Utf8(text)|
    ensures IsCharBoundary(Utf8(text), i) <==> IsCut(text, i)
    decreases |text|
  {
    if i == 0 {
      assert |Utf8(text[..0])| == 0;
    } else {
      var n := |Octets(text[0])|;
      OctetsShape(text[0]);
      if i < n {
        forall k | 0 < k <= |text| ensures |Utf8(text[..k])| >= n {
          assert text[..k][0] == text[0];
        }
        assert text[..0] == [];
      } else {
        BoundaryIffCut(text[1..], i - n);
        StartsOutside(text[1..]);
        CutLater(text, i);
      }
    }
  }

  lemma StartsOutside(text: seq<Scalar>)
    ensures Utf8(text) != [] ==> !Continuation(Utf8(text)[0])
  {
    if text != [] {
      OctetsShape(text[0]);
    }
  }

  /** From any position some boundary lies at most three bytes back. */
  lemma {:induction false} BoundaryNearby(text: seq<Scalar>, i: nat) returns (b: nat)
    requires i <= |Utf8(text)|
    ensures b <= i <= b + 3 && IsCharBoundary(Utf8(text), b)
    decreases |text|
  {
    if text == [] || i < |Octets(text[0])| {
      b := 0;
      if text != [] {
        OctetsShape(text[0]);
      }
    } else {
      OctetsShape(text[0]);
      var j := BoundaryNearby(text[1..], i - |Octets(text[0])|);
      b := |Octets(text[0])| + j;
      StartsOutside(text[1..]);
    }
  }
}
