/** Byte positions in a text, as a slice of its UTF-8 encoding sees them. */
module Utf8 {

  /** The number of bytes that encode a character. */
  function Width(c: char): nat {
    var code := c as int;
    if code < 0x80 then 1 else if code < 0x800 then 2 else if code < 0x1_0000 then 3 else 4
  }

  function ByteLength(s: string): nat {
    if s == [] then 0 else Width(s[0]) + ByteLength(s[1..])
  }

  /** Byte b does not fall inside a character. */
  predicate CharBoundary(s: string, b: nat) {
    if b == 0 then true
    else if s == [] || Width(s[0]) > b then false
    else CharBoundary(s[1..], b - Width(s[0]))
  }

  /** The boundaries are the byte lengths of the text's prefixes. */
  lemma {:induction false} BoundaryIff(s: string, b: nat)
    ensures CharBoundary(s, b) <==> exists j :: 0 <= j <= |s| && ByteLength(s[..j]) == b
  {
    if b == 0 {
      assert ByteLength(s[..0]) == 0;
    } else if s != [] && Width(s[0]) <= b {
      var w := Width(s[0]);
      BoundaryIff(s[1..], b - w);
      forall j | 0 < j <= |s|
        ensures ByteLength(s[..j]) == w + ByteLength(s[1..][..j - 1])
      {
        assert s[..j][1..] == s[1..][..j - 1];
      }
      if j :| 0 <= j <= |s[1..]| && ByteLength(s[1..][..j]) == b - w {
        assert ByteLength(s[..j + 1]) == b;
      }
      if j :| 0 <= j <= |s| && ByteLength(s[..j]) == b {
        assert ByteLength(s[1..][..j - 1]) == b - w;
      }
    } else if s != [] {
      forall j | 0 <= j <= |s|
        ensures ByteLength(s[..j]) != b
      {
        if j > 0 {
          assert s[..j][0] == s[0];
        }
      }
    }
  }

  /** Single-byte characters move byte positions one to one. */
  lemma {:induction false} AfterAscii(a: string, rest: string, b: nat)
    requires (forall c :: c in a ==> Width(c) == 1) && b >= |a|
    ensures CharBoundary(a + rest, b) <==> CharBoundary(rest, b - |a|)
    ensures ByteLength(a + rest) == |a| + ByteLength(rest)
  {
    if a == [] {
      assert a + rest == rest;
    } else {
      assert (a + rest)[1..] == a[1..] + rest;
      AfterAscii(a[1..], rest, b - 1);
    }
  }

  // ----- The encoding itself -----

  /** The bytes of a character, section 3 of RFC 3629. */
  function Encode(c: char): (bytes: seq<int>) {
    var code := c as int;
    if code < 0x80 then [code]
    else if code < 0x800 then [0xC0 + code / 0x40, Continuing(code)]
    else if code < 0x1_0000 then [0xE0 + code / 0x1000, Continuing(code / 0x40), Continuing(code)]
    else [0xF0 + code / 0x4_0000, Continuing(code / 0x1000), Continuing(code / 0x40), Continuing(code)]
  }

  function Continuing(code: int): int {
    0x80 + code % 0x40
  }

  predicate IsContinuation(byte: int) {
    0x80 <= byte < 0xC0
  }

  /** The number a character's bytes stand for, read from their lead byte on. */
  function Decode(bytes: seq<int>): int {
    if |bytes| == 1 then bytes[0]
    else if |bytes| == 2 then (bytes[0] - 0xC0) * 0x40 + bytes[1] - 0x80
    else if |bytes| == 3 then ((bytes[0] - 0xE0) * 0x40 + bytes[1] - 0x80) * 0x40 + bytes[2] - 0x80
    else if |bytes| == 4
    then (((bytes[0] - 0xF0) * 0x40 + bytes[1] - 0x80) * 0x40 + bytes[2] - 0x80) * 0x40 + bytes[3] - 0x80
    else -1
  }

  /** A character has as many bytes as its width says; they decode to it, and all but the first continue it. */
  lemma EncodeDecode(c: char)
    ensures |Encode(c)| == Width(c) && Decode(Encode(c)) == c as int
    ensures !IsContinuation(Encode(c)[0]) && forall k :: 0 < k < Width(c) ==> IsContinuation(Encode(c)[k])
  {
    var code := c as int;
    Regroup(code);
    Regroup(code / 0x40);
    Regroup(code / 0x1000);
    assert code / 0x40 / 0x40 == code / 0x1000 && code / 0x1000 / 0x40 == code / 0x4_0000;
  }

  lemma Regroup(code: int)
    ensures code == (code / 0x40) * 0x40 + code % 0x40
  {
  }

  function Bytes(s: string): seq<int> {
    if s == [] then [] else Encode(s[0]) + Bytes(s[1..])
  }

  /** str::is_char_boundary: the end of the text, or a byte that does not continue a character. */
  lemma {:induction false} BoundaryByBytes(s: string, b: nat)
    ensures |Bytes(s)| == ByteLength(s)
    ensures CharBoundary(s, b) <==> b == |Bytes(s)| || (b < |Bytes(s)| && !IsContinuation(Bytes(s)[b]))
  {
    if s != [] {
      hide Encode;
      EncodeDecode(s[0]);
      var w := Width(s[0]);
      if b >= w {
        BoundaryByBytes(s[1..], b - w);
      } else {
        BoundaryByBytes(s[1..], 0);
      }
    }
  }
}
