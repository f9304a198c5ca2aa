/** The UTF-8 encoding of text, as far as the wire needs it: it joins, it is injective, and ASCII stands for itself. */
module Utf8 {
  import opened Base

  function EncodedChar(c: char): (b: Bytes)
    ensures b != []
  {
    var u := c as int;
    if u < 0x80 then [u]
    else if u < 0x800 then [0xc0 + u / 64, 0x80 + u % 64]
    else if u < 0x10000 then [0xe0 + u / 4096, 0x80 + u / 64 % 64, 0x80 + u % 64]
    else [0xf0 + u / 262144, 0x80 + u / 4096 % 64, 0x80 + u / 64 % 64, 0x80 + u % 64]
  }

  function Encoded(s: string): Bytes {
    if s == "" then [] else EncodedChar(s[0]) + Encoded(s[1..])
  }

  lemma {:induction false} EncodedJoin(a: string, b: string)
    ensures Encoded(a + b) == Encoded(a) + Encoded(b)
    decreases |a|
  {
    if a == "" {
      assert a + b == b;
    } else {
      assert (a + b)[1..] == a[1..] + b;
      EncodedJoin(a[1..], b);
    }
  }

  /** The first bytes of two texts tell their first characters apart. */
  lemma FirstCharDecides(c: char, d: char, x: Bytes, y: Bytes)
    requires EncodedChar(c) + x == EncodedChar(d) + y
    ensures c == d && x == y
  {
    var a, b := EncodedChar(c), EncodedChar(d);
    var u, v := c as int, d as int;
    assert (a + x)[0] == a[0] && (b + y)[0] == b[0];
    assert |a| == |b|;
    assert a == (a + x)[..|a|] == (b + y)[..|b|] == b;
    assert x == (a + x)[|a|..] && y == (b + y)[|b|..];
    SameBytesSameChar(c, d);
  }

  lemma SameBytesSameChar(c: char, d: char)
    requires EncodedChar(c) == EncodedChar(d)
    ensures c == d
  {
    var u, v := c as int, d as int;
    var a, b := EncodedChar(c), EncodedChar(d);
    assert |a| == |b| && a[0] == b[0];
    if |a| == 2 {
      assert a[1] == b[1];
    } else if |a| == 3 {
      assert a[1] == b[1] && a[2] == b[2];
      assert u / 4096 == v / 4096 && u / 64 % 64 == v / 64 % 64;
      assert u / 64 / 64 == u / 4096 && v / 64 / 64 == v / 4096;
    } else if |a| == 4 {
      assert a[1] == b[1] && a[2] == b[2] && a[3] == b[3];
      assert u / 4096 / 64 == u / 262144 && v / 4096 / 64 == v / 262144;
      assert u / 64 / 64 == u / 4096 && v / 64 / 64 == v / 4096;
    }
    assert u == v;
  }

  lemma {:induction false} EncodedInjective(a: string, b: string)
    requires Encoded(a) == Encoded(b)
    ensures a == b
    decreases |a|
  {
    if a != "" && b != "" {
      FirstCharDecides(a[0], b[0], Encoded(a[1..]), Encoded(b[1..]));
      EncodedInjective(a[1..], b[1..]);
    }
  }

  predicate IsAscii(s: string) {
    forall i :: 0 <= i < |s| ==> s[i] as int < 0x80
  }

  /** ASCII text is encoded byte by byte. */
  lemma {:induction false} OneByOne(s: string)
    requires IsAscii(s)
    ensures |Encoded(s)| == |s| && forall i :: 0 <= i < |s| ==> Encoded(s)[i] == s[i] as int
    decreases |s|
  {
    if s != "" {
      OneByOne(s[1..]);
    }
  }

  /** An ASCII byte stands for its character and for nothing else. */
  lemma {:induction false} AsciiKept(s: string, c: char)
    requires c as int < 0x80
    ensures (c as int) in Encoded(s) <==> c in s
    decreases |s|
  {
    if s != "" {
      AsciiKept(s[1..], c);
      assert (c as int) in EncodedChar(s[0]) <==> c == s[0] by {
        AsciiByte(s[0], c);
      }
    }
  }

  lemma AsciiByte(d: char, c: char)
    requires c as int < 0x80
    ensures (c as int) in EncodedChar(d) <==> c == d
  {
  }
}
