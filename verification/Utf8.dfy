/**
 Text as bytes: UTF-8, and the decoder that replaces what is malformed, as `buffer.toString("utf8")`
 does. A sequence that stops being valid gives one replacement character, and the byte that ended it
 is read again.
 */
module Utf8 {

  type Byte = x: nat | x < 256

  const REPLACEMENT: char := '\U{fffd}'

  // ---- Encoding ----

  function EncodeChar(c: char): (r: seq<Byte>)
    ensures 1 <= |r| <= 4 && (r[0] < 0x80 <==> |r| == 1)
  {
    var n := c as int;
    if n < 0x80 then [n]
    else if n < 0x800 then [0xc0 + n / 64, 0x80 + n % 64]
    else if n < 0x1_0000 then [0xe0 + n / 4096, 0x80 + n / 64 % 64, 0x80 + n % 64]
    else [0xf0 + n / 262144, 0x80 + n / 4096 % 64, 0x80 + n / 64 % 64, 0x80 + n % 64]
  }

  function Encode(s: string): seq<Byte> {
    if s == "" then [] else EncodeChar(s[0]) + Encode(s[1..])
  }

  // ---- Decoding ----

  /** How many bytes must follow this first one. */
  function Need(b: Byte): nat {
    if 0xc2 <= b <= 0xdf then 1 else if 0xe0 <= b <= 0xef then 2 else if 0xf0 <= b <= 0xf4 then 3 else 0
  }

  predicate Continues(b: Byte) {
    0x80 <= b <= 0xbf
  }

  /** The second byte is bounded so that nothing is encoded too long, and no surrogate at all. */
  predicate Second(first: Byte, b: Byte) {
    (if first == 0xe0 then 0xa0 else if first == 0xf0 then 0x90 else 0x80) <= b
    <= (if first == 0xed then 0x9f else if first == 0xf4 then 0x8f else 0xbf)
  }

  /** How many of the bytes that must follow do. */
  function Followers(bs: seq<Byte>): (k: nat)
    requires bs != []
    ensures k <= Need(bs[0]) && k < |bs|
  {
    var need := Need(bs[0]);
    if need < 1 || |bs| < 2 || !Second(bs[0], bs[1]) then 0
    else if need < 2 || |bs| < 3 || !Continues(bs[2]) then 1
    else if need < 3 || |bs| < 4 || !Continues(bs[3]) then 2
    else 3
  }

  /** What a byte carries above its marker. */
  function Bits(b: Byte, marker: Byte): int {
    b as int - marker as int
  }

  /** The first character, and how many bytes it took. */
  function Next(bs: seq<Byte>): (r: (char, nat))
    requires bs != []
    ensures 1 <= r.1 <= |bs|
  {
    var k := Followers(bs);
    if bs[0] < 0x80 then (bs[0] as char, 1)
    else if k == 0 || k < Need(bs[0]) then (REPLACEMENT, k + 1)
    else if k == 1 then ((Bits(bs[0], 0xc0) * 64 + Bits(bs[1], 0x80)) as char, 2)
    else if k == 2 then ((Bits(bs[0], 0xe0) * 4096 + Bits(bs[1], 0x80) * 64 + Bits(bs[2], 0x80)) as char, 3)
    else ((Bits(bs[0], 0xf0) * 262144 + Bits(bs[1], 0x80) * 4096 + Bits(bs[2], 0x80) * 64 + Bits(bs[3], 0x80)) as char, 4)
  }

  function Decode(bs: seq<Byte>): string
    decreases |bs|
  {
    if bs == [] then "" else [Next(bs).0] + Decode(bs[Next(bs).1..])
  }

  // ---- One character ----

  lemma TwoBytes(n: int)
    requires 0x80 <= n < 0x800
    ensures 0xc2 <= 0xc0 + n / 64 <= 0xdf && 64 * (n / 64) + n % 64 == n
  {
  }

  lemma ThreeBytes(n: int)
    requires 0x800 <= n < 0xd800 || 0xe000 <= n < 0x1_0000
    ensures var a, b, c := n / 4096, n / 64 % 64, n % 64;
            && a * 4096 + b * 64 + c == n && 0 <= a <= 15
            && (a == 0 ==> b >= 0x20) && (a == 13 ==> b <= 0x1f)
  {
    Digits(n);
  }

  lemma Digits(n: int)
    requires n >= 0
    ensures n / 4096 * 4096 + n / 64 % 64 * 64 + n % 64 == n
  {
    assert n / 64 / 64 == n / 4096;
    assert n / 64 == n / 64 / 64 * 64 + n / 64 % 64;
  }

  lemma FourBytes(n: int)
    requires 0x1_0000 <= n < 0x11_0000
    ensures var a, b, c, d := n / 262144, n / 4096 % 64, n / 64 % 64, n % 64;
            && a * 262144 + b * 4096 + c * 64 + d == n && 0 <= a <= 4
            && (a == 0 ==> b >= 0x10) && (a == 4 ==> b <= 0x0f)
  {
    Digits(n);
    assert n / 4096 / 64 == n / 262144;
    assert n / 4096 == n / 4096 / 64 * 64 + n / 4096 % 64;
  }

  /** An encoded character is read back, whatever follows. */
  lemma NextEncoded(c: char, rest: seq<Byte>)
    ensures Next(EncodeChar(c) + rest) == (c, |EncodeChar(c)|)
  {
    var n, bs := c as int, EncodeChar(c) + rest;
    if n >= 0x1_0000 { FourBytes(n); }
    else if n >= 0x800 { ThreeBytes(n); }
    else if n >= 0x80 { TwoBytes(n); }
  }

  /** And one cut short is one replacement character. */
  lemma NextCut(c: char, k: nat)
    requires 0 < k < |EncodeChar(c)|
    ensures Next(EncodeChar(c)[..k]) == (REPLACEMENT, k)
  {
    var n := c as int;
    if n >= 0x1_0000 { FourBytes(n); }
    else if n >= 0x800 { ThreeBytes(n); }
    else { TwoBytes(n); }
  }

  // ---- Whole texts ----

  lemma DecodeStep(head: seq<Byte>, more: seq<Byte>, c: char)
    requires head != [] && Next(head + more) == (c, |head|)
    ensures Decode(head + more) == [c] + Decode(more)
  {
    assert (head + more)[|head|..] == more;
  }

  lemma Concat3(a: seq<Byte>, b: seq<Byte>, c: seq<Byte>)
    ensures (a + b) + c == a + (b + c)
  {
  }

  lemma HeadAndTail(s: string, t: string)
    requires s != ""
    ensures [s[0]] + (s[1..] + t) == s + t
  {
    assert s == [s[0]] + s[1..];
  }

  lemma {:induction false} DecodeEncoded(s: string, rest: seq<Byte>)
    ensures Decode(Encode(s) + rest) == s + Decode(rest)
    decreases |s|
  {
    if s == "" {
      assert Encode(s) + rest == rest;
    } else {
      var head, more := EncodeChar(s[0]), Encode(s[1..]) + rest;
      Concat3(head, Encode(s[1..]), rest);
      NextEncoded(s[0], more);
      DecodeStep(head, more, s[0]);
      DecodeEncoded(s[1..], rest);
      HeadAndTail(s, Decode(rest));
    }
  }

  lemma RoundTrip(s: string)
    ensures Decode(Encode(s)) == s
  {
    DecodeEncoded(s, []);
    assert Encode(s) + [] == Encode(s);
  }

  lemma {:induction false} EncodeAppend(s: string, t: string)
    ensures Encode(s + t) == Encode(s) + Encode(t)
    decreases |s|
  {
    if s == "" {
      assert s + t == t;
    } else {
      assert (s + t)[1..] == s[1..] + t;
      EncodeAppend(s[1..], t);
      Concat3(EncodeChar(s[0]), Encode(s[1..]), Encode(t));
    }
  }

  /** What was cut at any byte is read as the characters before the cut, and perhaps one replacement. */
  lemma {:induction false} CutIsRead(s: string, k: nat) returns (i: nat)
    requires k < |Encode(s)|
    ensures i < |s| && (Decode(Encode(s)[..k]) == s[..i] || Decode(Encode(s)[..k]) == s[..i] + [REPLACEMENT])
    decreases |s|
  {
    var head, tail := EncodeChar(s[0]), Encode(s[1..]);
    if k < |head| {
      i := 0;
      assert Encode(s)[..k] == head[..k];
      if k > 0 {
        NextCut(s[0], k);
        assert head[..k][k..] == [];
      }
    } else {
      i := CutIsRead(s[1..], k - |head|);
      var cut := tail[..k - |head|];
      assert Encode(s)[..k] == head + cut;
      NextEncoded(s[0], cut);
      DecodeStep(head, cut, s[0]);
      assert s[..i + 1] == [s[0]] + s[1..][..i];
      i := i + 1;
    }
  }

  /** A sequence is not continued by a byte that continues none. */
  lemma NextBefore(a: seq<Byte>, b: seq<Byte>)
    requires a != [] && b != [] && b[0] < 0x80
    ensures Next(a + b) == Next(a)
  {
    assert Followers(a + b) == Followers(a);
  }

  /** So an ASCII character stands alone, malformed as its surroundings may be. */
  lemma {:induction false} DecodeSplits(a: seq<Byte>, b: seq<Byte>)
    requires b != [] && b[0] < 0x80
    ensures Decode(a + b) == Decode(a) + Decode(b)
    decreases |a|
  {
    if a == [] {
      assert a + b == b;
    } else {
      NextBefore(a, b);
      var n := Next(a).1;
      assert (a + b)[n..] == a[n..] + b;
      DecodeSplits(a[n..], b);
    }
  }

  lemma DecodeAfterAscii(c: Byte, b: seq<Byte>)
    requires c < 0x80
    ensures Decode([c] + b) == [c as char] + Decode(b)
  {
    assert ([c] + b)[1..] == b;
  }
}
