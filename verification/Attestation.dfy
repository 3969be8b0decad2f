/**
 The bytes an attestation's signature covers, and the base64 it arrives in
 (src/submission-attestation.ts). Bytes are numbers below 256; text is characters.
 */
module Attestation {
  import opened Common
  import Json

  // ---- DSSE v1 pre-authentication encoding ----

  /** Both parts are given as bytes, one character each, so lengths count bytes. */
  function Pae(payloadType: string, payload: string): string {
    "DSSEv1 " + (Json.Decimal(|payloadType|) + (" " + (payloadType + (" " + (Json.Decimal(|payload|) + (" " + payload))))))
  }

  /** A part of the encoding as a DSSE v1 reader takes it: its length in decimal, a space, and as many bytes. */
  function ReadPart(s: string): Option<(string, string)> {
    var n := Json.ReadNatural(s);
    if n.None? || n.value.1 == "" || n.value.1[0] != ' ' || |n.value.1| <= n.value.0 then None
    else Some((n.value.1[1..][..n.value.0], n.value.1[1..][n.value.0..]))
  }

  /** The whole of it, by the definition of `PAE` in the DSSE v1 protocol. */
  function ReadPae(s: string): Option<(string, string)> {
    if |s| < 7 || s[..6] != "DSSEv1" || s[6] != ' ' then None
    else
      var t := ReadPart(s[7..]);
      if t.None? || t.value.1 == "" || t.value.1[0] != ' ' then None
      else
        var p := ReadPart(t.value.1[1..]);
        if p.None? || p.value.1 != "" then None else Some((t.value.0, p.value.0))
  }

  lemma PartReads(t: string, x: string)
    ensures ReadPart(Json.Decimal(|t|) + (" " + (t + x))) == Some((t, x))
  {
    Json.NaturalReads(|t|, " " + (t + x));
    assert (" " + (t + x))[1..] == t + x;
    assert (t + x)[..|t|] == t && (t + x)[|t|..] == x;
  }

  /** A reader of the protocol finds the type and the payload. */
  lemma PaeReads(t: string, p: string)
    ensures ReadPae(Pae(t, p)) == Some((t, p))
  {
    var after := " " + (Json.Decimal(|p|) + (" " + p));
    var s := Pae(t, p);
    assert s == "DSSEv1 " + (Json.Decimal(|t|) + (" " + (t + after)));
    assert s[..6] == "DSSEv1" && s[7..] == Json.Decimal(|t|) + (" " + (t + after));
    PartReads(t, after);
    assert after[1..] == Json.Decimal(|p|) + (" " + (p + "")) by { assert p + "" == p; }
    PartReads(p, "");
  }

  /** Nothing can be moved between type and payload, or between either and its length. */
  lemma PaeIsInjective(t: string, p: string, u: string, q: string)
    requires Pae(t, p) == Pae(u, q)
    ensures t == u && p == q
  {
    PaeReads(t, p);
    PaeReads(u, q);
  }

  // ---- Base64 (RFC 4648) ----

  type Byte = x: nat | x < 256
  type Sextet = x: nat | x < 64

  /** The value of a character of the standard alphabet. */
  function ValueOf(c: char): Option<Sextet> {
    if 'A' <= c <= 'Z' then Some(c as int - 'A' as int)
    else if 'a' <= c <= 'z' then Some(c as int - 'a' as int + 26)
    else if '0' <= c <= '9' then Some(c as int - '0' as int + 52)
    else if c == '+' then Some(62)
    else if c == '/' then Some(63)
    else None
  }

  function CharOf(v: Sextet): (c: char)
    ensures ValueOf(c) == Some(v) && c != '='
  {
    if v < 26 then ('A' as int + v) as char
    else if v < 52 then ('a' as int + v - 26) as char
    else if v < 62 then ('0' as int + v - 52) as char
    else if v == 62 then '+'
    else '/'
  }

  /** Three bytes to four sextets; a shorter end is completed with zero bits. */
  function Sextets(bs: seq<Byte>): seq<Sextet> {
    if |bs| == 0 then []
    else if |bs| == 1 then [bs[0] / 4, bs[0] % 4 * 16]
    else if |bs| == 2 then [bs[0] / 4, bs[0] % 4 * 16 + bs[1] / 16, bs[1] % 16 * 4]
    else [bs[0] / 4, bs[0] % 4 * 16 + bs[1] / 16, bs[1] % 16 * 4 + bs[2] / 64, bs[2] % 64] + Sextets(bs[3..])
  }

  /** What the permissive decoder makes of sextets: spare bits and a lone last sextet are dropped. */
  function BytesOf(vs: seq<Sextet>): seq<Byte> {
    if |vs| < 2 then []
    else
      var a: nat, b: nat := vs[0], vs[1];
      var first: Byte := a * 4 + b / 16;
      if |vs| == 2 then [first]
      else
        var c: nat := vs[2];
        var second: Byte := b % 16 * 16 + c / 4;
        if |vs| == 3 then [first, second]
        else
          var d: nat := vs[3];
          var third: Byte := c % 4 * 64 + d;
          [first, second, third] + BytesOf(vs[4..])
  }

  /** Table 1 of RFC 4648, as ASCII codes: capitals, small letters, digits, plus sign and solidus. */
  lemma Alphabet(v: Sextet)
    ensures CharOf(v) as int
            == if v < 26 then 0x41 + v else if v < 52 then 0x61 + (v - 26) else if v < 62 then 0x30 + (v - 52)
               else if v == 62 then 0x2B else 0x2F
  {
  }

  /** The number that digits are of, most significant first. */
  function Big(a: nat, b: nat, c: nat, d: nat, base: nat): nat {
    ((a * base + b) * base + c) * base + d
  }

  /** Section 4: each 24 bits of input are four groups of six, and what is left over is completed with zeros. */
  lemma {:induction false} GroupsAreBits(bs: seq<Byte>, k: nat)
    requires 3 * k < |bs|
    ensures var n, vs := |bs| - 3 * k, Sextets(bs);
            && (n >= 3 ==> |vs| >= 4 * k + 4
                           && Big(vs[4 * k], vs[4 * k + 1], vs[4 * k + 2], vs[4 * k + 3], 64)
                              == Big(0, bs[3 * k], bs[3 * k + 1], bs[3 * k + 2], 256))
            && (n == 2 ==> |vs| == 4 * k + 3
                           && Big(vs[4 * k], vs[4 * k + 1], vs[4 * k + 2], 0, 64) == Big(0, bs[3 * k], bs[3 * k + 1], 0, 256))
            && (n == 1 ==> |vs| == 4 * k + 2 && Big(vs[4 * k], vs[4 * k + 1], 0, 0, 64) == Big(0, bs[3 * k], 0, 0, 256))
    decreases k
  {
    if k > 0 {
      GroupsAreBits(bs[3..], k - 1);
      if |bs| >= 3 { assert Sextets(bs)[4..] == Sextets(bs[3..]); }
    }
  }

  function Text(vs: seq<Sextet>): (r: string)
    ensures |r| == |vs| && forall i | 0 <= i < |vs| :: r[i] == CharOf(vs[i])
  {
    seq(|vs|, i requires 0 <= i < |vs| => CharOf(vs[i]))
  }

  function Padding(n: nat): string {
    if n % 3 == 0 then "" else if n % 3 == 1 then "==" else "="
  }

  /** `bytes.toString("base64")`. */
  function Encode(bs: seq<Byte>): string {
    Text(Sextets(bs)) + Padding(|bs|)
  }

  function Unpadded(s: string): (r: string)
    ensures r <= s
  {
    if s != "" && s[|s| - 1] == '=' then Unpadded(s[..|s| - 1]) else s
  }

  function Standard(s: string): (r: string)
    ensures |r| == |s| && forall i | 0 <= i < |s| :: r[i] == if s[i] == '-' then '+' else if s[i] == '_' then '/' else s[i]
  {
    seq(|s|, i requires 0 <= i < |s| => if s[i] == '-' then '+' else if s[i] == '_' then '/' else s[i])
  }

  function ValuesOf(s: string): seq<Sextet> {
    if s == "" then []
    else if ValueOf(s[0]).Some? then [ValueOf(s[0]).value] + ValuesOf(s[1..])
    else ValuesOf(s[1..])
  }

  /** `Buffer.from(text, "base64")` for text without anything but the alphabet and padding at its end. */
  function Permissive(s: string): seq<Byte> {
    BytesOf(ValuesOf(Unpadded(s)))
  }

  predicate InAlphabet(s: string, url: bool) {
    forall i | 0 <= i < |s| ::
      if url then s[i] == '-' || s[i] == '_' || (ValueOf(s[i]).Some? && s[i] != '+' && s[i] != '/') else ValueOf(s[i]).Some?
  }

  /** The pattern: one alphabet throughout, then at most two padding characters. */
  predicate WellWritten(s: string) {
    var body := Unpadded(s);
    |s| - |body| <= 2 && (InAlphabet(body, false) || InAlphabet(body, true))
  }

  /** `decodeBase64`. */
  function DecodeBase64(value: string, maximum: nat): Option<seq<Byte>> {
    if !WellWritten(value) then None
    else
      var normalized := Standard(value);
      var bytes := Permissive(normalized);
      if |bytes| > maximum || Unpadded(Encode(bytes)) != Unpadded(normalized)
         || ('=' in normalized && normalized != Encode(bytes))
      then None
      else Some(bytes)
  }

  // ---- It accepts the encodings of a byte string, and nothing else ----

  lemma {:induction false} BytesRoundTrip(bs: seq<Byte>)
    ensures BytesOf(Sextets(bs)) == bs
    decreases |bs|
  {
    if |bs| >= 3 {
      BytesRoundTrip(bs[3..]);
      var vs := Sextets(bs);
      assert vs[4..] == Sextets(bs[3..]);
      assert bs == [bs[0], bs[1], bs[2]] + bs[3..];
    }
  }

  lemma {:induction false} ValuesOfText(vs: seq<Sextet>)
    ensures ValuesOf(Text(vs)) == vs
    decreases |vs|
  {
    if vs != [] {
      assert Text(vs)[1..] == Text(vs[1..]);
      ValuesOfText(vs[1..]);
      assert vs == [vs[0]] + vs[1..];
    }
  }

  lemma TextIsBare(vs: seq<Sextet>)
    ensures Unpadded(Text(vs)) == Text(vs) && Unpadded(Text(vs) + "=") == Text(vs) && Unpadded(Text(vs) + "==") == Text(vs)
    ensures '=' !in Text(vs)
  {
    var t := Text(vs);
    assert (t + "=")[..|t|] == t && (t + "==")[..|t| + 1] == t + "=";
  }

  lemma EncodingIsRead(bs: seq<Byte>)
    ensures Unpadded(Encode(bs)) == Text(Sextets(bs)) && Permissive(Encode(bs)) == bs && Permissive(Text(Sextets(bs))) == bs
  {
    TextIsBare(Sextets(bs));
    ValuesOfText(Sextets(bs));
    BytesRoundTrip(bs);
    assert Text(Sextets(bs)) + "" == Text(Sextets(bs));
  }

  lemma {:induction false} UnpaddedStandard(s: string)
    ensures Unpadded(Standard(s)) == Standard(Unpadded(s))
    decreases |s|
  {
    if s != "" && s[|s| - 1] == '=' {
      assert Standard(s)[..|s| - 1] == Standard(s[..|s| - 1]);
      UnpaddedStandard(s[..|s| - 1]);
    }
  }

  /** Accepted exactly when the text keeps to one alphabet and, in the standard one, is the encoding of bytes within the
      limit, with its full padding or with none; and those are the bytes returned. */
  lemma DecodesExactlyEncodings(value: string, maximum: nat, bs: seq<Byte>)
    ensures DecodeBase64(value, maximum) == Some(bs)
            <==> WellWritten(value) && |bs| <= maximum && (Standard(value) == Encode(bs) || Standard(value) == Unpadded(Encode(bs)))
  {
    var normalized := Standard(value);
    EncodingIsRead(bs);
    TextIsBare(Sextets(bs));
    if '=' !in normalized { BareIsUnpadded(normalized); }
  }

  lemma BareIsUnpadded(s: string)
    requires '=' !in s
    ensures Unpadded(s) == s
  {
  }

  /** So no two texts stand for the same bytes but by alphabet and padding. */
  lemma DecodingIsUnambiguous(v: string, w: string, maximum: nat)
    requires DecodeBase64(v, maximum).Some? && DecodeBase64(v, maximum) == DecodeBase64(w, maximum)
    ensures Unpadded(Standard(v)) == Unpadded(Standard(w))
  {
    var bs := DecodeBase64(v, maximum).value;
    DecodesExactlyEncodings(v, maximum, bs);
    DecodesExactlyEncodings(w, maximum, bs);
    EncodingIsRead(bs);
    TextIsBare(Sextets(bs));
  }
}
