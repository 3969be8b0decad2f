/**
 Bounded capture of a command's output, and the reader that takes the supervisor's result frame out
 of its error stream (src/process.ts). Both are fed in whatever chunks the pipe delivers, and both
 give a result that depends only on the stream.
 */
module Capture {
  import opened Common
  import Json

  type Byte = bv8

  // ---- Bounded capture ----

  /** `buffer.subarray(-n)`: the last `n` bytes, all of them if there are no more, and all for zero. */
  function Last(s: seq<Byte>, n: nat): seq<Byte> {
    if n == 0 || n >= |s| then s else s[|s| - n..]
  }

  function HeadBytes(limit: nat): (r: nat)
    ensures r <= limit && 4 * r <= 3 * limit < 4 * (r + 1)
  {
    3 * limit / 4
  }

  lemma LastOfLast(s: seq<Byte>, t: seq<Byte>, n: nat)
    ensures Last(Last(s, n) + t, n) == Last(s + t, n)
  {
    if 0 < n < |s| {
      assert s + t == s[..|s| - n] + (s[|s| - n..] + t);
    }
  }

  class OutputCapture {
    const limit: Option<nat>
    var text: seq<Byte>
    var head: seq<Byte>
    var tail: seq<Byte>
    var truncated: bool
    ghost var stream: seq<Byte>

    ghost predicate Valid()
      reads this
    {
      && (limit.None? ==> !truncated)
      && (!truncated ==> text == stream && head == [] && tail == [] && (limit.Some? ==> |stream| <= limit.value))
      && (truncated ==>
            limit.Some? && |stream| > limit.value && text == []
            && head == stream[..HeadBytes(limit.value)]
            && tail == Last(stream, limit.value - HeadBytes(limit.value)))
    }

    constructor (maximum: Option<nat>)
      ensures Valid() && stream == [] && limit == maximum
    {
      limit := maximum;
      text, head, tail, truncated, stream := [], [], [], false, [];
    }

    method Append(chunk: seq<Byte>)
      requires Valid()
      modifies this
      ensures Valid() && stream == old(stream) + chunk
    {
      ghost var before := stream;
      stream := stream + chunk;
      if limit.None? {
        text := text + chunk;
        return;
      }
      if !truncated {
        var combined := text + chunk;
        if |combined| <= limit.value {
          text := combined;
          return;
        }
        truncated := true;
        var headBytes := HeadBytes(limit.value);
        head := combined[..headBytes];
        tail := Last(combined, limit.value - headBytes);
        text := [];
        return;
      }
      LastOfLast(before, chunk, limit.value - |head|);
      assert stream[..HeadBytes(limit.value)] == before[..HeadBytes(limit.value)];
      tail := Last(tail + chunk, limit.value - |head|);
    }

    /** The whole stream, or its two ends around a notice. */
    method Value(notice: seq<Byte>) returns (value: seq<Byte>)
      requires Valid()
      ensures value == Kept(limit, stream, notice)
    {
      if !truncated { return text; }
      return head + notice + tail;
    }
  }

  /** What is kept of a stream, whatever chunks it came in. */
  function Kept(limit: Option<nat>, stream: seq<Byte>, notice: seq<Byte>): seq<Byte> {
    if limit.None? || |stream| <= limit.value then stream
    else stream[..HeadBytes(limit.value)] + notice + Last(stream, limit.value - HeadBytes(limit.value))
  }

  function Joined(chunks: seq<seq<Byte>>): seq<Byte> {
    if chunks == [] then [] else Joined(chunks[..|chunks| - 1]) + chunks[|chunks| - 1]
  }

  method CaptureAll(limit: Option<nat>, chunks: seq<seq<Byte>>, notice: seq<Byte>) returns (value: seq<Byte>)
    ensures value == Kept(limit, Joined(chunks), notice)
  {
    var capture := new OutputCapture(limit);
    for i := 0 to |chunks|
      invariant capture.Valid() && capture.stream == Joined(chunks[..i]) && capture.limit == limit && fresh(capture)
    {
      capture.Append(chunks[i]);
      assert chunks[..i + 1][..i] == chunks[..i] && chunks[..i + 1][i] == chunks[i];
    }
    assert chunks[..|chunks|] == chunks;
    value := capture.Value(notice);
  }

  /** The promise: all of a stream that fits; of a longer one, its first three quarters of the limit and
      as many last bytes as the limit still allows. A limit of zero is the exception, and the only
      one: it keeps everything, because a slice from minus zero is the whole buffer. */
  lemma BoundedExactlyWhenPositive(limit: nat, stream: seq<Byte>)
    requires |stream| > limit
    ensures var head, tail := stream[..HeadBytes(limit)], Last(stream, limit - HeadBytes(limit));
            (|head| + |tail| == limit <==> limit >= 1)
            && (limit >= 1 ==> tail == stream[|stream| - (limit - HeadBytes(limit))..])
            && (limit == 0 ==> tail == stream)
  {
  }

  // ---- The result frame ----

  const END: char := '\U{001f}'

  predicate OccursAt(s: string, p: string, i: nat) {
    i + |p| <= |s| && s[i..i + |p|] == p
  }

  ghost predicate Occurs(s: string, p: string) {
    exists i: nat :: OccursAt(s, p, i)
  }

  /** The first occurrence, as `indexOf` finds it. */
  function IndexOf(s: string, p: string, from: nat): (r: Option<nat>)
    requires from <= |s|
    ensures r.Some? ==> from <= r.value && OccursAt(s, p, r.value)
    ensures r.Some? ==> forall i | from <= i < r.value :: !OccursAt(s, p, i)
    ensures r.None? ==> forall i: nat | from <= i :: !OccursAt(s, p, i)
    decreases |s| - from
  {
    if OccursAt(s, p, from) then Some(from)
    else if from == |s| then None
    else IndexOf(s, p, from + 1)
  }

  predicate IsDigit(c: char) {
    '0' <= c <= '9'
  }

  /** An optional minus and one to ten digits. */
  predicate IsCode(v: string) {
    var digits := if v != "" && v[0] == '-' then v[1..] else v;
    1 <= |digits| <= 10 && forall i | 0 <= i < |digits| :: IsDigit(digits[i])
  }

  function Natural(digits: string): nat {
    if digits == "" then 0
    else 10 * Natural(digits[..|digits| - 1])
         + if IsDigit(digits[|digits| - 1]) then digits[|digits| - 1] as int - '0' as int else 0
  }

  function NumberOf(v: string): int {
    if v != "" && v[0] == '-' then 0 - Natural(v[1..]) else Natural(v)
  }

  lemma CodesAreShort(v: string)
    requires IsCode(v)
    ensures |v| <= 11 && END !in v
  {
    var digits := if v[0] == '-' then v[1..] else v;
    forall i | 0 <= i < |v| ensures v[i] != END {
      if v[0] != '-' { assert IsDigit(digits[i]); }
      else if i > 0 { assert IsDigit(digits[i - 1]) && v[i] == digits[i - 1]; }
    }
  }

  lemma {:induction false} DecimalIsNatural(n: nat)
    ensures (forall i | 0 <= i < |Json.Decimal(n)| :: IsDigit(Json.Decimal(n)[i])) && Natural(Json.Decimal(n)) == n
    ensures Json.Decimal(n) != ""
  {
    if n >= 10 {
      DecimalIsNatural(n / 10);
      assert Json.Decimal(n)[..|Json.Decimal(n)| - 1] == Json.Decimal(n / 10);
    } else {
      assert Json.Decimal(n)[..0] == "";
    }
  }

  lemma {:induction false} DecimalLength(n: nat, digits: nat, bound: nat)
    requires n < bound && bound == Power10(digits) && digits > 0
    ensures |Json.Decimal(n)| <= digits
    decreases digits
  {
    if n >= 10 { DecimalLength(n / 10, digits - 1, bound / 10); }
  }

  function Power10(n: nat): nat {
    if n == 0 then 1 else 10 * Power10(n - 1)
  }

  /** Every exit code of up to ten digits, written in decimal, is a code and is read as that number. */
  lemma CodeIsRead(n: int)
    requires -10_000_000_000 < n < 10_000_000_000
    ensures IsCode(Json.Number(n)) && NumberOf(Json.Number(n)) == n
  {
    var m := if n < 0 then -n else n;
    DecimalIsNatural(m);
    assert Power10(10) == 10_000_000_000;
    DecimalLength(m, 10, 10_000_000_000);
    if n < 0 { assert Json.Number(n)[1..] == Json.Decimal(m); }
  }

  /** A stream with one well-formed frame in it, and no other beginning of one. */
  ghost predicate OneFrame(prefix: string, stream: string, before: string, v: string, after: string) {
    && stream == before + prefix + v + [END] + after
    && IsCode(v)
    && (forall i | 0 <= i < |before| :: !OccursAt(stream, prefix, i))
    && !Occurs(after, prefix)
  }

  /** The prefix is a control character, a fixed text and a nonce. Being longer than one character,
      what is retained of a non-empty text is never cut from minus zero. */
  class FrameReader {
    const prefix: string
    var output: string
    var code: Option<int>
    var failed: bool
    var text: string
    ghost var stream: string

    ghost function Now(): Reader
      reads this
    {
      Reader(output, code, failed, text)
    }

    /** What the fields hold is where a reader of this stream must be, however it arrived in chunks. */
    ghost predicate Valid()
      reads this
    {
      |prefix| > 1 && Tracks(prefix, stream, Now())
    }

    constructor (p: string)
      requires |p| > 1
      ensures Valid() && prefix == p && stream == "" && Now() == Reader("", None, false, "")
    {
      prefix, output, code, failed, text, stream := p, "", None, false, "", "";
      new;
      NothingTracked(p);
    }

    /** Read one chunk, as `captureWindowsStderr` does. */
    method Read(chunk: string)
      requires Valid()
      modifies this
      ensures Valid() && stream == old(stream) + chunk
      ensures Now() == Step(prefix, old(Now()), chunk)
    {
      TracksFurther(prefix, stream, Now(), chunk);
      Buffer(chunk);
      stream := stream + chunk;
    }

    /** `captureWindowsStderr`. */
    method Buffer(chunk: string)
      requires |prefix| > 1
      modifies `output, `code, `failed, `text
      ensures Now() == Step(prefix, old(Now()), chunk)
    {
      output := output + chunk;
      var index := IndexOf(output, prefix, 0);
      if index.Some? {
        text := text + output[..index.value];
        output := output[index.value..];
        var end := IndexOf(output, [END], |prefix|);
        if end.Some? {
          var value := output[|prefix|..end.value];
          if IsCode(value) { code := Some(NumberOf(value)); } else { failed := true; }
          text := text + output[end.value + 1..];
          output := "";
        } else if |output| > |prefix| + 12 {
          failed := true;
          text := text + output;
          output := "";
        }
      } else {
        var retain := if |output| < |prefix| - 1 then |output| else |prefix| - 1;
        text := text + output[..|output| - retain];
        output := output[|output| - retain..];
      }
    }

    /** When the pipe closes, what was held back is text after all. Without a frame the text is the whole
        stream; with one it is the rest of the stream, in order, and the frame gave its exit code. */
    method Close() returns (whole: string)
      requires Valid()
      ensures whole == text + output
      ensures !Occurs(stream, prefix) ==> code.None? && !failed && whole == stream
      ensures forall before, v, after | OneFrame(prefix, stream, before, v, after) ::
                code == Some(NumberOf(v)) && !failed && whole == before + after
    {
      forall before, v, after | OneFrame(prefix, stream, before, v, after)
        ensures code == Some(NumberOf(v)) && !failed && text + output == before + after
      {
        ReachedTheEnd(prefix, stream, before, v, after, Now());
      }
      return text + output;
    }
  }

  /** What becomes of the text from a frame's first character on. */
  function Framed(prefix: string, held: string, code: Option<int>, failed: bool, text: string)
    : (string, Option<int>, bool, string)
    requires |prefix| <= |held|
  {
    var end := IndexOf(held, [END], |prefix|);
    if end.Some? then
      var value := held[|prefix|..end.value];
      ("", if IsCode(value) then Some(NumberOf(value)) else code, failed || !IsCode(value), text + held[end.value + 1..])
    else if |held| > |prefix| + 12 then ("", code, true, text + held)
    else (held, code, failed, text)
  }

  /** The effect of one chunk on what the reader holds. */
  function Reading(prefix: string, output: string, code: Option<int>, failed: bool, text: string, chunk: string)
    : (string, Option<int>, bool, string)
    requires |prefix| > 1
  {
    var all := output + chunk;
    var index := IndexOf(all, prefix, 0);
    if index.Some? then Framed(prefix, all[index.value..], code, failed, text + all[..index.value])
    else
      var retain := if |all| < |prefix| - 1 then |all| else |prefix| - 1;
      (all[|all| - retain..], code, failed, text + all[..|all| - retain])
  }

  // ---- Every split of a stream gives the same ----

  datatype Reader = Reader(output: string, code: Option<int>, failed: bool, text: string)

  function Step(prefix: string, r: Reader, chunk: string): Reader
    requires |prefix| > 1
  {
    var (o, c, f, t) := Reading(prefix, r.output, r.code, r.failed, r.text, chunk);
    Reader(o, c, f, t)
  }

  function ReadChunks(prefix: string, chunks: seq<string>): Reader
    requires |prefix| > 1
  {
    if chunks == [] then Reader("", None, false, "")
    else Step(prefix, ReadChunks(prefix, chunks[..|chunks| - 1]), chunks[|chunks| - 1])
  }

  function Concat(chunks: seq<string>): string {
    if chunks == [] then "" else Concat(chunks[..|chunks| - 1]) + chunks[|chunks| - 1]
  }

  method ReadAll(prefix: string, chunks: seq<string>) returns (code: Option<int>, failed: bool, text: string)
    requires |prefix| > 1
    ensures var r := ReadChunks(prefix, chunks); code == r.code && failed == r.failed && text == r.text + r.output
  {
    var reader := new FrameReader(prefix);
    for i := 0 to |chunks|
      invariant reader.Valid() && reader.prefix == prefix && fresh(reader)
      invariant ReadChunks(prefix, chunks[..i]) == reader.Now()
    {
      assert chunks[..i + 1][..i] == chunks[..i] && chunks[..i + 1][i] == chunks[i];
      reader.Read(chunks[i]);
    }
    assert chunks[..|chunks|] == chunks;
    text := reader.Close();
    code, failed := reader.code, reader.failed;
  }

  /** Held back before a frame: not more than could be the beginning of one, and less only at the start. */
  ghost predicate HeldBack(prefix: string, output: string, text: string) {
    |output| < |prefix| && (|output| == |prefix| - 1 || text == "")
  }

  lemma SliceOfSlice<T>(s: seq<T>, a: nat, b: nat, i: nat, j: nat)
    requires a <= b <= |s| && i <= j <= b - a
    ensures s[a..b][i..j] == s[a + i..a + j]
  {
    var x, y := s[a..b][i..j], s[a + i..a + j];
    assert forall k | 0 <= k < j - i :: x[k] == y[k];
  }

  lemma OccursInside(s: string, p: string, from: nat, part: string, i: nat)
    requires from + |part| <= |s| && s[from..from + |part|] == part && OccursAt(part, p, i)
    ensures OccursAt(s, p, from + i)
  {
    SliceOfSlice(s, from, from + |part|, i, i + |p|);
  }

  /** Nothing but text so far: `seen` is the stream up to here, and no frame begins in it. */
  ghost predicate Quiet(prefix: string, seen: string, r: Reader) {
    r.code.None? && !r.failed && r.text + r.output == seen && HeldBack(prefix, r.output, r.text)
  }

  lemma SplitTail(text: string, all: string, n: nat)
    requires n <= |all|
    ensures (text + all[..|all| - n]) + all[|all| - n..] == text + all
  {
    assert all[..|all| - n] + all[|all| - n..] == all;
  }

  lemma QuietStep(prefix: string, seen: string, r: Reader, chunk: string)
    requires |prefix| > 1 && Quiet(prefix, seen, r) && !Occurs(r.output + chunk, prefix)
    ensures Quiet(prefix, seen + chunk, Step(prefix, r, chunk))
  {
    var all := r.output + chunk;
    var retain := if |all| < |prefix| - 1 then |all| else |prefix| - 1;
    StepNotFound(prefix, r, chunk, retain);
    TextGrows(r.text, r.output, chunk);
    HoldsBack(prefix, seen + chunk, r.text, all, retain);
  }

  lemma TextGrows(text: string, output: string, chunk: string)
    ensures text + (output + chunk) == (text + output) + chunk
  {
  }

  lemma HoldsBack(prefix: string, seen: string, text: string, all: string, retain: nat)
    requires |prefix| > 1 && text + all == seen && (|all| < |prefix| - 1 ==> text == "")
    requires retain == if |all| < |prefix| - 1 then |all| else |prefix| - 1
    ensures Quiet(prefix, seen, Reader(all[|all| - retain..], None, false, text + all[..|all| - retain]))
  {
    SplitTail(text, all, retain);
  }

  lemma NotFound(s: string, p: string)
    requires !Occurs(s, p)
    ensures IndexOf(s, p, 0).None?
  {
  }

  /** A stream without a frame is all text. */
  lemma {:induction false} NoFrameIsText(prefix: string, chunks: seq<string>)
    requires |prefix| > 1 && !Occurs(Concat(chunks), prefix)
    ensures Quiet(prefix, Concat(chunks), ReadChunks(prefix, chunks))
    decreases |chunks|
  {
    if chunks != [] {
      var init, chunk := chunks[..|chunks| - 1], chunks[|chunks| - 1];
      var seen, all := Concat(init), Concat(chunks);
      if i: nat :| OccursAt(seen, prefix, i) { OccursInside(all, prefix, 0, seen, i); }
      NoFrameIsText(prefix, init);
      var r := ReadChunks(prefix, init);
      var part := r.output + chunk;
      assert all == r.text + part;
      if i: nat :| OccursAt(part, prefix, i) { OccursInside(all, prefix, |r.text|, part, i); }
      QuietStep(prefix, seen, r, chunk);
    }
  }

  // ---- A stream with a frame ----

  function FrameEnd(prefix: string, before: string, v: string): nat {
    |before| + |prefix| + |v| + 1
  }

  /** Where the reader is after `n` characters of the stream. */
  ghost predicate Reached(prefix: string, stream: string, before: string, v: string, n: nat, r: Reader)
    requires n <= |stream|
  {
    if n < |before| + |prefix| then Quiet(prefix, stream[..n], r)
    else if n < FrameEnd(prefix, before, v) then
      r == Reader(stream[|before|..n], None, false, before)
    else
      var rest := stream[FrameEnd(prefix, before, v)..n];
      r.code == Some(NumberOf(v)) && !r.failed && |r.output| <= |rest| && r.output == rest[|rest| - |r.output|..]
      && r.text + r.output == before + rest
  }

  /** The effect of a chunk that completes, or continues, a frame found at position `k`. */
  lemma StepFound(prefix: string, r: Reader, chunk: string, k: nat, held: string, text: string)
    requires |prefix| > 1 && IndexOf(r.output + chunk, prefix, 0) == Some(k) && |prefix| <= |held|
    requires held == (r.output + chunk)[k..] && text == r.text + (r.output + chunk)[..k]
    ensures var (o, c, f, t) := Framed(prefix, held, r.code, r.failed, text);
            Step(prefix, r, chunk) == Reader(o, c, f, t)
  {
  }

  /** The frame is complete in what is buffered. */
  lemma FrameCompletes(prefix: string, stream: string, before: string, v: string, after: string, m: nat, r: Reader, chunk: string, k: nat)
    requires |prefix| > 1 && OneFrame(prefix, stream, before, v, after) && FrameEnd(prefix, before, v) <= m <= |stream|
    requires IndexOf(r.output + chunk, prefix, 0) == Some(k) && !r.failed
    requires (r.output + chunk)[k..] == stream[|before|..m] && r.text + (r.output + chunk)[..k] == before
    ensures Step(prefix, r, chunk) == Reader("", Some(NumberOf(v)), false, before + stream[FrameEnd(prefix, before, v)..m])
  {
    var held := (r.output + chunk)[k..];
    EndIsFound(prefix, stream, before, v, after, m, held);
    StepFound(prefix, r, chunk, k, held, before);
  }

  /** The frame has begun and not ended in what is buffered. */
  lemma FrameContinues(prefix: string, stream: string, before: string, v: string, after: string, m: nat, r: Reader, chunk: string, k: nat)
    requires |prefix| > 1 && OneFrame(prefix, stream, before, v, after)
    requires |before| + |prefix| <= m < FrameEnd(prefix, before, v) && m <= |stream|
    requires IndexOf(r.output + chunk, prefix, 0) == Some(k) && !r.failed && r.code.None?
    requires (r.output + chunk)[k..] == stream[|before|..m] && r.text + (r.output + chunk)[..k] == before
    ensures Step(prefix, r, chunk) == Reader(stream[|before|..m], None, false, before)
  {
    var held := (r.output + chunk)[k..];
    CodesAreShort(v);
    EndIsFound(prefix, stream, before, v, after, m, held);
    StepFound(prefix, r, chunk, k, held, before);
  }

  /** Once the frame's prefix is at hand in what is buffered. */
  lemma FrameHandled(prefix: string, stream: string, before: string, v: string, after: string, m: nat, r: Reader, chunk: string)
    requires |prefix| > 1 && OneFrame(prefix, stream, before, v, after) && |before| + |prefix| <= m <= |stream|
    requires r.code.None? && !r.failed && |r.text| <= |before| && r.text + (r.output + chunk) == stream[..m]
    ensures Reached(prefix, stream, before, v, m, Step(prefix, r, chunk))
  {
    var k := |before| - |r.text|;
    FrameIsFirst(prefix, stream, before, v, after, m, r.text, r.output + chunk);
    FrameBuffered(stream, before, m, r.text, r.output + chunk);
    if m >= FrameEnd(prefix, before, v) {
      FrameCompletes(prefix, stream, before, v, after, m, r, chunk, k);
    } else {
      FrameContinues(prefix, stream, before, v, after, m, r, chunk, k);
    }
    FrameReached(prefix, stream, before, v, m, Step(prefix, r, chunk));
  }

  /** What the reader holds then, in terms of the stream. */
  lemma FrameReached(prefix: string, stream: string, before: string, v: string, m: nat, q: Reader)
    requires |before| + |prefix| <= m <= |stream|
    requires if m >= FrameEnd(prefix, before, v)
             then q == Reader("", Some(NumberOf(v)), false, before + stream[FrameEnd(prefix, before, v)..m])
             else q == Reader(stream[|before|..m], None, false, before)
    ensures Reached(prefix, stream, before, v, m, q)
  {
    if m >= FrameEnd(prefix, before, v) {
      var rest := stream[FrameEnd(prefix, before, v)..m];
      assert rest[|rest|..] == "" && (before + rest) + "" == before + rest;
    }
  }

  /** What is buffered from the frame on, and what was text before it. */
  lemma FrameBuffered(stream: string, before: string, m: nat, text: string, all: string)
    requires |text| <= |before| <= m <= |stream| && text + all == stream[..m] && before <= stream
    ensures all[|before| - |text|..] == stream[|before|..m] && text + all[..|before| - |text|] == before
  {
    var k := |before| - |text|;
    assert (text + all)[|text|..] == all;
    SliceOfSlice(stream, 0, m, |text|, m);
    SliceOfSlice(stream, |text|, m, k, m - |text|);
    assert text + all[..k] == (text + all)[..|before|];
    SliceOfSlice(stream, 0, m, 0, |before|);
  }

  lemma FrameIsBuffered(prefix: string, stream: string, before: string, m: nat, text: string, all: string)
    requires |text| <= |before| && |before| + |prefix| <= m <= |stream| && text + all == stream[..m]
    requires stream[|before|..|before| + |prefix|] == prefix
    ensures OccursAt(all, prefix, |before| - |text|) && all == stream[|text|..|text| + |all|]
  {
    var k := |before| - |text|;
    assert (text + all)[|text|..] == all;
    SliceOfSlice(stream, 0, m, |text|, m);
    SliceOfSlice(stream, |text|, m, k, k + |prefix|);
  }

  lemma FrameIsFirst(prefix: string, stream: string, before: string, v: string, after: string, m: nat, text: string, all: string)
    requires |prefix| > 1 && OneFrame(prefix, stream, before, v, after) && |before| + |prefix| <= m <= |stream|
    requires |text| <= |before| && text + all == stream[..m]
    ensures IndexOf(all, prefix, 0) == Some(|before| - |text|)
  {
    FrameIsBuffered(prefix, stream, before, m, text, all);
    var index := IndexOf(all, prefix, 0);
    if index.Some? && index.value < |before| - |text| {
      OccursInside(stream, prefix, |text|, all, index.value);
    }
  }

  /** A character is not found before the first place it stands at. */
  lemma FoundNoSooner(s: string, c: char, from: nat, first: nat)
    requires from <= |s| && from <= first && forall i | from <= i < |s| && i < first :: s[i] != c
    ensures IndexOf(s, [c], from).Some? ==> first <= IndexOf(s, [c], from).value < |s|
    ensures first < |s| && s[first] == c ==> IndexOf(s, [c], from) == Some(first)
  {
    var found := IndexOf(s, [c], from);
    if found.Some? { assert s[found.value..found.value + 1][0] == c; }
    if first < |s| && s[first] == c {
      assert s[first..first + 1] == [c];
      assert OccursAt(s, [c], first);
    }
  }

  lemma EndIsFound(prefix: string, stream: string, before: string, v: string, after: string, m: nat, held: string)
    requires OneFrame(prefix, stream, before, v, after) && |before| + |prefix| <= m <= |stream|
    requires held == stream[|before|..m]
    ensures if m >= FrameEnd(prefix, before, v)
            then IndexOf(held, [END], |prefix|) == Some(|prefix| + |v|) && held[|prefix|..|prefix| + |v|] == v
                 && held[|prefix| + |v| + 1..] == stream[FrameEnd(prefix, before, v)..m]
            else IndexOf(held, [END], |prefix|).None?
  {
    CodesAreShort(v);
    var e := |prefix| + |v|;
    forall i | |prefix| <= i < |held| && i < e ensures held[i] != END { assert held[i] == v[i - |prefix|]; }
    FoundNoSooner(held, END, |prefix|, e);
    if m >= FrameEnd(prefix, before, v) {
      assert held[e] == END;
      SliceOfSlice(stream, |before|, m, |prefix|, e);
      SliceOfSlice(stream, |before|, m, e + 1, m - |before|);
      assert stream[|before| + |prefix|..|before| + e] == v;
    }
  }

  lemma AfterStep(prefix: string, stream: string, before: string, v: string, after: string, n: nat, m: nat, r: Reader, chunk: string)
    requires |prefix| > 1 && OneFrame(prefix, stream, before, v, after) && FrameEnd(prefix, before, v) <= n <= m <= |stream|
    requires Reached(prefix, stream, before, v, n, r) && stream[..m] == stream[..n] + chunk
    ensures Reached(prefix, stream, before, v, m, Step(prefix, r, chunk))
  {
    var all := r.output + chunk;
    AfterBuffered(prefix, stream, before, v, n, m, r, chunk);
    var more := stream[FrameEnd(prefix, before, v)..m];
    assert after == stream[FrameEnd(prefix, before, v)..];
    AfterIsQuiet(prefix, after, more, all);
    AfterKept(prefix, before, more, r, chunk);
  }

  /** The effect of a chunk in which no frame begins. */
  lemma StepNotFound(prefix: string, r: Reader, chunk: string, retain: nat)
    requires |prefix| > 1 && !Occurs(r.output + chunk, prefix)
    requires retain == if |r.output + chunk| < |prefix| - 1 then |r.output + chunk| else |prefix| - 1
    ensures var all := r.output + chunk;
            Step(prefix, r, chunk) == Reader(all[|all| - retain..], r.code, r.failed, r.text + all[..|all| - retain])
  {
    NotFound(r.output + chunk, prefix);
  }

  lemma KeptParts(before: string, more: string, text: string, all: string, retain: nat)
    requires |all| <= |more| && all == more[|more| - |all|..] && text + all == before + more && retain <= |all|
    ensures all[|all| - retain..] == more[|more| - retain..]
    ensures (text + all[..|all| - retain]) + all[|all| - retain..] == before + more
  {
    SliceOfSlice(more, |more| - |all|, |more|, |all| - retain, |all|);
    SplitTail(text, all, retain);
  }

  /** The reader after the frame: everything but the frame is text, the last of it held back. */
  ghost predicate AfterFrame(before: string, more: string, r: Reader, q: Reader) {
    q.code == r.code && q.failed == r.failed && |q.output| <= |more| && q.output == more[|more| - |q.output|..]
    && q.text + q.output == before + more
  }

  lemma AfterParts(before: string, more: string, r: Reader, all: string, retain: nat, q: Reader)
    requires |all| <= |more| && all == more[|more| - |all|..] && r.text + all == before + more && retain <= |all|
    requires q == Reader(all[|all| - retain..], r.code, r.failed, r.text + all[..|all| - retain])
    ensures AfterFrame(before, more, r, q)
  {
    KeptParts(before, more, r.text, all, retain);
  }

  lemma AfterKept(prefix: string, before: string, more: string, r: Reader, chunk: string)
    requires |prefix| > 1 && !Occurs(r.output + chunk, prefix)
    requires var all := r.output + chunk; |all| <= |more| && all == more[|more| - |all|..] && r.text + all == before + more
    ensures AfterFrame(before, more, r, Step(prefix, r, chunk))
  {
    var all := r.output + chunk;
    var retain := if |all| < |prefix| - 1 then |all| else |prefix| - 1;
    StepNotFound(prefix, r, chunk, retain);
    AfterParts(before, more, r, all, retain, Step(prefix, r, chunk));
  }

  lemma AfterBuffered(prefix: string, stream: string, before: string, v: string, n: nat, m: nat, r: Reader, chunk: string)
    requires |prefix| > 1 && FrameEnd(prefix, before, v) <= n <= m <= |stream|
    requires Reached(prefix, stream, before, v, n, r) && stream[..m] == stream[..n] + chunk
    ensures var more := stream[FrameEnd(prefix, before, v)..m];
            var all := r.output + chunk;
            |all| <= |more| && all == more[|more| - |all|..] && r.text + all == before + more
  {
    var f := FrameEnd(prefix, before, v);
    var rest, more := stream[f..n], stream[f..m];
    assert stream[..m][n..] == chunk;
    SliceOfSlice(stream, 0, m, n, m);
    assert more == rest + chunk;
    assert r.text + (r.output + chunk) == (r.text + r.output) + chunk == (before + rest) + chunk == before + more;
  }

  lemma AfterIsQuiet(prefix: string, after: string, more: string, all: string)
    requires more <= after && !Occurs(after, prefix) && |all| <= |more| && all == more[|more| - |all|..]
    ensures !Occurs(all, prefix)
  {
    var from := |more| - |all|;
    SliceOfSlice(after, 0, |more|, from, |more|);
    if i: nat :| OccursAt(all, prefix, i) { OccursInside(after, prefix, from, all, i); }
  }

  lemma ReachedStep(prefix: string, stream: string, before: string, v: string, after: string, n: nat, m: nat, r: Reader, chunk: string)
    requires |prefix| > 1 && OneFrame(prefix, stream, before, v, after) && n <= m <= |stream|
    requires Reached(prefix, stream, before, v, n, r) && stream[..m] == stream[..n] + chunk
    ensures Reached(prefix, stream, before, v, m, Step(prefix, r, chunk))
  {
    if n >= FrameEnd(prefix, before, v) {
      AfterStep(prefix, stream, before, v, after, n, m, r, chunk);
    } else if m >= |before| + |prefix| {
      if n >= |before| + |prefix| { assert r.text + (r.output + chunk) == stream[..n] + chunk; }
      FrameHandled(prefix, stream, before, v, after, m, r, chunk);
    } else {
      var all := r.output + chunk;
      assert all == stream[|r.text|..m];
      if i: nat :| OccursAt(all, prefix, i) { OccursInside(stream, prefix, |r.text|, all, i); }
      QuietStep(prefix, stream[..n], r, chunk);
    }
  }

  // ---- What a reader knows of any stream ----

  /** While no frame has begun all is text; and in whatever stream with one frame this is the beginning
      of, the reader is where it must be. */
  ghost predicate Tracks(prefix: string, seen: string, r: Reader) {
    && (!Occurs(seen, prefix) ==> Quiet(prefix, seen, r))
    && forall stream, before, v, after | OneFrame(prefix, stream, before, v, after) && seen <= stream ::
         Reached(prefix, stream, before, v, |seen|, r)
  }

  lemma NothingTracked(prefix: string)
    requires |prefix| > 1
    ensures Tracks(prefix, "", Reader("", None, false, ""))
  {
  }

  lemma QuietFurther(prefix: string, seen: string, r: Reader, chunk: string)
    requires |prefix| > 1 && Quiet(prefix, seen, r) && !Occurs(seen + chunk, prefix)
    ensures Quiet(prefix, seen + chunk, Step(prefix, r, chunk))
  {
    var all, part := seen + chunk, r.output + chunk;
    TextGrows(r.text, r.output, chunk);
    assert all[|r.text|..|r.text| + |part|] == part;
    if i: nat :| OccursAt(part, prefix, i) { OccursInside(all, prefix, |r.text|, part, i); }
    QuietStep(prefix, seen, r, chunk);
  }

  lemma OccursStill(prefix: string, seen: string, chunk: string)
    requires Occurs(seen, prefix)
    ensures Occurs(seen + chunk, prefix)
  {
    var i: nat :| OccursAt(seen, prefix, i);
    assert (seen + chunk)[0..0 + |seen|] == seen;
    OccursInside(seen + chunk, prefix, 0, seen, i);
  }

  lemma TracksFurther(prefix: string, seen: string, r: Reader, chunk: string)
    requires |prefix| > 1 && Tracks(prefix, seen, r)
    ensures Tracks(prefix, seen + chunk, Step(prefix, r, chunk))
  {
    if !Occurs(seen + chunk, prefix) {
      if Occurs(seen, prefix) { OccursStill(prefix, seen, chunk); }
      QuietFurther(prefix, seen, r, chunk);
    }
    forall stream, before, v, after | OneFrame(prefix, stream, before, v, after) && seen + chunk <= stream
      ensures Reached(prefix, stream, before, v, |seen + chunk|, Step(prefix, r, chunk))
    {
      ReachedFurther(prefix, stream, before, v, after, seen, r, chunk);
    }
  }

  lemma ReachedFurther(prefix: string, stream: string, before: string, v: string, after: string, seen: string, r: Reader, chunk: string)
    requires |prefix| > 1 && OneFrame(prefix, stream, before, v, after) && seen + chunk <= stream
    requires seen <= stream ==> Reached(prefix, stream, before, v, |seen|, r)
    ensures Reached(prefix, stream, before, v, |seen + chunk|, Step(prefix, r, chunk))
  {
    PrefixesTaken(seen, chunk, stream);
    ReachedStep(prefix, stream, before, v, after, |seen|, |seen + chunk|, r, chunk);
  }

  lemma PrefixesTaken(seen: string, chunk: string, stream: string)
    requires seen + chunk <= stream
    ensures seen <= stream && stream[..|seen + chunk|] == stream[..|seen|] + chunk
  {
  }

  lemma ReachedTheEnd(prefix: string, stream: string, before: string, v: string, after: string, r: Reader)
    requires |prefix| > 1 && OneFrame(prefix, stream, before, v, after) && Tracks(prefix, stream, r)
    ensures r.code == Some(NumberOf(v)) && !r.failed && r.text + r.output == before + after
  {
    assert Reached(prefix, stream, before, v, |stream|, r);
    assert stream[FrameEnd(prefix, before, v)..] == after;
  }

  lemma {:induction false} ReachedAfterChunks(
    prefix: string, stream: string, before: string, v: string, after: string, chunks: seq<string>)
    requires |prefix| > 1 && OneFrame(prefix, stream, before, v, after) && Concat(chunks) <= stream
    ensures Reached(prefix, stream, before, v, |Concat(chunks)|, ReadChunks(prefix, chunks))
    decreases |chunks|
  {
    if chunks != [] {
      var init, chunk := chunks[..|chunks| - 1], chunks[|chunks| - 1];
      var n, m := |Concat(init)|, |Concat(chunks)|;
      assert stream[..m] == Concat(chunks) && stream[..n] == Concat(init);
      ReachedAfterChunks(prefix, stream, before, v, after, init);
      ReachedStep(prefix, stream, before, v, after, n, m, ReadChunks(prefix, init), chunk);
    }
  }

  /** However the stream is split, the frame gives its exit code and the rest is text, in order. */
  lemma FrameIsTakenOut(prefix: string, chunks: seq<string>, before: string, v: string, after: string)
    requires |prefix| > 1 && OneFrame(prefix, Concat(chunks), before, v, after)
    ensures var r := ReadChunks(prefix, chunks);
            r.code == Some(NumberOf(v)) && !r.failed && r.text + r.output == before + after
  {
    var stream := Concat(chunks);
    ReachedAfterChunks(prefix, stream, before, v, after, chunks);
    assert stream[FrameEnd(prefix, before, v)..] == after;
  }
}
