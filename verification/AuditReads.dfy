/**
 Reading the audit stream back (`readAudit` and `readAuditFile` in src/store.ts). Only the tail of
 each file is read, and of a larger file the first line there is dropped, since it may have lost its
 beginning. What such a read misses is exactly what is written before.
 */
module AuditReads {
  import opened Common
  import opened AuditLines
  import opened AuditLog
  import opened Utf8

  // ---- One file ----

  /** The events of all lines but the first. */
  ghost function DropFirst(lines: seq<string>): seq<Event> {
    if lines == [] then [] else EventsOf(lines[1..])
  }

  /** What a reader finds in bytes whose first line is to be dropped. */
  ghost function ReadTail(bs: File): seq<Event> {
    DropFirst(NonBlank(Lines(Utf8.Decode(bs))))
  }

  /** `readAuditFile`, before it is cut to the limit. */
  ghost function ReadFile(file: File, tail: nat): seq<Event> {
    if |file| <= tail then EventsOf(NonBlank(Lines(Utf8.Decode(file))))
    else ReadTail(file[|file| - tail..])
  }

  function NewlineAt(bs: File): (i: nat)
    ensures i <= |bs| && (forall k | 0 <= k < i :: bs[k] != NEWLINE) && (i < |bs| ==> bs[i] == NEWLINE)
  {
    if bs == [] || bs[0] == NEWLINE then 0 else 1 + NewlineAt(bs[1..])
  }

  /** The length of the first line that is not blank, with everything before it. */
  function FirstLine(bs: File): (n: nat)
    ensures n <= |bs| && (n < |bs| ==> n > 0 && bs[n - 1] == NEWLINE)
    decreases |bs|
  {
    var i := NewlineAt(bs);
    if i == |bs| then |bs|
    else if Blank(Utf8.Decode(bs[..i])) then i + 1 + FirstLine(bs[i + 1..])
    else i + 1
  }

  function AfterFirstLine(bs: File): File {
    bs[FirstLine(bs)..]
  }

  /** Whatever stands before what a bounded read takes into account. */
  function Unread(file: File, tail: nat): (head: File)
    ensures head <= file
  {
    if |file| <= tail then []
    else file[..|file| - tail + FirstLine(file[|file| - tail..])]
  }

  /** Only the newline byte is ever read as a newline. */
  lemma NextNewline(bs: File)
    requires bs != [] && bs[0] != NEWLINE
    ensures Next(bs).0 != '\n'
  {
  }

  lemma {:induction false} NoNewlineDecoded(bs: File)
    requires NEWLINE !in bs
    ensures '\n' !in Utf8.Decode(bs)
    decreases |bs|
  {
    if bs != [] {
      NextNewline(bs);
      NoNewlineDecoded(bs[Next(bs).1..]);
    }
  }

  lemma LinesOfFile(a: File, b: File)
    requires NEWLINE !in a
    ensures Lines(Utf8.Decode(a + ([NEWLINE] + b))) == [Utf8.Decode(a)] + Lines(Utf8.Decode(b))
  {
    DecodeJoin(a, b);
    NoNewlineDecoded(a);
    LinesCut(Utf8.Decode(a + ([NEWLINE] + b)), Utf8.Decode(a), Utf8.Decode(b));
  }

  lemma OneLineDropped(bs: File)
    requires NEWLINE !in bs
    ensures ReadTail(bs) == []
  {
    NoNewlineDecoded(bs);
    var line := Utf8.Decode(bs);
    assert FirstNewline(line) == |line|;
    assert Lines(line) == [line];
    assert NonBlank([line][1..]) == [];
  }

  lemma DroppedCons(line: string, rest: seq<string>)
    ensures DropFirst(NonBlank([line] + rest)) == if Blank(line) then DropFirst(NonBlank(rest)) else EventsOf(rest)
  {
    NonBlankCons(line, rest);
    if Blank(line) {
      assert [] + NonBlank(rest) == NonBlank(rest);
    } else {
      assert ([line] + NonBlank(rest))[1..] == NonBlank(rest);
      NonBlankKeepsEvents(rest);
    }
  }

  lemma CutAtNewline(bs: File)
    requires NewlineAt(bs) < |bs|
    ensures bs == bs[..NewlineAt(bs)] + ([NEWLINE] + bs[NewlineAt(bs) + 1..])
  {
    SplitByte(bs, NewlineAt(bs), NEWLINE);
  }

  lemma SplitByte(bs: File, i: nat, c: Byte)
    requires i < |bs| && bs[i] == c
    ensures bs == bs[..i] + ([c] + bs[i + 1..])
  {
  }

  lemma BeforeNewline(bs: File)
    ensures NEWLINE !in bs[..NewlineAt(bs)]
  {
  }

  lemma DropTwice(bs: File, m: nat, n: nat)
    requires m + n <= |bs|
    ensures bs[m..][n..] == bs[m + n..]
  {
  }

  lemma AtTheEnd(bs: File)
    requires NewlineAt(bs) == |bs|
    ensures NEWLINE !in bs && AfterFirstLine(bs) == []
  {
  }

  lemma LastLineDropped(bs: File)
    requires NewlineAt(bs) == |bs|
    ensures ReadTail(bs) == EventsIn(AfterFirstLine(bs))
  {
    AtTheEnd(bs);
    OneLineDropped(bs);
    EmptyFile();
  }

  lemma DroppedAcross(a: File, b: File)
    requires NEWLINE !in a
    ensures ReadTail(a + ([NEWLINE] + b)) == if Blank(Utf8.Decode(a)) then ReadTail(b) else EventsIn(b)
  {
    LinesOfFile(a, b);
    DroppedCons(Utf8.Decode(a), Lines(Utf8.Decode(b)));
  }

  lemma FirstLineAcross(bs: File)
    requires NewlineAt(bs) < |bs|
    ensures var a, b := bs[..NewlineAt(bs)], bs[NewlineAt(bs) + 1..];
            AfterFirstLine(bs) == if Blank(Utf8.Decode(a)) then AfterFirstLine(b) else b
  {
    var b := bs[NewlineAt(bs) + 1..];
    DropTwice(bs, NewlineAt(bs) + 1, FirstLine(b));
  }

  lemma DroppedStep(bs: File, a: File, b: File)
    requires NewlineAt(bs) < |bs| && a == bs[..NewlineAt(bs)] && b == bs[NewlineAt(bs) + 1..]
    requires ReadTail(b) == EventsIn(AfterFirstLine(b))
    ensures ReadTail(bs) == EventsIn(AfterFirstLine(bs))
  {
    CutAtNewline(bs);
    BeforeNewline(bs);
    DroppedAcross(a, b);
    FirstLineAcross(bs);
  }

  /** Dropping the first line of a tail is reading what follows it. */
  lemma {:induction false} DroppedIsFirstLine(bs: File)
    ensures ReadTail(bs) == EventsIn(AfterFirstLine(bs))
    decreases |bs|
  {
    if NewlineAt(bs) == |bs| {
      LastLineDropped(bs);
    } else {
      DroppedIsFirstLine(bs[NewlineAt(bs) + 1..]);
      DroppedStep(bs, bs[..NewlineAt(bs)], bs[NewlineAt(bs) + 1..]);
    }
  }

  lemma HeadAndRest(file: File, at: nat, n: nat)
    requires at + n <= |file|
    ensures file == file[..at + n] + file[at..][n..]
    ensures 0 < n ==> file[..at + n][at + n - 1] == file[at..][n - 1]
  {
  }

  lemma JoinAtLineEnd(head: File, rest: File)
    requires rest == [] || (head != [] && head[|head| - 1] == NEWLINE)
    ensures EventsIn(head + rest) == EventsIn(head) + EventsIn(rest)
  {
    if rest == [] {
      assert head + rest == head;
      EmptyFile();
    } else {
      AuditLog.EventsAfterNewline(head, rest);
    }
  }

  ghost predicate Splits(file: File, tail: nat) {
    EventsIn(file) == EventsIn(Unread(file, tail)) + ReadFile(file, tail)
  }

  lemma SmallFileSplits(file: File, tail: nat)
    requires |file| <= tail
    ensures Splits(file, tail)
  {
    NonBlankKeepsEvents(Lines(Utf8.Decode(file)));
    EmptyFile();
  }

  lemma JoinsAt(file: File, at: nat, last: File, n: nat)
    requires 0 < at <= |file| && last == file[at..] && n <= |last| && (n < |last| ==> n > 0 && last[n - 1] == NEWLINE)
    ensures file == file[..at + n] + last[n..]
    ensures last[n..] == [] || (file[..at + n] != [] && file[..at + n][at + n - 1] == NEWLINE)
  {
    HeadAndRest(file, at, n);
  }

  lemma UnreadJoins(file: File, tail: nat)
    requires tail < |file|
    ensures var head, rest := Unread(file, tail), AfterFirstLine(file[|file| - tail..]);
            file == head + rest && (rest == [] || (head != [] && head[|head| - 1] == NEWLINE))
  {
    var last := file[|file| - tail..];
    JoinsAt(file, |file| - tail, last, FirstLine(last));
  }

  lemma JoinReads(file: File, head: File, last: File)
    requires var rest := AfterFirstLine(last);
             file == head + rest && (rest == [] || (head != [] && head[|head| - 1] == NEWLINE))
    ensures EventsIn(file) == EventsIn(head) + ReadTail(last)
  {
    DroppedIsFirstLine(last);
    JoinAtLineEnd(head, AfterFirstLine(last));
  }

  lemma LargeFileSplits(file: File, tail: nat, last: File)
    requires tail < |file| && last == file[|file| - tail..]
    ensures EventsIn(file) == EventsIn(Unread(file, tail)) + ReadTail(last)
  {
    UnreadJoins(file, tail);
    JoinReads(file, Unread(file, tail), last);
  }

  lemma LargeFileIsRead(file: File, tail: nat, last: File)
    requires tail < |file| && last == file[|file| - tail..]
    ensures ReadFile(file, tail) == ReadTail(last)
  {
  }

  /** The events of a file, torn or not, are those before the part that is read and those that are read. */
  lemma FileSplits(file: File, tail: nat)
    ensures Splits(file, tail)
  {
    if |file| <= tail {
      SmallFileSplits(file, tail);
    } else {
      var last := file[|file| - tail..];
      LargeFileSplits(file, tail, last);
      LargeFileIsRead(file, tail, last);
    }
  }

  // ---- All files ----

  function Flat<T>(files: seq<seq<T>>): seq<T> {
    if files == [] then [] else Flat(files[..|files| - 1]) + files[|files| - 1]
  }

  /** What each segment's tail gives. */
  ghost function SegmentReads(segments: map<Stamp, Segment>, order: seq<Stamp>, tail: nat): (r: seq<seq<Event>>)
    requires forall k | k in order :: k in segments
    ensures |r| == |order|
  {
    if order == [] then []
    else SegmentReads(segments, order[..|order| - 1], tail) + [ReadFile(SegmentText(segments[order[|order| - 1]]), tail)]
  }

  ghost function ReadSegments(segments: map<Stamp, Segment>, order: seq<Stamp>, tail: nat): seq<Event>
    requires forall k | k in order :: k in segments
  {
    Flat(SegmentReads(segments, order, tail))
  }

  lemma ReadSegmentsSnoc(segments: map<Stamp, Segment>, order: seq<Stamp>, tail: nat)
    requires (forall k | k in order :: k in segments) && order != []
    ensures ReadSegments(segments, order, tail)
            == ReadSegments(segments, order[..|order| - 1], tail) + ReadFile(SegmentText(segments[order[|order| - 1]]), tail)
  {
    var init := SegmentReads(segments, order[..|order| - 1], tail);
    var last := ReadFile(SegmentText(segments[order[|order| - 1]]), tail);
    assert (init + [last])[..|init|] == init;
  }

  /** What the tails of all files hold, oldest file first. */
  ghost function TailRead(w: World, tail: nat): seq<Event>
    requires forall k | k in w.order :: k in w.segments
  {
    ReadSegments(w.segments, w.order, tail) + ReadFile(w.active, tail)
  }

  /** No event stands before what is read of this file. */
  ghost predicate Covered(file: File, tail: nat) {
    EventsIn(Unread(file, tail)) == []
  }

  ghost predicate AllCovered(segments: map<Stamp, Segment>, order: seq<Stamp>, tail: nat)
    requires forall k | k in order :: k in segments
  {
    forall k | k in order :: Covered(SegmentText(segments[k]), tail)
  }

  /** `f` is all of the events, `b` those that are read, and `x` what one more file loses before `c`. */
  lemma OneMoreFile<T>(f: seq<T>, b: seq<T>, x: seq<T>, c: seq<T>)
    requires |b| <= |f|
    ensures |b + c| <= |f + (x + c)|
    ensures |b + c| == |f + (x + c)| <==> |b| == |f| && x == []
    ensures b == f && x == [] ==> b + c == f + (x + c)
  {
  }

  lemma CoveredSnoc(segments: map<Stamp, Segment>, order: seq<Stamp>, tail: nat)
    requires (forall k | k in order :: k in segments) && order != []
    ensures var init, last := order[..|order| - 1], order[|order| - 1];
            AllCovered(segments, order, tail) <==> AllCovered(segments, init, tail) && Covered(SegmentText(segments[last]), tail)
  {
    assert order == order[..|order| - 1] + [order[|order| - 1]];
  }

  lemma {:induction false} SegmentsRead(segments: map<Stamp, Segment>, order: seq<Stamp>, tail: nat)
    requires forall k | k in order :: k in segments
    ensures |ReadSegments(segments, order, tail)| <= |SegmentEvents(segments, order)|
    ensures |ReadSegments(segments, order, tail)| == |SegmentEvents(segments, order)| <==> AllCovered(segments, order, tail)
    ensures AllCovered(segments, order, tail) ==> ReadSegments(segments, order, tail) == SegmentEvents(segments, order)
    decreases |order|
  {
    if order != [] {
      var init, file := order[..|order| - 1], SegmentText(segments[order[|order| - 1]]);
      SegmentsRead(segments, init, tail);
      FileSplits(file, tail);
      CoveredSnoc(segments, order, tail);
      ReadSegmentsSnoc(segments, order, tail);
      OneMoreFile(SegmentEvents(segments, init), ReadSegments(segments, init, tail), EventsIn(Unread(file, tail)), ReadFile(file, tail));
    }
  }

  /** A read of the tails of all files gives everything exactly when, in each file, the part before the
      tail and the tail's first line that is not blank hold no event. */
  lemma TailReadIsCompleteExactly(w: World, tail: nat)
    requires forall k | k in w.order :: k in w.segments
    ensures |TailRead(w, tail)| <= |FullRead(w)|
    ensures TailRead(w, tail) == FullRead(w) <==> Covered(w.active, tail) && AllCovered(w.segments, w.order, tail)
  {
    SegmentsRead(w.segments, w.order, tail);
    FileSplits(w.active, tail);
    OneMoreFile(SegmentEvents(w.segments, w.order), ReadSegments(w.segments, w.order, tail),
                EventsIn(Unread(w.active, tail)), ReadFile(w.active, tail));
  }

  // ---- The loop that reads them, with its limit ----

  /** `slice(-n)` for a positive `n`. */
  function LastOf<T>(s: seq<T>, n: nat): seq<T> {
    if |s| <= n then s else s[|s| - n..]
  }

  /** `files` is what each segment gives, oldest first. They are read newest first, until there is no
      room left. */
  function Older<T>(files: seq<seq<T>>, room: nat, older: seq<T>): seq<T> {
    if files == [] then older
    else
      var more := LastOf(files[|files| - 1], room) + older;
      if |more| >= room then more else Older(files[..|files| - 1], room, more)
  }

  /** What the loop hands to the sort. */
  function Collected<T>(files: seq<seq<T>>, newest: seq<T>, limit: nat): seq<T> {
    var active := LastOf(newest, limit);
    if |active| >= limit then active else Older(files, limit - |active|, []) + active
  }

  /** `readAudit`. What is collected is in order already (`ReadsInOrder`), so sorting it by number
      changes nothing. */
  ghost function ReadAudit(w: World, tail: nat, limit: nat): seq<Event>
    requires limit > 0 && forall k | k in w.order :: k in w.segments
  {
    LastOf(Collected(SegmentReads(w.segments, w.order, tail), ReadFile(w.active, tail), limit), limit)
  }

  ghost predicate SuffixOf<T>(t: seq<T>, s: seq<T>) {
    |t| <= |s| && t == s[|s| - |t|..]
  }

  /** `got` is the whole of `all`, or at least `n` of its end. */
  ghost predicate EnoughOf<T>(got: seq<T>, all: seq<T>, n: nat) {
    SuffixOf(got, all) && (|got| < n ==> got == all)
  }

  lemma SuffixPrepends<T>(t: seq<T>, s: seq<T>, a: seq<T>)
    requires SuffixOf(t, s)
    ensures SuffixOf(t, a + s)
  {
    assert (a + s)[|a + s| - |t|..] == s[|s| - |t|..];
  }

  lemma SuffixAppends<T>(t: seq<T>, s: seq<T>, a: seq<T>)
    requires SuffixOf(t, s)
    ensures SuffixOf(t + a, s + a)
  {
    assert (s + a)[|s + a| - |t + a|..] == s[|s| - |t|..] + a;
  }

  lemma LastOfIsEnough<T>(s: seq<T>, n: nat)
    ensures EnoughOf(LastOf(s, n), s, n)
  {
  }

  lemma LastOfEnough<T>(t: seq<T>, s: seq<T>, n: nat)
    requires EnoughOf(t, s, n)
    ensures LastOf(t, n) == LastOf(s, n)
  {
  }

  lemma Regrouped<T>(a: seq<T>, b: seq<T>, c: seq<T>)
    ensures (a + b) + c == a + (b + c)
  {
  }

  /** One round of the loop: it has the end of all there is, and all of this file if room is left. */
  lemma OneRound<T>(before: seq<T>, file: seq<T>, older: seq<T>, room: nat)
    ensures var more := LastOf(file, room) + older;
            SuffixOf(more, (before + file) + older) && (|more| < room ==> more == file + older)
  {
    Regrouped(before, file, older);
    LastOfIsEnough(file, room);
    SuffixAppends(LastOf(file, room), file, older);
    SuffixPrepends(LastOf(file, room) + older, file + older, before);
  }

  /** The loop ends with the whole of what the segments give, or with enough of its end. */
  lemma {:induction false} OlderIsEnough<T>(files: seq<seq<T>>, room: nat, older: seq<T>)
    ensures EnoughOf(Older(files, room, older), Flat(files) + older, room)
    decreases |files|
  {
    if files == [] {
      assert Flat(files) + older == older;
    } else {
      var init, file := files[..|files| - 1], files[|files| - 1];
      OneRound(Flat(init), file, older, room);
      if |LastOf(file, room) + older| < room {
        OlderIsEnough(init, room, file + older);
        Regrouped(Flat(init), file, older);
      }
    }
  }

  lemma CollectedIsEnough<T>(files: seq<seq<T>>, newest: seq<T>, limit: nat)
    ensures EnoughOf(Collected(files, newest, limit), Flat(files) + newest, limit)
  {
    LastOfIsEnough(newest, limit);
    if |LastOf(newest, limit)| >= limit {
      SuffixPrepends(LastOf(newest, limit), newest, Flat(files));
    } else {
      OlderIsEnough(files, limit - |newest|, []);
      assert Flat(files) + [] == Flat(files);
      SuffixAppends(Older(files, limit - |newest|, []), Flat(files), newest);
    }
  }

  /** So whatever it skips, a read with a limit gives the last events that the tails hold. */
  lemma LimitedRead(w: World, tail: nat, limit: nat)
    requires limit > 0 && forall k | k in w.order :: k in w.segments
    ensures ReadAudit(w, tail, limit) == LastOf(TailRead(w, tail), limit)
  {
    var files, newest := SegmentReads(w.segments, w.order, tail), ReadFile(w.active, tail);
    CollectedIsEnough(files, newest, limit);
    LastOfEnough(Collected(files, newest, limit), Flat(files) + newest, limit);
  }

  // ---- And in order ----

  ghost predicate InOrder(es: seq<Event>) {
    forall i, j | 0 <= i < j < |es| :: es[i].sequence < es[j].sequence
  }

  lemma MiddleDropped(a: seq<Event>, b: seq<Event>, x: seq<Event>, c: seq<Event>)
    requires InOrder(a + (x + c)) && InOrder(b) && forall e | e in b :: e in a
    ensures InOrder(b + c) && forall e | e in b + c :: e in a + (x + c)
  {
    var all := a + (x + c);
    forall i, j | 0 <= i < j < |b + c| ensures (b + c)[i].sequence < (b + c)[j].sequence {
      if i < |b| <= j {
        assert b[i] in b;
        var p :| 0 <= p < |a| && a[p] == b[i];
        assert all[p] == b[i] && all[|a| + |x| + (j - |b|)] == c[j - |b|];
      } else if i >= |b| {
        assert all[|a| + |x| + (i - |b|)] == c[i - |b|] && all[|a| + |x| + (j - |b|)] == c[j - |b|];
      }
    }
    forall e | e in c ensures e in all { assert e in x + c; }
  }

  lemma PrefixInOrder(a: seq<Event>, b: seq<Event>)
    requires InOrder(a + b)
    ensures InOrder(a) && InOrder(b)
  {
    forall i, j | 0 <= i < j < |a| ensures a[i].sequence < a[j].sequence {
      assert (a + b)[i] == a[i] && (a + b)[j] == a[j];
    }
    forall i, j | 0 <= i < j < |b| ensures b[i].sequence < b[j].sequence {
      assert (a + b)[|a| + i] == b[i] && (a + b)[|a| + j] == b[j];
    }
  }

  lemma {:induction false} SegmentsInOrder(segments: map<Stamp, Segment>, order: seq<Stamp>, tail: nat)
    requires (forall k | k in order :: k in segments) && InOrder(SegmentEvents(segments, order))
    ensures InOrder(ReadSegments(segments, order, tail))
    ensures forall e | e in ReadSegments(segments, order, tail) :: e in SegmentEvents(segments, order)
    decreases |order|
  {
    if order != [] {
      var init, file := order[..|order| - 1], SegmentText(segments[order[|order| - 1]]);
      PrefixInOrder(SegmentEvents(segments, init), EventsIn(file));
      SegmentsInOrder(segments, init, tail);
      FileSplits(file, tail);
      ReadSegmentsSnoc(segments, order, tail);
      MiddleDropped(SegmentEvents(segments, init), ReadSegments(segments, init, tail), EventsIn(Unread(file, tail)), ReadFile(file, tail));
    }
  }

  lemma SuffixInOrder(t: seq<Event>, s: seq<Event>)
    requires SuffixOf(t, s) && InOrder(s)
    ensures InOrder(t)
  {
    forall i, j | 0 <= i < j < |t| ensures t[i].sequence < t[j].sequence {
      assert t[i] == s[|s| - |t| + i] && t[j] == s[|s| - |t| + j];
    }
  }

  lemma TailReadInOrder(w: World, tail: nat)
    requires (forall k | k in w.order :: k in w.segments) && InOrder(FullRead(w))
    ensures InOrder(TailRead(w, tail))
  {
    PrefixInOrder(SegmentEvents(w.segments, w.order), EventsIn(w.active));
    SegmentsInOrder(w.segments, w.order, tail);
    FileSplits(w.active, tail);
    MiddleDropped(SegmentEvents(w.segments, w.order), ReadSegments(w.segments, w.order, tail),
                  EventsIn(Unread(w.active, tail)), ReadFile(w.active, tail));
  }

  /** In every reachable world the events a read collects are in strictly increasing sequence. */
  lemma ReadsInOrder(worlds: seq<World>, steps: seq<Step>, k: nat, tail: nat, limit: nat)
    requires Run(worlds, steps) && k < |worlds| && limit > 0
    ensures forall x | x in worlds[k].order :: x in worlds[k].segments
    ensures var w := worlds[k];
            InOrder(Collected(SegmentReads(w.segments, w.order, tail), ReadFile(w.active, tail), limit))
  {
    AcknowledgedExactlyOnce(worlds, steps, k);
    var w := worlds[k];
    var files, newest := SegmentReads(w.segments, w.order, tail), ReadFile(w.active, tail);
    TailReadInOrder(w, tail);
    CollectedIsEnough(files, newest, limit);
    SuffixInOrder(Collected(files, newest, limit), Flat(files) + newest);
  }

  /** A read with room for everything is complete exactly when every file is covered. Rotated segments
      are sixteen times as large as the tail, so their oldest events are only in their bytes. */
  lemma BoundedReadIsCompleteExactly(w: World, tail: nat, limit: nat)
    requires limit > 0 && (forall k | k in w.order :: k in w.segments) && |FullRead(w)| <= limit
    ensures ReadAudit(w, tail, limit) == FullRead(w) <==> Covered(w.active, tail) && AllCovered(w.segments, w.order, tail)
  {
    LimitedRead(w, tail, limit);
    TailReadIsCompleteExactly(w, tail);
  }

  // ---- Files of whole lines ----

  lemma {:induction false} NoNewlineEncoded(s: string)
    requires '\n' !in s
    ensures NEWLINE !in Utf8.Encode(s)
    decreases |s|
  {
    if s != "" {
      assert s[0] != '\n';
      NoNewlineEncoded(s[1..]);
    }
  }

  lemma {:induction false} JoinedEnds(events: seq<Event>)
    requires events != []
    ensures Joined(events) != [] && Joined(events)[|Joined(events)| - 1] == NEWLINE
    decreases |events|
  {
    if events[1..] != [] { JoinedEnds(events[1..]); }
  }

  lemma UnreadEnds(file: File, tail: nat)
    requires tail < |file| && file[|file| - 1] == NEWLINE
    ensures var head := Unread(file, tail); head != [] && head[|head| - 1] == NEWLINE
  {
    var last := file[|file| - tail..];
    var n := FirstLine(last);
    if 0 < n < |last| { assert file[|file| - tail + n - 1] == last[n - 1]; }
  }

  lemma ReachesLineEnd(line: File, rest: File, head: File)
    requires NEWLINE !in line && head <= line + ([NEWLINE] + rest) && head != [] && head[|head| - 1] == NEWLINE
    ensures |head| > |line|
  {
    assert forall i | 0 <= i < |line| && i < |head| :: head[i] == line[i];
  }

  lemma PrefixIsTaken(head: File, file: File)
    requires head <= file
    ensures head == file[..|head|]
  {
  }

  lemma FirstOfJoined(events: seq<Event>)
    requires events != []
    ensures Joined(events) == Line(events[0]) + ([NEWLINE] + Joined(events[1..])) && NEWLINE !in Line(events[0])
  {
    EncodeOneLine(events[0]);
    NoNewlineEncoded(AuditLines.Encode(events[0]));
  }

  lemma HeadOfLines(e: Event, rest: File, head: File)
    requires head <= Line(e) + ([NEWLINE] + rest) && head != [] && head[|head| - 1] == NEWLINE && NEWLINE !in Line(e)
    ensures EventsIn(head) != []
  {
    ReachesLineEnd(Line(e), rest, head);
    TornAfterLine(e, rest, |head| - |Line(e)| - 1);
    PrefixIsTaken(head, Line(e) + ([NEWLINE] + rest));
  }

  /** A file of whole lines that is larger than the tail is never read in full. */
  lemma LargeFileIsNotCovered(events: seq<Event>, tail: nat)
    requires events != [] && tail < |Joined(events)|
    ensures !Covered(Joined(events), tail)
  {
    JoinedEnds(events);
    UnreadEnds(Joined(events), tail);
    FirstOfJoined(events);
    HeadOfLines(events[0], Joined(events[1..]), Unread(Joined(events), tail));
  }

  // ---- A run after which a read misses an acknowledged event ----

  lemma {:induction false} JoinedLength(events: seq<Event>)
    ensures |Joined(events)| >= |events|
    decreases |events|
  {
    if events != [] { JoinedLength(events[1..]); }
  }

  function Drafts(n: nat): seq<Draft> {
    seq(n, i requires 0 <= i < n => Draft("", "", []))
  }

  function NumberedWorld(drafts: seq<Draft>): World {
    Initial().(sequence := |drafts|, op := Numbered(Number(0, drafts)))
  }

  function AppendedWorld(drafts: seq<Draft>): World {
    Initial().(sequence := |drafts|, active := Joined(Number(0, drafts)), acked := Number(0, drafts))
  }

  lemma AppendsAll(drafts: seq<Draft>)
    ensures Apply(NumberedWorld(drafts), Append) == Some(AppendedWorld(drafts))
  {
    var text := Joined(Number(0, drafts));
    assert [] + ([] + text) == text;
    assert [] + Number(0, drafts) == Number(0, drafts);
  }

  lemma AppendingRuns(drafts: seq<Draft>)
    requires drafts != []
    ensures Run([Initial(), NumberedWorld(drafts), AppendedWorld(drafts)], [WriteState(drafts), Append])
  {
    AppendsAll(drafts);
    assert Apply(Initial(), WriteState(drafts)) == Some(NumberedWorld(drafts));
  }

  lemma AppendedIsRead(drafts: seq<Draft>)
    ensures FullRead(AppendedWorld(drafts)) == Number(0, drafts)
  {
    JoinedEvents(Number(0, drafts));
    assert [] + Number(0, drafts) == Number(0, drafts);
  }

  lemma LongAppendIsNotCovered(tail: nat)
    ensures var w := AppendedWorld(Drafts(tail + 1));
            |FullRead(w)| == tail + 1 && w.acked == FullRead(w) && !Covered(w.active, tail)
  {
    var events := Number(0, Drafts(tail + 1));
    NumberIncreases(0, Drafts(tail + 1));
    AppendedIsRead(Drafts(tail + 1));
    JoinedLength(events);
    LargeFileIsNotCovered(events, tail);
  }

  /** Whatever the tail, one append can outgrow it: every event is acknowledged, there is room for all of
      them, and the read does not give them all. */
  lemma ReadMissesAcknowledged(tail: nat, limit: nat)
    requires limit > tail
    ensures var drafts := Drafts(tail + 1);
            Run([Initial(), NumberedWorld(drafts), AppendedWorld(drafts)], [WriteState(drafts), Append])
    ensures var w := AppendedWorld(Drafts(tail + 1));
            w.acked == FullRead(w) && |w.acked| <= limit && ReadAudit(w, tail, limit) != w.acked
  {
    AppendingRuns(Drafts(tail + 1));
    LongAppendIsNotCovered(tail);
    BoundedReadIsCompleteExactly(AppendedWorld(Drafts(tail + 1)), tail, limit);
  }
}
