/**
 The audit stream (src/store.ts) and its compaction (src/storage.ts). Events are numbered when the
 state is written and appended afterwards as lines of JSON in UTF-8. An append may be torn at any byte
 by a crash; a file may be rotated aside, and a rotated one compressed, with a crash after any step.

 All of this happens under the state lock, one operation at a time.
 */
module AuditLog {
  import opened Common
  import opened AuditLines
  import opened Utf8

  type File = seq<Byte>

  const NEWLINE: Byte := 10

  /** The events a reader finds in a file. */
  ghost function EventsIn(file: File): seq<Event> {
    Events(Utf8.Decode(file))
  }

  // ---- Newlines separate, malformed as a file may be ----

  lemma DecodeJoin(a: File, b: File)
    ensures Utf8.Decode(a + ([NEWLINE] + b)) == Utf8.Decode(a) + ("\n" + Utf8.Decode(b))
  {
    DecodeSplits(a, [NEWLINE] + b);
    DecodeAfterAscii(NEWLINE, b);
    assert ['\n'] == "\n";
  }

  lemma FilesJoin(a: File, b: File)
    ensures EventsIn(a + ([NEWLINE] + b)) == EventsIn(a) + EventsIn(b)
  {
    DecodeJoin(a, b);
    EventsJoin(Utf8.Decode(a), Utf8.Decode(b));
  }

  lemma EmptyFile()
    ensures EventsIn([]) == []
  {
    EmptyIsNoEvent();
    EventsOfOneLine("");
  }

  /** What follows complete lines is read on its own. */
  lemma EventsAfterNewline(a: File, b: File)
    requires a == [] || a[|a| - 1] == NEWLINE
    ensures EventsIn(a + b) == EventsIn(a) + EventsIn(b)
  {
    EmptyFile();
    if a == [] {
      assert a + b == b;
    } else {
      var body := a[..|a| - 1];
      EndedFile(a, b);
      FilesJoin(body, []);
      FilesJoin(body, b);
      assert EventsIn(a) == EventsIn(body);
    }
  }

  lemma EndedFile(a: File, b: File)
    requires a != [] && a[|a| - 1] == NEWLINE
    ensures a == a[..|a| - 1] + ([NEWLINE] + []) && a + b == a[..|a| - 1] + ([NEWLINE] + b)
  {
  }

  // ---- What one append writes ----

  function Line(e: Event): (r: File)
    ensures r != []
  {
    EncodeOneLine(e);
    Utf8.Encode(AuditLines.Encode(e))
  }

  function Joined(events: seq<Event>): File {
    if events == [] then [] else Line(events[0]) + ([NEWLINE] + Joined(events[1..]))
  }

  /** The newline that ends a fragment an earlier writer left, if there is one. */
  function Repair(file: File): File {
    if file != [] && file[|file| - 1] != NEWLINE then [NEWLINE] else []
  }

  lemma LineReads(e: Event)
    ensures EventsIn(Line(e)) == [e]
  {
    RoundTrip(AuditLines.Encode(e));
    EncodeOneLine(e);
    AuditLines.DecodeEncoded(e);
    EventsOfOneLine(AuditLines.Encode(e));
  }

  lemma {:induction false} JoinedEvents(events: seq<Event>)
    ensures EventsIn(Joined(events)) == events
    decreases |events|
  {
    if events == [] {
      EmptyFile();
    } else {
      LineReads(events[0]);
      FilesJoin(Line(events[0]), Joined(events[1..]));
      JoinedEvents(events[1..]);
    }
  }

  /** A line cut at any byte is no event, and so damages none. */
  lemma CutLineIsNoEvent(e: Event, k: nat)
    requires k < |Line(e)|
    ensures EventsIn(Line(e)[..k]) == []
  {
    var line := AuditLines.Encode(e);
    EncodeOneLine(e);
    var i := CutIsRead(line, k);
    if Utf8.Decode(Line(e)[..k]) == line[..i] {
      FragmentIsNoEvent(e, i);
      EventsOfOneLine(line[..i]);
    } else {
      MangledIsNoEvent(line[..i], REPLACEMENT);
      EventsOfOneLine(line[..i] + [REPLACEMENT]);
    }
  }

  lemma TornAfterLine(e: Event, rest: File, k: nat)
    requires k <= |rest|
    ensures EventsIn((Line(e) + ([NEWLINE] + rest))[..|Line(e)| + 1 + k]) == [e] + EventsIn(rest[..k])
  {
    var line := Line(e);
    assert (line + ([NEWLINE] + rest))[..|line| + 1 + k] == line + ([NEWLINE] + rest[..k]);
    FilesJoin(line, rest[..k]);
    LineReads(e);
  }

  /** However much of an append reached the disk, what can be read of it is its first events. */
  lemma {:induction false} TornEvents(events: seq<Event>, k: nat) returns (n: nat)
    requires k <= |Joined(events)|
    ensures n <= |events| && EventsIn(Joined(events)[..k]) == events[..n]
    decreases |events|
  {
    if events == [] {
      EmptyFile();
      n := 0;
    } else if k <= |Line(events[0])| {
      var line := Line(events[0]);
      assert Joined(events)[..k] == line[..k];
      if k < |line| {
        CutLineIsNoEvent(events[0], k);
        n := 0;
      } else {
        assert line[..k] == line;
        LineReads(events[0]);
        n := 1;
      }
    } else {
      var over := k - |Line(events[0])| - 1;
      TornAfterLine(events[0], Joined(events[1..]), over);
      var m := TornEvents(events[1..], over);
      n := m + 1;
      assert events[..n] == [events[0]] + events[1..][..m];
    }
  }

  /** Appending after any file, clean or ending in a fragment. */
  lemma AppendReads(file: File, text: File)
    ensures EventsIn(file + (Repair(file) + text)) == EventsIn(file) + EventsIn(text)
  {
    if Repair(file) == [NEWLINE] {
      FilesJoin(file, text);
    } else {
      assert Repair(file) + text == text;
      EventsAfterNewline(file, text);
    }
  }

  lemma TornAppendReads(file: File, events: seq<Event>, k: nat) returns (n: nat)
    requires k <= |Repair(file) + Joined(events)|
    ensures n <= |events| && EventsIn(file + (Repair(file) + Joined(events))[..k]) == EventsIn(file) + events[..n]
  {
    var r := |Repair(file)|;
    if k < r {
      n := 0;
      assert file + (Repair(file) + Joined(events))[..k] == file;
    } else {
      n := TornEvents(events, k - r);
      assert (Repair(file) + Joined(events))[..k] == Repair(file) + Joined(events)[..k - r];
      AppendReads(file, Joined(events)[..k - r]);
    }
  }

  // ---- The log as files ----

  type Stamp = nat

  datatype Compressed = Torn | Whole(text: File)

  /** A rotated segment: the file itself, a compressed copy, or for a while both. */
  datatype Segment = Segment(original: Option<File>, compressed: Option<Compressed>)

  datatype Operation =
    | Idle
    | Numbered(events: seq<Event>)
    | Compressing(stamp: Stamp, text: File)
    | Unlinking(stamp: Stamp, text: File)

  /** `order` lists the segments' stamps as they sort; `acked` is what callers were told is recorded. */
  datatype World = World(
    sequence: nat,
    active: File,
    order: seq<Stamp>,
    segments: map<Stamp, Segment>,
    op: Operation,
    acked: seq<Event>)

  /** The size at which the active file is rotated aside. */
  const ROTATE: nat := 16 * 1024 * 1024

  /** The largest segment that is compressed. */
  const COMPACT: nat := 64 * 1024 * 1024

  datatype Draft = Draft(at: string, name: string, details: Details)

  function Number(sequence: nat, drafts: seq<Draft>): seq<Event>
    decreases |drafts|
  {
    if drafts == [] then []
    else [Event(sequence + 1, drafts[0].at, drafts[0].name, drafts[0].details)] + Number(sequence + 1, drafts[1..])
  }

  datatype Step =
    | WriteState(drafts: seq<Draft>)
    | Rotate(stamp: Stamp)
    | Append
    | TearAppend(k: nat)
    | BeginCompaction(stamp: Stamp)
    | TearCompressed
    | WriteCompressed
    | Unlink
    | Crash

  function Rotated(w: World, stamp: Stamp): World {
    w.(active := [], order := w.order + [stamp], segments := w.segments[stamp := Segment(Some(w.active), None)])
  }

  function Apply(w: World, step: Step): Option<World> {
    match step
    case WriteState(drafts) =>
      if !w.op.Idle? || drafts == [] then None
      else Some(w.(sequence := w.sequence + |drafts|, op := Numbered(Number(w.sequence, drafts))))
    case Rotate(stamp) =>
      // Stamps are instants, so a later segment sorts after every earlier one.
      if !w.op.Numbered? || |w.active| < ROTATE || (exists i | 0 <= i < |w.order| :: w.order[i] >= stamp) then None
      else Some(Rotated(w, stamp))
    case Append =>
      if !w.op.Numbered? || |w.active| >= ROTATE then None
      else Some(w.(active := w.active + (Repair(w.active) + Joined(w.op.events)), op := Idle, acked := w.acked + w.op.events))
    case TearAppend(k) =>
      if !w.op.Numbered? || |w.active| >= ROTATE || k > |Repair(w.active) + Joined(w.op.events)| then None
      else Some(w.(active := w.active + (Repair(w.active) + Joined(w.op.events))[..k], op := Idle))
    case BeginCompaction(stamp) =>
      if !w.op.Idle? || stamp !in w.segments || w.segments[stamp].original.None? || w.segments[stamp].compressed.Some?
         || |w.segments[stamp].original.value| > COMPACT
      then None
      else Some(w.(op := Compressing(stamp, w.segments[stamp].original.value)))
    case TearCompressed =>
      if !w.op.Compressing? || w.op.stamp !in w.segments || w.segments[w.op.stamp].compressed.Some? then None
      else Some(w.(segments := w.segments[w.op.stamp := w.segments[w.op.stamp].(compressed := Some(Torn))], op := Idle))
    case WriteCompressed =>
      if !w.op.Compressing? || w.op.stamp !in w.segments || w.segments[w.op.stamp].compressed.Some? then None
      else
        Some(w.(segments := w.segments[w.op.stamp := w.segments[w.op.stamp].(compressed := Some(Whole(w.op.text)))],
                op := Unlinking(w.op.stamp, w.op.text)))
    case Unlink =>
      if !w.op.Unlinking? || w.op.stamp !in w.segments || w.segments[w.op.stamp].original != Some(w.op.text) then None
      else Some(w.(segments := w.segments[w.op.stamp := w.segments[w.op.stamp].(original := None)], op := Idle))
    case Crash => Some(w.(op := Idle))
  }

  function Initial(): World {
    World(0, [], [], map[], Idle, [])
  }

  ghost predicate Run(worlds: seq<World>, steps: seq<Step>) {
    |worlds| == |steps| + 1 && worlds[0] == Initial()
    && forall i | 0 <= i < |steps| :: Apply(worlds[i], steps[i]) == Some(worlds[i + 1])
  }

  // ---- Reading it all ----

  /** The original is preferred; a torn copy is never read while it is there. */
  function SegmentText(s: Segment): File {
    if s.original.Some? then s.original.value
    else if s.compressed.Some? && s.compressed.value.Whole? then s.compressed.value.text
    else []
  }

  ghost function SegmentEvents(segments: map<Stamp, Segment>, order: seq<Stamp>): seq<Event>
    requires forall k | k in order :: k in segments
  {
    if order == [] then []
    else SegmentEvents(segments, order[..|order| - 1]) + EventsIn(SegmentText(segments[order[|order| - 1]]))
  }

  /** Every event a full read finds, oldest file first. */
  ghost function FullRead(w: World): seq<Event>
    requires forall k | k in w.order :: k in w.segments
  {
    SegmentEvents(w.segments, w.order) + EventsIn(w.active)
  }

  ghost predicate Increasing(es: seq<Event>, least: nat, most: nat) {
    (forall i, j | 0 <= i < j < |es| :: es[i].sequence < es[j].sequence)
    && forall i | 0 <= i < |es| :: least < es[i].sequence <= most
  }

  ghost predicate SegmentSafe(s: Segment) {
    (s.original.Some? || (s.compressed.Some? && s.compressed.value.Whole?))
    && (s.original.Some? && s.compressed.Some? && s.compressed.value.Whole? ==> s.compressed.value.text == s.original.value)
  }

  ghost predicate Inv(w: World) {
    FilesOk(w) && Recorded(w)
  }

  ghost predicate FilesOk(w: World) {
    && (forall k :: k in w.order <==> k in w.segments)
    && (forall i, j | 0 <= i < j < |w.order| :: w.order[i] < w.order[j])
    && (forall k | k in w.segments :: SegmentSafe(w.segments[k]))
    && (w.op.Compressing? || w.op.Unlinking? ==>
          w.op.stamp in w.segments && w.segments[w.op.stamp].original == Some(w.op.text))
    && (w.op.Unlinking? ==> w.segments[w.op.stamp].compressed == Some(Whole(w.op.text)))
  }

  /** What is read is in strictly increasing order, holds everything acknowledged, and leaves room for
      the events about to be appended. */
  ghost predicate Recorded(w: World)
    requires forall k :: k in w.order <==> k in w.segments
  {
    && (forall e | e in w.acked :: e in FullRead(w))
    && (if w.op.Numbered? then
          exists last: nat :: last <= w.sequence && Increasing(FullRead(w), 0, last) && Increasing(w.op.events, last, w.sequence)
        else Increasing(FullRead(w), 0, w.sequence))
  }

  lemma {:induction false} NumberIncreases(sequence: nat, drafts: seq<Draft>)
    ensures |Number(sequence, drafts)| == |drafts| && Increasing(Number(sequence, drafts), sequence, sequence + |drafts|)
    decreases |drafts|
  {
    if drafts != [] { NumberIncreases(sequence + 1, drafts[1..]); }
  }

  lemma IncreasingAppend(a: seq<Event>, b: seq<Event>, least: nat, mid: nat, most: nat, n: nat)
    requires Increasing(a, least, mid) && Increasing(b, mid, most) && least <= mid <= most && n <= |b|
    ensures Increasing(a + b[..n], least, most)
  {
  }

  lemma {:induction false} SegmentsUnchanged(before: map<Stamp, Segment>, after: map<Stamp, Segment>, order: seq<Stamp>)
    requires forall k | k in order :: k in before && k in after && SegmentText(before[k]) == SegmentText(after[k])
    ensures SegmentEvents(before, order) == SegmentEvents(after, order)
    decreases |order|
  {
    if order != [] { SegmentsUnchanged(before, after, order[..|order| - 1]); }
  }

  /** Steps that change no file's readable text and number nothing. */
  lemma QuietStep(w: World, t: World)
    requires Inv(w) && t.order == w.order && t.active == w.active && t.acked == w.acked && t.sequence == w.sequence
    requires t.segments.Keys == w.segments.Keys && forall k | k in w.segments :: SegmentText(t.segments[k]) == SegmentText(w.segments[k])
    requires !t.op.Numbered? && forall k | k in t.segments :: SegmentSafe(t.segments[k])
    requires t.op.Compressing? || t.op.Unlinking? ==>
               t.op.stamp in t.segments && t.segments[t.op.stamp].original == Some(t.op.text)
    requires t.op.Unlinking? ==> t.segments[t.op.stamp].compressed == Some(Whole(t.op.text))
    ensures Inv(t)
  {
    SegmentsUnchanged(w.segments, t.segments, w.order);
    assert FullRead(t) == FullRead(w);
  }

  lemma StopKeeps(w: World)
    requires Inv(w)
    ensures Inv(w.(op := Idle))
  {
    if w.op.Numbered? {
      assert FullRead(w.(op := Idle)) == FullRead(w);
      var last: nat :| last <= w.sequence && Increasing(FullRead(w), 0, last) && Increasing(w.op.events, last, w.sequence);
    } else {
      QuietStep(w, w.(op := Idle));
    }
  }

  lemma BeginCompactionKeeps(w: World, stamp: Stamp)
    requires Inv(w)
    ensures Apply(w, BeginCompaction(stamp)).Some? ==> Inv(Apply(w, BeginCompaction(stamp)).value)
  {
    var o := Apply(w, BeginCompaction(stamp));
    if o.Some? { QuietStep(w, o.value); }
  }

  /** A copy is written while the original is there, and read only once that is gone. */
  lemma CompressedKeeps(w: World, step: Step)
    requires Inv(w) && (step.TearCompressed? || step.WriteCompressed?)
    ensures Apply(w, step).Some? ==> Inv(Apply(w, step).value)
  {
    if Apply(w, step).Some? { QuietStep(w, Apply(w, step).value); }
  }

  lemma UnlinkKeeps(w: World)
    requires Inv(w)
    ensures Apply(w, Unlink).Some? ==> Inv(Apply(w, Unlink).value)
  {
    if Apply(w, Unlink).Some? { QuietStep(w, Apply(w, Unlink).value); }
  }

  lemma WriteStateKeeps(w: World, drafts: seq<Draft>)
    requires Inv(w)
    ensures Apply(w, WriteState(drafts)).Some? ==> Inv(Apply(w, WriteState(drafts)).value)
  {
    var o := Apply(w, WriteState(drafts));
    if o.Some? {
      NumberIncreases(w.sequence, drafts);
      assert FullRead(o.value) == FullRead(w);
    }
  }

  /** What was the active file is read as the newest segment. */
  lemma RotationReads(w: World, stamp: Stamp)
    requires Inv(w) && stamp !in w.order
    ensures var t := Rotated(w, stamp);
            (forall k :: k in t.order <==> k in t.segments) && FullRead(t) == FullRead(w)
  {
    var t := Rotated(w, stamp);
    SegmentsUnchanged(w.segments, t.segments, w.order);
    assert t.order[..|t.order| - 1] == w.order;
    EmptyFile();
  }

  lemma RotatedKeeps(w: World, stamp: Stamp)
    requires Inv(w) && w.op.Numbered? && forall i | 0 <= i < |w.order| :: w.order[i] < stamp
    ensures Inv(Rotated(w, stamp))
  {
    StampIsNew(w.order, stamp);
    RotatedFiles(w, stamp);
    RotationReads(w, stamp);
    SameReadKeeps(w, Rotated(w, stamp));
  }

  lemma RotatedFiles(w: World, stamp: Stamp)
    requires FilesOk(w) && w.op.Numbered? && forall i | 0 <= i < |w.order| :: w.order[i] < stamp
    ensures FilesOk(Rotated(w, stamp))
  {
    var t := Rotated(w, stamp);
    StampIsNew(w.order, stamp);
    forall k ensures k in t.order <==> k in t.segments { assert k in t.order <==> k in w.order || k == stamp; }
    forall k | k in t.segments ensures SegmentSafe(t.segments[k]) { assert k != stamp ==> SegmentSafe(w.segments[k]); }
  }

  lemma RotateKeeps(w: World, stamp: Stamp)
    requires Inv(w)
    ensures Apply(w, Rotate(stamp)).Some? ==> Inv(Apply(w, Rotate(stamp)).value)
  {
    if Apply(w, Rotate(stamp)).Some? { RotatedKeeps(w, stamp); }
  }

  lemma StampIsNew(order: seq<Stamp>, stamp: Stamp)
    requires forall i, j | 0 <= i < j < |order| :: order[i] < order[j]
    requires forall i | 0 <= i < |order| :: order[i] < stamp
    ensures stamp !in order && forall i, j | 0 <= i < j < |order + [stamp]| :: (order + [stamp])[i] < (order + [stamp])[j]
  {
  }

  lemma SameReadKeeps(w: World, t: World)
    requires (forall k :: k in w.order <==> k in w.segments) && (forall k :: k in t.order <==> k in t.segments)
    requires Recorded(w) && FullRead(t) == FullRead(w) && t.op == w.op && t.acked == w.acked && t.sequence == w.sequence
    ensures Recorded(t)
  {
  }

  lemma ReadGains(w: World, t: World, gained: seq<Event>)
    requires forall k | k in w.order :: k in w.segments
    requires t.segments == w.segments && t.order == w.order && EventsIn(t.active) == EventsIn(w.active) + gained
    ensures FullRead(t) == FullRead(w) + gained
  {
  }

  /** After an append that wrote some of its events a full read gives what it gave, and these. */
  lemma ReadAfterAppend(w: World, t: World, n: nat)
    requires Inv(w) && w.op.Numbered? && n <= |w.op.events| && t.segments == w.segments && t.order == w.order
    requires EventsIn(t.active) == EventsIn(w.active) + w.op.events[..n]
    requires t.op.Idle? && t.sequence == w.sequence && t.acked == (if n < |w.op.events| then w.acked else w.acked + w.op.events)
    ensures Inv(t)
  {
    var events := w.op.events;
    ReadGains(w, t, events[..n]);
    var last: nat :| last <= w.sequence && Increasing(FullRead(w), 0, last) && Increasing(events, last, w.sequence);
    IncreasingAppend(FullRead(w), events, 0, last, w.sequence, n);
    if n == |events| { assert events[..n] == events; }
    AckedAreRead(w.acked, FullRead(w), events, n);
  }

  lemma AckedAreRead(acked: seq<Event>, read: seq<Event>, events: seq<Event>, n: nat)
    requires n <= |events| && forall e | e in acked :: e in read
    ensures forall e | e in (if n < |events| then acked else acked + events) :: e in read + events[..n]
  {
    if n == |events| { assert events[..n] == events; }
  }

  lemma AppendKeeps(w: World)
    requires Inv(w)
    ensures Apply(w, Append).Some? ==> Inv(Apply(w, Append).value)
  {
    var o := Apply(w, Append);
    if o.Some? {
      AppendReads(w.active, Joined(w.op.events));
      JoinedEvents(w.op.events);
      assert w.op.events[..|w.op.events|] == w.op.events;
      ReadAfterAppend(w, o.value, |w.op.events|);
    }
  }

  lemma TearKeeps(w: World, k: nat)
    requires Inv(w)
    ensures Apply(w, TearAppend(k)).Some? ==> Inv(Apply(w, TearAppend(k)).value)
  {
    var o := Apply(w, TearAppend(k));
    if o.Some? {
      var n := TornAppendReads(w.active, w.op.events, k);
      if n < |w.op.events| { ReadAfterAppend(w, o.value, n); } else { WholeTearKeeps(w, o.value); }
    }
  }

  /** A crash after the last byte: everything is there, and nobody was told. */
  lemma WholeTearKeeps(w: World, t: World)
    requires Inv(w) && w.op.Numbered? && t.segments == w.segments && t.order == w.order
    requires EventsIn(t.active) == EventsIn(w.active) + w.op.events[..|w.op.events|]
    requires t.op.Idle? && t.sequence == w.sequence && t.acked == w.acked
    ensures Inv(t)
  {
    ReadAfterAppend(w, t.(acked := w.acked + w.op.events), |w.op.events|);
    assert FullRead(t) == FullRead(t.(acked := w.acked + w.op.events));
  }

  lemma StepKeepsInv(w: World, step: Step)
    requires Inv(w) && Apply(w, step).Some?
    ensures Inv(Apply(w, step).value)
  {
    match step
    case WriteState(drafts) => WriteStateKeeps(w, drafts);
    case Rotate(stamp) => RotateKeeps(w, stamp);
    case Append => AppendKeeps(w);
    case TearAppend(n) => TearKeeps(w, n);
    case BeginCompaction(stamp) => BeginCompactionKeeps(w, stamp);
    case Unlink => UnlinkKeeps(w);
    case Crash => StopKeeps(w);
    case _ => CompressedKeeps(w, step);
  }

  lemma RunStepKeepsInv(worlds: seq<World>, steps: seq<Step>, i: nat)
    requires Run(worlds, steps) && i < |steps| && Inv(worlds[i])
    ensures Inv(worlds[i + 1])
  {
    assert Apply(worlds[i], steps[i]) == Some(worlds[i + 1]);
    StepKeepsInv(worlds[i], steps[i]);
  }

  lemma InitialIsOk()
    ensures Inv(Initial())
  {
    EmptyFile();
  }

  lemma {:induction false} RunKeepsInv(worlds: seq<World>, steps: seq<Step>, k: nat)
    requires Run(worlds, steps) && k < |worlds|
    ensures Inv(worlds[k])
  {
    if k == 0 {
      InitialIsOk();
    } else {
      RunKeepsInv(worlds, steps, k - 1);
      RunStepKeepsInv(worlds, steps, k - 1);
    }
  }

  lemma {:induction false} NumberedAre(sequence: nat, drafts: seq<Draft>, i: nat)
    requires i < |drafts|
    ensures i < |Number(sequence, drafts)|
    ensures Number(sequence, drafts)[i] == Event(sequence + 1 + i, drafts[i].at, drafts[i].name, drafts[i].details)
    decreases |drafts|
  {
    if i > 0 { NumberedAre(sequence + 1, drafts[1..], i - 1); }
  }

  /** Afterwards there is what there was, and each draft with its own content under the next number. */
  ghost predicate Gained(before: seq<Event>, after: seq<Event>, sequence: nat, drafts: seq<Draft>) {
    && |after| == |before| + |drafts| && after[..|before|] == before
    && forall i | 0 <= i < |drafts| ::
         after[|before| + i] == Event(sequence + 1 + i, drafts[i].at, drafts[i].name, drafts[i].details)
  }

  lemma NumberedIsGained(before: seq<Event>, sequence: nat, drafts: seq<Draft>)
    ensures Gained(before, before + Number(sequence, drafts), sequence, drafts)
  {
    var events := Number(sequence, drafts);
    NumberIncreases(sequence, drafts);
    forall i | 0 <= i < |drafts|
      ensures (before + events)[|before| + i] == Event(sequence + 1 + i, drafts[i].at, drafts[i].name, drafts[i].details)
    {
      NumberedAre(sequence, drafts, i);
    }
  }

  /** What is drafted is what is read and acknowledged. */
  lemma DraftsAreRead(w: World, drafts: seq<Draft>)
    requires FilesOk(w) && w.op.Idle? && drafts != [] && |w.active| < ROTATE
    ensures var t := Apply(w, WriteState(drafts));
            t.Some? && var u := Apply(t.value, Append);
            u.Some? && u.value.sequence == w.sequence + |drafts| && u.value.op == Idle && FilesOk(u.value)
            && Gained(FullRead(w), FullRead(u.value), w.sequence, drafts) && Gained(w.acked, u.value.acked, w.sequence, drafts)
  {
    var u := Apply(Apply(w, WriteState(drafts)).value, Append).value;
    var events := Number(w.sequence, drafts);
    AppendReads(w.active, Joined(events));
    JoinedEvents(events);
    ReadGains(w, u, events);
    NumberedIsGained(FullRead(w), w.sequence, drafts);
    NumberedIsGained(w.acked, w.sequence, drafts);
  }

  /** After any run a full read gives every acknowledged event, once, and everything it gives in strictly
      increasing sequence. */
  lemma AcknowledgedExactlyOnce(worlds: seq<World>, steps: seq<Step>, k: nat)
    requires Run(worlds, steps) && k < |worlds|
    ensures forall x | x in worlds[k].order :: x in worlds[k].segments
    ensures forall i, j | 0 <= i < j < |FullRead(worlds[k])| :: FullRead(worlds[k])[i].sequence < FullRead(worlds[k])[j].sequence
    ensures forall e | e in worlds[k].acked ::
              exists i | 0 <= i < |FullRead(worlds[k])| ::
                FullRead(worlds[k])[i] == e && forall j | 0 <= j < |FullRead(worlds[k])| && j != i :: FullRead(worlds[k])[j] != e
  {
    RunKeepsInv(worlds, steps, k);
    var all := FullRead(worlds[k]);
    forall e | e in worlds[k].acked
      ensures exists i | 0 <= i < |all| :: all[i] == e && forall j | 0 <= j < |all| && j != i :: all[j] != e
    {
      var i :| 0 <= i < |all| && all[i] == e;
      forall j | 0 <= j < |all| && j != i ensures all[j] != e {
        if j < i { assert all[j].sequence < all[i].sequence; }
      }
    }
  }

  // ---- The code that numbers and appends ----

  /** The text of an append, which is encoded as a whole. */
  function JoinedText(events: seq<Event>): string {
    if events == [] then "" else JoinedText(events[..|events| - 1]) + (AuditLines.Encode(events[|events| - 1]) + "\n")
  }

  lemma {:induction false} JoinedSnoc(events: seq<Event>, e: Event)
    ensures Joined(events + [e]) == Joined(events) + (Line(e) + [NEWLINE])
    decreases |events|
  {
    if events == [] {
      assert events + [e] == [e] && [e][1..] == [];
      assert [NEWLINE] + Joined([]) == [NEWLINE];
    } else {
      assert (events + [e])[1..] == events[1..] + [e];
      JoinedSnoc(events[1..], e);
      Concat3([NEWLINE], Joined(events[1..]), Line(e) + [NEWLINE]);
      Concat3(Line(events[0]), [NEWLINE] + Joined(events[1..]), Line(e) + [NEWLINE]);
    }
  }

  lemma NewlineEncoded()
    ensures Utf8.Encode("\n") == [NEWLINE]
  {
    assert EncodeChar('\n') == [NEWLINE];
    assert "\n"[1..] == "";
  }

  lemma {:induction false} JoinedIsEncoded(events: seq<Event>)
    ensures Utf8.Encode(JoinedText(events)) == Joined(events)
    decreases |events|
  {
    if events != [] {
      var init, last := events[..|events| - 1], events[|events| - 1];
      JoinedIsEncoded(init);
      JoinedSnoc(init, last);
      assert events == init + [last];
      NewlineEncoded();
      EncodeAppend(AuditLines.Encode(last), "\n");
      EncodeAppend(JoinedText(init), AuditLines.Encode(last) + "\n");
    }
  }

  lemma {:induction false} NumberSnoc(sequence: nat, drafts: seq<Draft>, d: Draft)
    ensures Number(sequence, drafts + [d])
            == Number(sequence, drafts) + [Event(sequence + |drafts| + 1, d.at, d.name, d.details)]
    decreases |drafts|
  {
    if drafts == [] {
      assert drafts + [d] == [d] && [d][1..] == [];
    } else {
      assert (drafts + [d])[1..] == drafts[1..] + [d];
      NumberSnoc(sequence + 1, drafts[1..], d);
    }
  }

  lemma TextReads(file: File, prefix: string, events: seq<Event>)
    requires prefix == if file != [] && file[|file| - 1] != NEWLINE then "\n" else ""
    ensures Utf8.Encode(prefix + JoinedText(events)) == Repair(file) + Joined(events)
    ensures EventsIn(file + Utf8.Encode(prefix + JoinedText(events))) == EventsIn(file) + events
  {
    JoinedIsEncoded(events);
    EncodeAppend(prefix, JoinedText(events));
    NewlineEncoded();
    AppendReads(file, Joined(events));
    JoinedEvents(events);
  }

  class AuditStore {
    var sequence: nat
    var file: File

    constructor ()
      ensures sequence == 0 && file == []
    {
      sequence, file := 0, [];
    }

    /** The recorder of a transaction: each call takes the next number. */
    method Record(drafts: seq<Draft>) returns (events: seq<Event>)
      modifies this`sequence
      ensures events == Number(old(sequence), drafts) && sequence == old(sequence) + |drafts|
    {
      events := [];
      for i := 0 to |drafts|
        invariant sequence == old(sequence) + i && events == Number(old(sequence), drafts[..i])
      {
        NumberSnoc(old(sequence), drafts[..i], drafts[i]);
        assert drafts[..i + 1] == drafts[..i] + [drafts[i]];
        sequence := sequence + 1;
        events := events + [Event(sequence, drafts[i].at, drafts[i].name, drafts[i].details)];
      }
      assert drafts[..|drafts|] == drafts;
    }

    /** `appendAudit`: end a fragment if there is one, then write the lines. A reader then finds what it
        found before, and these events. */
    method Append(events: seq<Event>)
      modifies this`file
      ensures file == old(file) + (Repair(old(file)) + Joined(events))
      ensures EventsIn(file) == EventsIn(old(file)) + events
    {
      var prefix := "";
      if |file| > 0 && file[|file| - 1] != NEWLINE { prefix := "\n"; }
      var text := "";
      for i := 0 to |events|
        modifies {}
        invariant text == JoinedText(events[..i])
      {
        assert events[..i + 1][..i] == events[..i] && events[..i + 1][i] == events[i];
        text := text + (AuditLines.Encode(events[i]) + "\n");
      }
      assert events[..|events|] == events;
      TextReads(file, prefix, events);
      file := file + Utf8.Encode(prefix + text);
    }
  }

}
