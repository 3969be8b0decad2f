/**
 The lines of the audit stream (src/store.ts) as text. An event is one line of JSON; what a crash
 left of a line, or a decoder made of its last bytes, is none.
 */
module AuditLines {
  import opened Common
  import Json
  import Quoting

  // ---- Events (`auditEvent` in src/state-codec.ts) ----

  predicate InEnvelope(key: string) {
    key == "sequence" || key == "at" || key == "event"
  }

  /** The members the stream knows, if they are there, have their types; others may have any. */
  predicate KnownFits(f: Json.Field) {
    && (f.key == "actor" || f.key == "taskId" || f.key == "batchId" || f.key == "submissionId" ==>
          f.value.Some? && f.value.value.Str?)
    && (f.key == "details" ==> f.value.Some? && f.value.value.Obj?)
  }

  predicate Extra(fs: seq<Json.Field>) {
    Json.AllDefined(fs) && Json.DistinctKeys(fs) && forall i | 0 <= i < |fs| :: !InEnvelope(fs[i].key) && KnownFits(fs[i])
  }

  /** What is recorded beyond the envelope; only defined fields are written. */
  type Details = fs: seq<Json.Field> | Extra(fs)

  datatype Event = Event(sequence: nat, at: string, name: string, details: Details)

  function Fields(e: Event): (r: seq<Json.Field>)
    ensures Json.AllDefined(r) && Json.DistinctKeys(r)
  {
    [Json.Field("sequence", Some(Json.Num(e.sequence))),
     Json.Field("at", Some(Json.Str(e.at))),
     Json.Field("event", Some(Json.Str(e.name)))] + e.details
  }

  function Encode(e: Event): string {
    Json.Print(Json.Obj(Fields(e)))
  }

  // ---- Reading one line (`JSON.parse` and `isAuditEvent`) ----

  /** Of several members with one name a reader keeps the last. */
  function Latest(fs: seq<Json.Field>): seq<Json.Field> {
    if fs == [] then []
    else if Has(fs[1..], fs[0].key) then Latest(fs[1..])
    else [fs[0]] + Latest(fs[1..])
  }

  predicate Has(fs: seq<Json.Field>, key: string) {
    exists i | 0 <= i < |fs| :: fs[i].key == key
  }

  function Member(fs: seq<Json.Field>, key: string): Option<Json.Value> {
    if fs == [] then None else if fs[0].key == key then fs[0].value else Member(fs[1..], key)
  }

  function Beyond(fs: seq<Json.Field>): seq<Json.Field> {
    if fs == [] then []
    else if InEnvelope(fs[0].key) then Beyond(fs[1..])
    else [fs[0]] + Beyond(fs[1..])
  }

  predicate Envelope(fs: seq<Json.Field>) {
    var (n, at, name) := (Member(fs, "sequence"), Member(fs, "at"), Member(fs, "event"));
    && n.Some? && n.value.Num? && n.value.n >= 0
    && at.Some? && at.value.Str?
    && name.Some? && name.value.Str?
  }

  function EventOf(fs: seq<Json.Field>): Option<Event> {
    if Envelope(fs) && Extra(Beyond(fs))
    then Some(Event(Member(fs, "sequence").value.n, Member(fs, "at").value.s, Member(fs, "event").value.s, Beyond(fs)))
    else None
  }

  function Decode(line: string): Option<Event> {
    var v := Json.Parse(line);
    if v.Some? && v.value.Obj? then EventOf(Latest(v.value.fields)) else None
  }

  // ---- Lines ----

  function FirstNewline(s: string): (i: nat)
    ensures i <= |s| && '\n' !in s[..i] && (i < |s| ==> s[i] == '\n')
  {
    if s == "" || s[0] == '\n' then 0 else 1 + FirstNewline(s[1..])
  }

  function Lines(s: string): (r: seq<string>)
    ensures r != []
    decreases |s|
  {
    var i := FirstNewline(s);
    if i == |s| then [s] else [s[..i]] + Lines(s[i + 1..])
  }

  function EventsOf(lines: seq<string>): seq<Event> {
    if lines == [] then []
    else
      var e := Decode(lines[0]);
      (if e.Some? then [e.value] else []) + EventsOf(lines[1..])
  }

  /** The events a reader finds in a file. */
  function Events(text: string): seq<Event> {
    EventsOf(Lines(text))
  }

  // ---- Encoding is one line, and no fragment of it is an event ----

  lemma {:induction false} EncodedCharsOneLine(s: string)
    ensures '\n' !in Json.EncodeChars(s)
    decreases |s|
  {
    if s != "" { EncodedCharsOneLine(s[1..]); }
  }

  lemma DecimalOneLine(n: nat)
    ensures '\n' !in Json.Decimal(n)
  {
    Json.DecimalIsDigits(n);
  }

  lemma {:induction false} PrintOneLine(v: Json.Value)
    ensures '\n' !in Json.Print(v)
    decreases v, 0
  {
    match v
    case Num(n) => DecimalOneLine(if n < 0 then -n else n);
    case Str(s) => EncodedCharsOneLine(s);
    case Arr(items) => ItemsOneLine(items);
    case Obj(fields) => FieldsOneLine(fields);
    case _ =>
  }

  lemma {:induction false} ItemsOneLine(items: seq<Json.Value>)
    ensures '\n' !in Json.PrintItems(items)
    decreases items, 0
  {
    if items != [] {
      PrintOneLine(items[0]);
      ItemsOneLine(items[1..]);
    }
  }

  lemma {:induction false} FieldsOneLine(fs: seq<Json.Field>)
    ensures '\n' !in Json.PrintFields(fs)
    decreases fs, 0
  {
    if fs != [] {
      EncodedCharsOneLine(fs[0].key);
      if fs[0].value.Some? { PrintOneLine(fs[0].value.value); }
      FieldsOneLine(fs[1..]);
    }
  }

  lemma EncodeOneLine(e: Event)
    ensures '\n' !in Encode(e) && Encode(e) != ""
  {
    PrintOneLine(Json.Obj(Fields(e)));
    Json.PrintHead(Json.Obj(Fields(e)), "");
  }

  lemma EncodeInjective(e: Event, f: Event, x: string)
    requires Encode(e) == Encode(f) + x
    ensures e == f && x == ""
  {
    assert Encode(e) + "" == Encode(e);
    Json.PrintInjective(Json.Obj(Fields(e)), Json.Obj(Fields(f)), "", x);
    FieldsAreEvent(e);
    FieldsAreEvent(f);
  }

  lemma HasNone(fs: seq<Json.Field>)
    requires fs != [] && Json.DistinctKeys(fs)
    ensures !Has(fs[1..], fs[0].key) && Json.DistinctKeys(fs[1..])
  {
    assert forall i | 0 <= i < |fs[1..]| :: fs[1..][i] == fs[i + 1];
  }

  lemma {:induction false} DistinctStay(fs: seq<Json.Field>)
    requires Json.DistinctKeys(fs)
    ensures Latest(fs) == fs
    decreases |fs|
  {
    if fs != [] {
      HasNone(fs);
      DistinctStay(fs[1..]);
      assert fs == [fs[0]] + fs[1..];
    }
  }

  lemma {:induction false} ExtraIsBeyond(fs: seq<Json.Field>)
    requires forall i | 0 <= i < |fs| :: !InEnvelope(fs[i].key)
    ensures Beyond(fs) == fs
    decreases |fs|
  {
    if fs != [] {
      ExtraIsBeyond(fs[1..]);
      assert fs == [fs[0]] + fs[1..];
    }
  }

  lemma FirstMember(f: Json.Field, more: seq<Json.Field>, key: string)
    ensures Member([f] + more, key) == if f.key == key then f.value else Member(more, key)
    ensures Beyond([f] + more) == if InEnvelope(f.key) then Beyond(more) else [f] + Beyond(more)
  {
    assert ([f] + more)[1..] == more;
  }

  lemma ThreeMembers(a: Json.Field, b: Json.Field, c: Json.Field, more: seq<Json.Field>)
    requires a.key == "sequence" && b.key == "at" && c.key == "event"
    ensures var fs := [a] + ([b] + ([c] + more));
            Member(fs, "sequence") == a.value && Member(fs, "at") == b.value && Member(fs, "event") == c.value
            && Beyond(fs) == Beyond(more)
  {
    assert |"sequence"| == 8 && |"at"| == 2 && |"event"| == 5;
    FirstMember(a, [b] + ([c] + more), "sequence");
    FirstMember(a, [b] + ([c] + more), "at");
    FirstMember(a, [b] + ([c] + more), "event");
    FirstMember(b, [c] + more, "at");
    FirstMember(b, [c] + more, "event");
    FirstMember(c, more, "event");
  }

  lemma FieldsAreEvent(e: Event)
    ensures EventOf(Fields(e)) == Some(e)
  {
    var fs := Fields(e);
    assert fs == [fs[0]] + ([fs[1]] + ([fs[2]] + e.details));
    ThreeMembers(fs[0], fs[1], fs[2], e.details);
    ExtraIsBeyond(e.details);
  }

  /** What is recorded is what a reader of JSON finds. */
  lemma DecodeEncoded(e: Event)
    ensures Decode(Encode(e)) == Some(e)
  {
    Json.ParsesBack(Json.Obj(Fields(e)));
    DistinctStay(Fields(e));
    FieldsAreEvent(e);
  }

  lemma {:induction false} BeyondAre(fs: seq<Json.Field>)
    requires Json.DistinctKeys(fs) && Json.AllDefined(fs)
    ensures forall f :: f in Beyond(fs) <==> f in fs && !InEnvelope(f.key)
    ensures Json.DistinctKeys(Beyond(fs)) && Json.AllDefined(Beyond(fs))
    decreases |fs|
  {
    if fs != [] {
      HasNone(fs);
      BeyondAre(fs[1..]);
      assert fs == [fs[0]] + fs[1..];
      var rest := Beyond(fs[1..]);
      forall i | 0 <= i < |rest| ensures rest[i].key != fs[0].key {
        assert rest[i] in fs[1..];
        var j :| 0 <= j < |fs[1..]| && fs[1..][j] == rest[i];
      }
    }
  }

  /** Which objects are events: those with the envelope, whose known members have their types. */
  lemma EventsAreEnvelopes(line: string, fs: seq<Json.Field>)
    requires Json.Parse(line) == Some(Json.Obj(fs)) && Json.DistinctKeys(fs)
    ensures Decode(line).Some? <==> Envelope(fs) && forall f | f in fs && !InEnvelope(f.key) :: KnownFits(f)
    ensures Decode(line).Some? ==> forall f :: f in Decode(line).value.details <==> f in fs && !InEnvelope(f.key)
  {
    Json.ReadIsDefined(line, false);
    DistinctStay(fs);
    BeyondAre(fs);
    var rest := Beyond(fs);
    if forall f | f in fs && !InEnvelope(f.key) :: KnownFits(f) {
      forall i | 0 <= i < |rest| ensures !InEnvelope(rest[i].key) && KnownFits(rest[i]) { assert rest[i] in rest; }
    }
  }

  lemma EventIsObject(line: string)
    requires Decode(line).Some?
    ensures var r := Json.ReadValue(line, false); r.Some? && r.value.0.Obj? && Json.SkipSpace(r.value.1, false) == ""
  {
  }

  /** A line cut short is no event, and so damages none. */
  lemma FragmentIsNoEvent(e: Event, k: nat)
    requires k < |Encode(e)|
    ensures Decode(Encode(e)[..k]).None?
  {
    var line, rest := Encode(e)[..k], Encode(e)[k..];
    if Decode(line).Some? {
      EventIsObject(line);
      Json.ValueExtends(line, rest, false);
      assert line + rest == Encode(e) == Encode(e) + "";
      Json.ReadsBack(Json.Obj(Fields(e)), "", false);
    }
  }

  lemma EmptyIsNoEvent()
    ensures Decode("").None?
  {
  }

  // ---- Newlines separate ----

  lemma {:induction false} FirstNewlineIn(s: string, t: string)
    ensures '\n' in s ==> FirstNewline(s + t) == FirstNewline(s) < |s|
    ensures '\n' !in s ==> FirstNewline(s + ("\n" + t)) == |s|
    decreases |s|
  {
    if s == "" {
      assert s + ("\n" + t) == "\n" + t;
    } else {
      assert (s + t)[1..] == s[1..] + t && (s + ("\n" + t))[1..] == s[1..] + ("\n" + t);
      assert s == [s[0]] + s[1..];
      FirstNewlineIn(s[1..], t);
    }
  }

  lemma LinesCut(s: string, line: string, t: string)
    requires s == line + ("\n" + t) && '\n' !in line
    ensures Lines(s) == [line] + Lines(t)
  {
    FirstNewlineIn(line, t);
    assert s[..|line|] == line && s[|line| + 1..] == t;
  }

  lemma Regroup(line: string, more: string, t: string)
    ensures (line + ("\n" + more)) + ("\n" + t) == line + ("\n" + (more + ("\n" + t)))
  {
    Json.Assoc(line, "\n" + more, "\n" + t);
    Json.Assoc("\n", more, "\n" + t);
  }

  lemma {:induction false} LinesJoin(s: string, t: string)
    ensures Lines(s + ("\n" + t)) == Lines(s) + Lines(t)
    decreases |s|
  {
    var i := FirstNewline(s);
    if i < |s| {
      var line, more := s[..i], s[i + 1..];
      assert s == line + ("\n" + more);
      Regroup(line, more, t);
      LinesCut(s, line, more);
      LinesCut(s + ("\n" + t), line, more + ("\n" + t));
      LinesJoin(more, t);
    } else {
      LinesOfOne(s, t);
    }
  }

  lemma LinesOfOne(s: string, t: string)
    requires FirstNewline(s) == |s|
    ensures Lines(s + ("\n" + t)) == [s] + Lines(t) && Lines(s) == [s]
  {
    assert s[..|s|] == s;
    LinesCut(s + ("\n" + t), s, t);
  }

  lemma EventsOfCons(line: string, rest: seq<string>)
    ensures EventsOf([line] + rest) == (if Decode(line).Some? then [Decode(line).value] else []) + EventsOf(rest)
  {
    assert ([line] + rest)[1..] == rest;
  }

  lemma {:induction false} EventsOfAppend(a: seq<string>, b: seq<string>)
    ensures EventsOf(a + b) == EventsOf(a) + EventsOf(b)
    decreases |a|
  {
    if a == [] {
      assert a + b == b;
    } else {
      assert a + b == [a[0]] + (a[1..] + b) && a == [a[0]] + a[1..];
      EventsOfCons(a[0], a[1..] + b);
      EventsOfCons(a[0], a[1..]);
      EventsOfAppend(a[1..], b);
    }
  }

  lemma EventsJoin(s: string, t: string)
    ensures Events(s + ("\n" + t)) == Events(s) + Events(t)
  {
    LinesJoin(s, t);
    EventsOfAppend(Lines(s), Lines(t));
  }

  lemma EventsOfOneLine(line: string)
    requires '\n' !in line
    ensures Events(line) == if Decode(line).Some? then [Decode(line).value] else []
  {
    assert FirstNewline(line) == |line|;
    assert Lines(line) == [line];
    assert EventsOf([line][1..]) == [];
  }

  // ---- A line that lost its end in the middle of a character ----

  lemma {:induction false} SpaceToTheEnd(s: string)
    requires Json.SkipSpace(s, false) == "" && s != ""
    ensures Json.IsSpace(s[|s| - 1])
    decreases |s|
  {
    if |s| > 1 { SpaceToTheEnd(s[1..]); }
  }

  lemma SpaceAtTheEnd(s: string, rest: string)
    requires Json.Suffix(rest, s) && Json.SkipSpace(rest, false) == ""
    ensures rest != "" ==> Json.IsSpace(s[|s| - 1])
  {
    if rest != "" { SpaceToTheEnd(rest); }
  }

  /** Whatever a decoder puts for the rest of a cut character, the line does not end as an event does. */
  lemma MangledIsNoEvent(line: string, c: char)
    requires c != '}' && !Json.IsSpace(c)
    ensures Decode(line + [c]).None?
  {
    var s := line + [c];
    if Decode(s).Some? {
      EventIsObject(s);
      var rest := Json.ReadValue(s, false).value.1;
      Json.ObjectEnds(s, false);
      Json.ValueLeaves(s, false);
      SpaceAtTheEnd(s, rest);
    }
  }

  // ---- Blank lines ----

  /** `line.trim() === ""` */
  predicate Blank(line: string) {
    forall i | 0 <= i < |line| :: Quoting.Whitespace(line[i])
  }

  function NonBlank(lines: seq<string>): seq<string> {
    if lines == [] then [] else (if Blank(lines[0]) then [] else [lines[0]]) + NonBlank(lines[1..])
  }

  lemma {:induction false} SkippedBlank(line: string)
    requires Blank(line)
    ensures var t := Json.SkipSpace(line, false); t != "" ==> Quoting.Whitespace(t[0])
    decreases |line|
  {
    if line != "" && Json.IsSpace(line[0]) { SkippedBlank(line[1..]); }
  }

  lemma BlankIsNoEvent(line: string)
    requires Blank(line)
    ensures Decode(line).None?
  {
    SkippedBlank(line);
    if Decode(line).Some? { EventIsObject(line); }
  }

  lemma {:induction false} NonBlankKeepsEvents(lines: seq<string>)
    ensures EventsOf(NonBlank(lines)) == EventsOf(lines)
    decreases |lines|
  {
    if lines != [] {
      NonBlankKeepsEvents(lines[1..]);
      if Blank(lines[0]) {
        BlankIsNoEvent(lines[0]);
        assert NonBlank(lines) == NonBlank(lines[1..]);
      } else {
        EventsOfCons(lines[0], NonBlank(lines[1..]));
      }
    }
  }

  lemma NonBlankCons(line: string, rest: seq<string>)
    ensures NonBlank([line] + rest) == (if Blank(line) then [] else [line]) + NonBlank(rest)
  {
    assert ([line] + rest)[1..] == rest;
  }
}
