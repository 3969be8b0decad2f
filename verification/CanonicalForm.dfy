/**
 Canonical JSON (`canonicalJson` in src/provenance.ts): the text a signature covers. Its point is that
 two manifests have the same text exactly when they say the same, whatever the order of their keys
 and whether an absent field is missing or undefined.
 */
module CanonicalForm {
  import opened Common
  import opened Json

  /** What a value says: objects are maps from their defined keys. */
  datatype Meaning =
    | MNull
    | MBool(b: bool)
    | MNum(n: int)
    | MStr(s: string)
    | MArr(items: seq<Meaning>)
    | MObj(fields: map<string, Meaning>)

  function MeaningOf(v: Value): Meaning {
    match v
    case Null => MNull
    case Bool(b) => MBool(b)
    case Num(n) => MNum(n)
    case Str(s) => MStr(s)
    case Arr(items) => MArr(seq(|items|, i requires 0 <= i < |items| => MeaningOf(items[i])))
    case Obj(fields) => MObj(MeaningOfFields(fields))
  }

  function MeaningOfFields(fs: seq<Field>): map<string, Meaning> {
    if fs == [] then map[]
    else
      var rest := MeaningOfFields(fs[1..]);
      if fs[0].value.None? then rest else rest[fs[0].key := MeaningOf(fs[0].value.value)]
  }

  // ---- The text ----

  predicate Before(a: string, b: string) {
    if b == "" then false
    else if a == "" then true
    else a[0] < b[0] || (a[0] == b[0] && Before(a[1..], b[1..]))
  }

  function Insert(f: Field, sorted: seq<Field>): seq<Field> {
    if sorted == [] || Before(f.key, sorted[0].key) then [f] + sorted else [sorted[0]] + Insert(f, sorted[1..])
  }

  function Sort(fs: seq<Field>): seq<Field> {
    if fs == [] then [] else Insert(fs[0], Sort(fs[1..]))
  }

  /** The keys that have a value, each with its value in canonical form. */
  function CanonicalFields(fs: seq<Field>): seq<Field> {
    if fs == [] then []
    else if fs[0].value.None? then CanonicalFields(fs[1..])
    else [Field(fs[0].key, Some(Canonical(fs[0].value.value)))] + CanonicalFields(fs[1..])
  }

  /** Undefined fields dropped and keys sorted, all the way down. */
  function Canonical(v: Value): Value {
    match v
    case Arr(items) => Arr(seq(|items|, i requires 0 <= i < |items| => Canonical(items[i])))
    case Obj(fields) => Obj(Sort(CanonicalFields(fields)))
    case _ => v
  }

  function CanonicalJson(v: Value): string {
    Print(Canonical(v))
  }

  // ---- Key order and absent fields ----

  /** No key occurs twice, as in any object. */
  predicate WellKeyed(v: Value) {
    match v
    case Arr(items) => forall i | 0 <= i < |items| :: WellKeyed(items[i])
    case Obj(fields) =>
      DistinctKeys(fields)
      && forall i | 0 <= i < |fields| :: fields[i].value.Some? ==> WellKeyed(fields[i].value.value)
    case _ => true
  }

  lemma {:induction false} BeforeIsTotal(a: string, b: string)
    ensures Before(a, b) || Before(b, a) || a == b
    ensures !(Before(a, b) && Before(b, a)) && !Before(a, a)
    decreases |a|
  {
    if a != "" && b != "" {
      BeforeIsTotal(a[1..], b[1..]);
      assert a == [a[0]] + a[1..] && b == [b[0]] + b[1..];
    }
    if a != "" { BeforeIrreflexive(a); }
  }

  lemma {:induction false} BeforeIrreflexive(a: string)
    ensures !Before(a, a)
    decreases |a|
  {
    if a != "" { BeforeIrreflexive(a[1..]); }
  }

  lemma {:induction false} BeforeIsTransitive(a: string, b: string, c: string)
    requires Before(a, b) && Before(b, c)
    ensures Before(a, c)
    decreases |a|
  {
    if a != "" && a[0] == b[0] && b[0] == c[0] { BeforeIsTransitive(a[1..], b[1..], c[1..]); }
  }

  ghost predicate SortedKeys(fs: seq<Field>) {
    forall i, j | 0 <= i < j < |fs| :: Before(fs[i].key, fs[j].key)
  }

  lemma {:induction false} InsertSorts(f: Field, fs: seq<Field>)
    requires SortedKeys(fs) && forall g | g in fs :: g.key != f.key
    ensures SortedKeys(Insert(f, fs)) && forall g :: g in Insert(f, fs) <==> g == f || g in fs
    decreases |fs|
  {
    if fs != [] {
      BeforeIsTotal(f.key, fs[0].key);
      assert fs == [fs[0]] + fs[1..];
      if Before(f.key, fs[0].key) {
        forall i | 0 <= i < |fs| ensures Before(f.key, fs[i].key) {
          if i > 0 { BeforeIsTransitive(f.key, fs[0].key, fs[i].key); }
        }
      } else {
        InsertSorts(f, fs[1..]);
        var rest := Insert(f, fs[1..]);
        forall i | 0 <= i < |rest| ensures Before(fs[0].key, rest[i].key) { assert rest[i] in rest; }
      }
    }
  }

  lemma {:induction false} SortSorts(fs: seq<Field>)
    requires DistinctKeys(fs)
    ensures SortedKeys(Sort(fs)) && forall g :: g in Sort(fs) <==> g in fs
    decreases |fs|
  {
    if fs != [] {
      SortSorts(fs[1..]);
      assert fs == [fs[0]] + fs[1..];
      forall g | g in Sort(fs[1..]) ensures g.key != fs[0].key {
        var i :| 0 < i < |fs| && fs[i] == g;
      }
      InsertSorts(fs[0], Sort(fs[1..]));
    }
  }

  lemma HeadIsMember(fs: seq<Field>)
    ensures fs == [] || fs[0] in fs
  {
  }

  lemma SortedTail(fs: seq<Field>, g: Field)
    requires SortedKeys(fs) && fs != []
    ensures g in fs[1..] <==> g in fs && g != fs[0]
  {
    assert fs == [fs[0]] + fs[1..];
    if g in fs[1..] {
      var i :| 0 < i < |fs| && fs[i] == g;
      BeforeIrreflexive(g.key);
      assert Before(fs[0].key, g.key);
    }
  }

  lemma {:induction false} SortedFieldsAreUnique(a: seq<Field>, b: seq<Field>)
    requires SortedKeys(a) && SortedKeys(b) && (forall g :: g in a <==> g in b)
    ensures a == b
    decreases |a|
  {
    HeadIsMember(a);
    HeadIsMember(b);
    if a != [] && b != [] {
      SortedHeads(a, b);
      forall g ensures g in a[1..] <==> g in b[1..] {
        SortedTail(a, g);
        SortedTail(b, g);
      }
      SortedFieldsAreUnique(a[1..], b[1..]);
      assert a == [a[0]] + a[1..] && b == [b[0]] + b[1..];
    }
  }

  lemma SortedHeads(a: seq<Field>, b: seq<Field>)
    requires SortedKeys(a) && SortedKeys(b) && a != [] && b != [] && a[0] in b && b[0] in a
    ensures a[0] == b[0]
  {
    var i :| 0 <= i < |a| && a[i] == b[0];
    var j :| 0 <= j < |b| && b[j] == a[0];
    BeforeIsTotal(a[0].key, b[0].key);
    HeadComesFirst(a, i);
    HeadComesFirst(b, j);
  }

  lemma HeadComesFirst(fs: seq<Field>, i: nat)
    requires SortedKeys(fs) && i < |fs|
    ensures i == 0 || Before(fs[0].key, fs[i].key)
  {
  }

  /** The canonical fields are the defined ones, each with its value in canonical form. */
  lemma {:induction false} CanonicalFieldsAre(fs: seq<Field>)
    requires DistinctKeys(fs)
    ensures DistinctKeys(CanonicalFields(fs))
    ensures forall g :: g in CanonicalFields(fs) <==>
                          exists i | 0 <= i < |fs| :: fs[i].value.Some? && g == Field(fs[i].key, Some(Canonical(fs[i].value.value)))
    decreases fs
  {
    if fs != [] {
      CanonicalFieldsAre(fs[1..]);
      var rest, all := CanonicalFields(fs[1..]), CanonicalFields(fs);
      forall g ensures g in all <==>
                         exists i | 0 <= i < |fs| :: fs[i].value.Some? && g == Field(fs[i].key, Some(Canonical(fs[i].value.value)))
      {
        if g in rest {
          var i :| 0 <= i < |fs[1..]| && fs[1..][i].value.Some? && g == Field(fs[1..][i].key, Some(Canonical(fs[1..][i].value.value)));
          assert fs[i + 1] == fs[1..][i];
        }
        if i :| 0 <= i < |fs| && fs[i].value.Some? && g == Field(fs[i].key, Some(Canonical(fs[i].value.value))) {
          if i > 0 { assert fs[1..][i - 1] == fs[i]; }
        }
      }
      forall k | 0 <= k < |rest| ensures rest[k].key != fs[0].key {
        assert rest[k] in rest;
        var i :| 0 <= i < |fs[1..]| && fs[1..][i].value.Some? && rest[k] == Field(fs[1..][i].key, Some(Canonical(fs[1..][i].value.value)));
        assert fs[1..][i] == fs[i + 1];
      }
    }
  }

  /** An object's meaning maps its defined keys to their values' meanings. */
  lemma {:induction false} MeaningOfFieldsIs(fs: seq<Field>)
    requires DistinctKeys(fs)
    ensures forall k :: k in MeaningOfFields(fs) <==> exists i | 0 <= i < |fs| :: fs[i].key == k && fs[i].value.Some?
    ensures forall i | 0 <= i < |fs| && fs[i].value.Some? ::
              fs[i].key in MeaningOfFields(fs) && MeaningOfFields(fs)[fs[i].key] == MeaningOf(fs[i].value.value)
    decreases fs
  {
    if fs != [] {
      MeaningOfFieldsIs(fs[1..]);
      var rest, all := MeaningOfFields(fs[1..]), MeaningOfFields(fs);
      forall i | 0 <= i < |fs| && fs[i].value.Some? ensures fs[i].key in all && all[fs[i].key] == MeaningOf(fs[i].value.value) {
        if i > 0 { assert fs[1..][i - 1] == fs[i]; }
      }
      forall k | k in rest ensures exists i | 0 <= i < |fs| :: fs[i].key == k && fs[i].value.Some? {
        var i :| 0 <= i < |fs[1..]| && fs[1..][i].key == k && fs[1..][i].value.Some?;
        assert fs[i + 1] == fs[1..][i];
      }
    }
  }

  lemma {:induction false} CanonicalIsDefined(v: Value)
    requires WellKeyed(v)
    ensures Defined(Canonical(v))
    decreases v
  {
    match v
    case Arr(items) =>
      forall i | 0 <= i < |items| ensures Defined(Canonical(items[i])) { CanonicalIsDefined(items[i]); }
    case Obj(fields) =>
      CanonicalFieldsAre(fields);
      SortSorts(CanonicalFields(fields));
      var sorted := Sort(CanonicalFields(fields));
      forall k | 0 <= k < |sorted| ensures sorted[k].value.Some? && Defined(sorted[k].value.value) {
        assert sorted[k] in sorted;
        var i :| 0 <= i < |fields| && fields[i].value.Some? && sorted[k] == Field(fields[i].key, Some(Canonical(fields[i].value.value)));
        CanonicalIsDefined(fields[i].value.value);
      }
    case _ =>
  }

  /** Canonical form depends on the meaning alone. */
  lemma {:induction false} SameMeaningSameForm(v: Value, w: Value)
    requires WellKeyed(v) && WellKeyed(w) && MeaningOf(v) == MeaningOf(w)
    ensures Canonical(v) == Canonical(w)
    decreases v
  {
    match v
    case Arr(items) =>
      assert |items| == |w.items| by { assert |MeaningOf(v).items| == |MeaningOf(w).items|; }
      forall i | 0 <= i < |items| ensures Canonical(items[i]) == Canonical(w.items[i]) {
        assert MeaningOf(items[i]) == MeaningOf(v).items[i] == MeaningOf(w).items[i] == MeaningOf(w.items[i]);
        SameMeaningSameForm(items[i], w.items[i]);
      }
    case Obj(fields) =>
      forall g ensures g in CanonicalFields(fields) <==> g in CanonicalFields(w.fields) {
        SameFields(v, w, g);
      }
      CanonicalFieldsAre(fields);
      CanonicalFieldsAre(w.fields);
      SortSorts(CanonicalFields(fields));
      SortSorts(CanonicalFields(w.fields));
      SortedFieldsAreUnique(Sort(CanonicalFields(fields)), Sort(CanonicalFields(w.fields)));
    case _ =>
  }

  lemma {:induction false} SameFields(v: Value, w: Value, g: Field)
    requires v.Obj? && w.Obj? && WellKeyed(v) && WellKeyed(w) && MeaningOf(v) == MeaningOf(w)
    ensures g in CanonicalFields(v.fields) <==> g in CanonicalFields(w.fields)
    decreases v, 0
  {
    CanonicalFieldsAre(v.fields);
    CanonicalFieldsAre(w.fields);
    MeaningOfFieldsIs(v.fields);
    MeaningOfFieldsIs(w.fields);
    if g in CanonicalFields(v.fields) {
      var i :| 0 <= i < |v.fields| && v.fields[i].value.Some? && g == Field(v.fields[i].key, Some(Canonical(v.fields[i].value.value)));
      var j :| 0 <= j < |w.fields| && w.fields[j].key == v.fields[i].key && w.fields[j].value.Some?;
      SameMeaningSameForm(v.fields[i].value.value, w.fields[j].value.value);
    }
    if g in CanonicalFields(w.fields) {
      var j :| 0 <= j < |w.fields| && w.fields[j].value.Some? && g == Field(w.fields[j].key, Some(Canonical(w.fields[j].value.value)));
      var i :| 0 <= i < |v.fields| && v.fields[i].key == w.fields[j].key && v.fields[i].value.Some?;
      SameMeaningSameForm(v.fields[i].value.value, w.fields[j].value.value);
    }
  }

  /** Canonical form keeps the meaning. */
  lemma {:induction false} FormKeepsMeaning(v: Value)
    requires WellKeyed(v)
    ensures MeaningOf(Canonical(v)) == MeaningOf(v)
    decreases v
  {
    match v
    case Arr(items) =>
      forall i | 0 <= i < |items| ensures MeaningOf(Canonical(items[i])) == MeaningOf(items[i]) { FormKeepsMeaning(items[i]); }
      assert MeaningOf(Canonical(v)).items == MeaningOf(v).items;
    case Obj(fields) => FieldsKeepMeaning(v);
    case _ =>
  }

  lemma SortedAreDistinct(fs: seq<Field>)
    requires SortedKeys(fs)
    ensures DistinctKeys(fs)
  {
    forall i, j | 0 <= i < j < |fs| ensures fs[i].key != fs[j].key { BeforeIrreflexive(fs[i].key); }
  }

  function Sorted(fs: seq<Field>): seq<Field> {
    Sort(CanonicalFields(fs))
  }

  lemma SortedFieldsAre(fs: seq<Field>)
    requires DistinctKeys(fs)
    ensures DistinctKeys(Sorted(fs))
    ensures forall g :: g in Sorted(fs) <==>
                          exists i | 0 <= i < |fs| :: fs[i].value.Some? && g == Field(fs[i].key, Some(Canonical(fs[i].value.value)))
  {
    CanonicalFieldsAre(fs);
    SortSorts(CanonicalFields(fs));
    SortedAreDistinct(Sorted(fs));
  }

  /** Whatever a sorted field says, a field said. */
  lemma {:induction false} SortedSays(v: Value, j: nat) returns (i: nat)
    requires v.Obj? && WellKeyed(v) && j < |Sorted(v.fields)|
    ensures i < |v.fields| && v.fields[i].value.Some? && Sorted(v.fields)[j].value.Some?
    ensures Sorted(v.fields)[j].key == v.fields[i].key
    ensures MeaningOf(Sorted(v.fields)[j].value.value) == MeaningOf(v.fields[i].value.value)
    decreases v, 0
  {
    var fs, g := v.fields, Sorted(v.fields)[j];
    SortedFieldsAre(fs);
    assert g in Sorted(fs);
    i :| 0 <= i < |fs| && fs[i].value.Some? && g == Field(fs[i].key, Some(Canonical(fs[i].value.value)));
    FormKeepsMeaning(fs[i].value.value);
  }

  lemma SaidIsSorted(fs: seq<Field>, i: nat) returns (j: nat)
    requires DistinctKeys(fs) && i < |fs| && fs[i].value.Some?
    ensures j < |Sorted(fs)| && Sorted(fs)[j].key == fs[i].key && Sorted(fs)[j].value.Some?
  {
    SortedFieldsAre(fs);
    var g := Field(fs[i].key, Some(Canonical(fs[i].value.value)));
    assert g in Sorted(fs);
    j :| 0 <= j < |Sorted(fs)| && Sorted(fs)[j] == g;
  }

  lemma {:induction false} FieldsKeepMeaning(v: Value)
    requires v.Obj? && WellKeyed(v)
    ensures MeaningOf(Canonical(v)) == MeaningOf(v)
    decreases v, 1
  {
    var fs, sorted := v.fields, Sorted(v.fields);
    SortedFieldsAre(fs);
    MeaningOfFieldsIs(fs);
    MeaningOfFieldsIs(sorted);
    var a, b := MeaningOfFields(sorted), MeaningOfFields(fs);
    forall k | k in a ensures k in b && a[k] == b[k] {
      var j :| 0 <= j < |sorted| && sorted[j].key == k && sorted[j].value.Some?;
      var i := SortedSays(v, j);
    }
    forall k | k in b ensures k in a {
      var i :| 0 <= i < |fs| && fs[i].key == k && fs[i].value.Some?;
      var j := SaidIsSorted(fs, i);
    }
    assert a == b;
  }

  // ---- What a reader finds in canonical text ----

  /** One key comes first where they begin to differ, or is the beginning of the other. */
  ghost predicate ComesFirst(a: string, b: string) {
    exists m: nat :: m <= |a| && m < |b| && a[..m] == b[..m] && (m == |a| || a[m] < b[m])
  }

  lemma {:induction false} BeforeComesFirst(a: string, b: string)
    requires Before(a, b)
    ensures ComesFirst(a, b)
    decreases |a|
  {
    if a == "" || a[0] < b[0] {
      assert a[..0] == b[..0];
    } else {
      BeforeComesFirst(a[1..], b[1..]);
      var m: nat :| m <= |a[1..]| && m < |b[1..]| && a[1..][..m] == b[1..][..m] && (m == |a[1..]| || a[1..][m] < b[1..][m]);
      assert a[..m + 1] == [a[0]] + a[1..][..m] && b[..m + 1] == [b[0]] + b[1..][..m];
      assert m + 1 == |a| || a[m + 1] < b[m + 1];
    }
  }

  /** The keys of every object rise, all the way down, and each has a value. */
  ghost predicate Ordered(v: Value) {
    match v
    case Arr(items) => forall i | 0 <= i < |items| :: Ordered(items[i])
    case Obj(fields) =>
      (forall i, j | 0 <= i < j < |fields| :: ComesFirst(fields[i].key, fields[j].key))
      && forall i | 0 <= i < |fields| :: fields[i].value.Some? && Ordered(fields[i].value.value)
    case _ => true
  }

  lemma {:induction false} CanonicalIsOrdered(v: Value)
    requires WellKeyed(v)
    ensures Ordered(Canonical(v))
    decreases v
  {
    match v
    case Arr(items) =>
      forall i | 0 <= i < |items| ensures Ordered(Canonical(items[i])) { CanonicalIsOrdered(items[i]); }
    case Obj(fields) => ObjectIsOrdered(fields);
    case _ =>
  }

  lemma {:induction false} ObjectIsOrdered(fs: seq<Field>)
    requires WellKeyed(Obj(fs))
    ensures Ordered(Canonical(Obj(fs)))
    decreases Obj(fs), 0
  {
    CanonicalFieldsAre(fs);
    SortSorts(CanonicalFields(fs));
    var sorted := Sort(CanonicalFields(fs));
    forall i, j | 0 <= i < j < |sorted| ensures ComesFirst(sorted[i].key, sorted[j].key) {
      BeforeComesFirst(sorted[i].key, sorted[j].key);
    }
    forall k | 0 <= k < |sorted| ensures sorted[k].value.Some? && Ordered(sorted[k].value.value) {
      assert sorted[k] in sorted;
      var i :| 0 <= i < |fs| && fs[i].value.Some? && sorted[k] == Field(fs[i].key, Some(Canonical(fs[i].value.value)));
      CanonicalIsOrdered(fs[i].value.value);
    }
  }

  /** Any reader of the standard finds in the text, without a space in it, a value that says the same, with
      its keys in order. */
  lemma CanonicalJsonReads(v: Value)
    requires WellKeyed(v)
    ensures var r := ReadValue(CanonicalJson(v), true);
            r.Some? && r.value.1 == "" && Parse(CanonicalJson(v)) == Some(r.value.0)
            && MeaningOf(r.value.0) == MeaningOf(v) && Ordered(r.value.0)
  {
    CanonicalIsDefined(v);
    ReadsBack(Canonical(v), "", true);
    assert Print(Canonical(v)) + "" == Print(Canonical(v));
    ParsesBack(Canonical(v));
    FormKeepsMeaning(v);
    CanonicalIsOrdered(v);
  }

  /** Two values have one canonical text exactly when they say the same. */
  lemma CanonicalJsonIsExact(v: Value, w: Value)
    requires WellKeyed(v) && WellKeyed(w)
    ensures CanonicalJson(v) == CanonicalJson(w) <==> MeaningOf(v) == MeaningOf(w)
  {
    if CanonicalJson(v) == CanonicalJson(w) {
      CanonicalIsDefined(v);
      CanonicalIsDefined(w);
      assert Print(Canonical(v)) + "" == Print(Canonical(w)) + "";
      PrintInjective(Canonical(v), Canonical(w), "", "");
      FormKeepsMeaning(v);
      FormKeepsMeaning(w);
    }
    if MeaningOf(v) == MeaningOf(w) { SameMeaningSameForm(v, w); }
  }

  // ---- The signing payload ----

  function WithoutKey(fs: seq<Field>, key: string): seq<Field> {
    if fs == [] then []
    else if fs[0].key == key then WithoutKey(fs[1..], key)
    else [fs[0]] + WithoutKey(fs[1..], key)
  }

  /** `provenanceSigningPayload`: the manifest without its signature. */
  function SigningPayload(manifest: seq<Field>): string {
    CanonicalJson(Obj(WithoutKey(manifest, "signature")))
  }

  lemma {:induction false} WithoutKeyHas(fs: seq<Field>, key: string)
    requires DistinctKeys(fs)
    ensures DistinctKeys(WithoutKey(fs, key)) && forall f :: f in WithoutKey(fs, key) <==> f in fs && f.key != key
    decreases |fs|
  {
    if fs != [] {
      WithoutKeyHas(fs[1..], key);
      assert fs == [fs[0]] + fs[1..];
      var rest := WithoutKey(fs[1..], key);
      forall i | 0 <= i < |rest| ensures rest[i].key != fs[0].key {
        assert rest[i] in rest;
        var j :| 0 < j < |fs| && fs[j] == rest[i];
      }
    }
  }

  lemma {:induction false} WithoutKeyMeans(fs: seq<Field>, key: string)
    requires DistinctKeys(fs)
    ensures MeaningOfFields(WithoutKey(fs, key)) == MeaningOfFields(fs) - {key}
    decreases |fs|
  {
    if fs != [] {
      WithoutKeyMeans(fs[1..], key);
      KeyElsewhere(fs);
      var rest := MeaningOfFields(fs[1..]);
      if fs[0].key == key {
        assert rest - {key} == rest;
        assert MeaningOfFields(fs) - {key} == rest - {key};
      } else if fs[0].value.Some? {
        var m := MeaningOf(fs[0].value.value);
        assert WithoutKey(fs, key)[1..] == WithoutKey(fs[1..], key);
        assert rest[fs[0].key := m] - {key} == (rest - {key})[fs[0].key := m];
      } else {
        assert WithoutKey(fs, key)[1..] == WithoutKey(fs[1..], key);
      }
    }
  }

  lemma KeyElsewhere(fs: seq<Field>)
    requires DistinctKeys(fs) && fs != []
    ensures fs[0].key !in MeaningOfFields(fs[1..])
  {
    MeaningOfFieldsIs(fs[1..]);
    assert forall i | 0 <= i < |fs[1..]| :: fs[1..][i] == fs[i + 1];
  }

  /** Equal payloads: the same manifest, but for its signature, the order of keys and undefined fields. */
  lemma PayloadIsExact(a: seq<Field>, b: seq<Field>)
    requires WellKeyed(Obj(a)) && WellKeyed(Obj(b))
    ensures SigningPayload(a) == SigningPayload(b)
            <==> MeaningOfFields(a) - {"signature"} == MeaningOfFields(b) - {"signature"}
  {
    WithoutKeyMeans(a, "signature");
    WithoutKeyMeans(b, "signature");
    StillWellKeyed(a, "signature");
    StillWellKeyed(b, "signature");
    CanonicalJsonIsExact(Obj(WithoutKey(a, "signature")), Obj(WithoutKey(b, "signature")));
  }

  lemma StillWellKeyed(fs: seq<Field>, key: string)
    requires WellKeyed(Obj(fs))
    ensures WellKeyed(Obj(WithoutKey(fs, key)))
  {
    WithoutKeyHas(fs, key);
    var rest := WithoutKey(fs, key);
    forall i | 0 <= i < |rest| ensures rest[i].value.Some? ==> WellKeyed(rest[i].value.value) {
      assert rest[i] in rest;
      var j :| 0 <= j < |fs| && fs[j] == rest[i];
    }
  }
}
