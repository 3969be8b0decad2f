/**
 JSON text: what `JSON.stringify` writes for a value, and a reader of the grammar of RFC 8259. The reader
 knows nothing of the writer, so that what is written is read back by any reader of the standard.
 Numbers are integers.
 */
module Json {
  import opened Common

  datatype Value =
    | Null
    | Bool(b: bool)
    | Num(n: int)
    | Str(s: string)
    | Arr(items: seq<Value>)
    | Obj(fields: seq<Field>)

  /** `None` is a property that is there with the value undefined. */
  datatype Field = Field(key: string, value: Option<Value>)

  // ---- The text ----

  function Digit(d: nat): char
    requires d < 10
  {
    ('0' as int + d) as char
  }

  function Decimal(n: nat): string {
    if n < 10 then [Digit(n)] else Decimal(n / 10) + [Digit(n % 10)]
  }

  function Number(n: int): string {
    if n < 0 then "-" + Decimal(-n) else Decimal(n)
  }

  function HexDigit(d: nat): char
    requires d < 16
  {
    if d < 10 then ('0' as int + d) as char else ('a' as int + d - 10) as char
  }

  function EncodeChar(c: char): string {
    if c == '"' then "\\\"" else if c == '\\' then "\\\\"
    else if c == '\U{0008}' then "\\b" else if c == '\t' then "\\t" else if c == '\n' then "\\n"
    else if c == '\U{000c}' then "\\f" else if c == '\r' then "\\r"
    else if c < ' ' then "\\u00" + [HexDigit(c as int / 16), HexDigit(c as int % 16)]
    else [c]
  }

  function EncodeChars(s: string): string {
    if s == "" then "" else EncodeChar(s[0]) + EncodeChars(s[1..])
  }

  function EncodeString(s: string): string {
    "\"" + EncodeChars(s) + "\""
  }

  function Print(v: Value): string
    decreases v, 0
  {
    match v
    case Null => "null"
    case Bool(b) => if b then "true" else "false"
    case Num(n) => Number(n)
    case Str(s) => EncodeString(s)
    case Arr(items) => "[" + PrintItems(items) + "]"
    case Obj(fields) => "{" + PrintFields(fields) + "}"
  }

  function PrintItems(items: seq<Value>): string
    decreases items, 0
  {
    if items == [] then ""
    else Print(items[0]) + if |items| == 1 then "" else "," + PrintItems(items[1..])
  }

  function PrintField(f: Field): string
    decreases f, 0
  {
    EncodeString(f.key) + ":" + if f.value.Some? then Print(f.value.value) else ""
  }

  function PrintFields(fs: seq<Field>): string
    decreases fs, 1
  {
    if fs == [] then ""
    else PrintField(fs[0]) + if |fs| == 1 then "" else "," + PrintFields(fs[1..])
  }

  // ---- Reading (RFC 8259) ----

  /** Insignificant whitespace, section 2. */
  predicate IsSpace(c: char) {
    c == ' ' || c == '\t' || c == '\n' || c == '\r'
  }

  /** A compact reader takes no insignificant whitespace. */
  function SkipSpace(s: string, compact: bool): (r: string)
    ensures |r| <= |s|
  {
    if !compact && s != "" && IsSpace(s[0]) then SkipSpace(s[1..], compact) else s
  }

  predicate IsDigit(c: char) {
    '0' <= c <= '9'
  }

  function LeadingDigits(s: string): (n: nat)
    ensures n <= |s| && AllDigits(s[..n]) && (n < |s| ==> !IsDigit(s[n]))
  {
    if s != "" && IsDigit(s[0]) then 1 + LeadingDigits(s[1..]) else 0
  }

  predicate AllDigits(s: string) {
    forall i | 0 <= i < |s| :: IsDigit(s[i])
  }

  function DigitsValue(ds: string): nat
    requires AllDigits(ds)
  {
    if ds == "" then 0 else 10 * DigitsValue(ds[..|ds| - 1]) + (ds[|ds| - 1] as int - '0' as int)
  }

  /** Section 6: zero, or digits of which the first is not zero. */
  function ReadNatural(s: string): (r: Option<(nat, string)>)
    ensures r.Some? ==> |r.value.1| < |s|
  {
    if s == "" || !IsDigit(s[0]) then None
    else if s[0] == '0' then Some((0, s[1..]))
    else Some((DigitsValue(s[..LeadingDigits(s)]), s[LeadingDigits(s)..]))
  }

  function ReadNumber(s: string): (r: Option<(int, string)>)
    ensures r.Some? ==> |r.value.1| < |s|
  {
    if s != "" && s[0] == '-' then
      var n := ReadNatural(s[1..]);
      if n.Some? then Some((0 - n.value.0, n.value.1)) else None
    else ReadNatural(s)
  }

  function HexValue(c: char): Option<nat> {
    if '0' <= c <= '9' then Some(c as int - '0' as int)
    else if 'a' <= c <= 'f' then Some(10 + (c as int - 'a' as int))
    else if 'A' <= c <= 'F' then Some(10 + (c as int - 'A' as int))
    else None
  }

  function ReadHex4(s: string): (r: Option<nat>)
    ensures r.Some? ==> |s| >= 4 && r.value < 0x10000
  {
    if |s| < 4 || HexValue(s[0]).None? || HexValue(s[1]).None? || HexValue(s[2]).None? || HexValue(s[3]).None? then None
    else Some(((HexValue(s[0]).value * 16 + HexValue(s[1]).value) * 16 + HexValue(s[2]).value) * 16 + HexValue(s[3]).value)
  }

  /** What follows `\\u`: one code unit, or the two of a surrogate pair. */
  function ReadUnicode(s: string): (r: Option<(char, string)>)
    ensures r.Some? ==> |r.value.1| < |s|
  {
    var a := ReadHex4(s);
    if a.None? then None
    else if a.value < 0xD800 || 0xE000 <= a.value then Some((a.value as char, s[4..]))
    else if 0xDC00 <= a.value || |s| < 10 || s[4] != '\\' || s[5] != 'u' then None
    else
      var b := ReadHex4(s[6..]);
      if b.None? || b.value < 0xDC00 || 0xE000 <= b.value then None
      else Some(((0x10000 + (a.value - 0xD800) * 0x400 + (b.value - 0xDC00)) as char, s[10..]))
  }

  /** The escapes of section 7. */
  function ReadEscape(s: string): (r: Option<(char, string)>)
    ensures r.Some? ==> |r.value.1| < |s|
  {
    if s == "" then None
    else if s[0] == '"' then Some(('"', s[1..]))
    else if s[0] == '\\' then Some(('\\', s[1..]))
    else if s[0] == '/' then Some(('/', s[1..]))
    else if s[0] == 'b' then Some((0x8 as char, s[1..]))
    else if s[0] == 'f' then Some((0xC as char, s[1..]))
    else if s[0] == 'n' then Some((0xA as char, s[1..]))
    else if s[0] == 'r' then Some((0xD as char, s[1..]))
    else if s[0] == 't' then Some((0x9 as char, s[1..]))
    else if s[0] == 'u' then ReadUnicode(s[1..])
    else None
  }

  /** One character of a string: escaped, or itself if it is no control character. */
  function ReadChar(s: string): (r: Option<(char, string)>)
    ensures r.Some? ==> |r.value.1| < |s|
  {
    if s == "" || s[0] as int < 0x20 || s[0] == '"' then None
    else if s[0] == '\\' then ReadEscape(s[1..])
    else Some((s[0], s[1..]))
  }

  /** The rest of a string, up to its closing quotation mark. */
  function ReadChars(s: string): (r: Option<(string, string)>)
    ensures r.Some? ==> |r.value.1| < |s|
    decreases |s|
  {
    if s != "" && s[0] == '"' then Some(("", s[1..]))
    else
      var c := ReadChar(s);
      if c.None? then None
      else
        var rest := ReadChars(c.value.1);
        if rest.None? then None else Some(([c.value.0] + rest.value.0, rest.value.1))
  }

  function ReadString(s: string): (r: Option<(string, string)>)
    ensures r.Some? ==> |r.value.1| < |s|
  {
    if s != "" && s[0] == '"' then ReadChars(s[1..]) else None
  }

  function ReadWord(s: string, word: string, v: Value): (r: Option<(Value, string)>)
    requires word != ""
    ensures r.Some? ==> |r.value.1| < |s|
  {
    if word <= s then Some((v, s[|word|..])) else None
  }

  /** Section 3. */
  function ReadValue(s: string, compact: bool): (r: Option<(Value, string)>)
    ensures r.Some? ==> |r.value.1| < |s|
    decreases |s|, 0
  {
    var t := SkipSpace(s, compact);
    if t == "" then None
    else if t[0] == 'n' then ReadWord(t, "null", Null)
    else if t[0] == 't' then ReadWord(t, "true", Bool(true))
    else if t[0] == 'f' then ReadWord(t, "false", Bool(false))
    else if t[0] == '"' then
      var r := ReadString(t);
      if r.Some? then Some((Str(r.value.0), r.value.1)) else None
    else if t[0] == '[' then
      var r := ReadArray(t[1..], compact);
      if r.Some? then Some((Arr(r.value.0), r.value.1)) else None
    else if t[0] == '{' then
      var r := ReadObject(t[1..], compact);
      if r.Some? then Some((Obj(r.value.0), r.value.1)) else None
    else
      var r := ReadNumber(t);
      if r.Some? then Some((Num(r.value.0), r.value.1)) else None
  }

  /** Section 5, after the opening bracket. */
  function ReadArray(s: string, compact: bool): (r: Option<(seq<Value>, string)>)
    ensures r.Some? ==> |r.value.1| < |s|
    decreases |s|, 2
  {
    var t := SkipSpace(s, compact);
    if t != "" && t[0] == ']' then Some(([], t[1..])) else ReadItems(s, compact)
  }

  /** One value or more, up to the closing bracket. */
  function ReadItems(s: string, compact: bool): (r: Option<(seq<Value>, string)>)
    ensures r.Some? ==> |r.value.1| < |s|
    decreases |s|, 1
  {
    var v := ReadValue(s, compact);
    if v.None? then None
    else
      var t := SkipSpace(v.value.1, compact);
      if t == "" then None
      else if t[0] == ']' then Some(([v.value.0], t[1..]))
      else if t[0] != ',' then None
      else
        var more := ReadItems(t[1..], compact);
        if more.None? then None else Some(([v.value.0] + more.value.0, more.value.1))
  }

  /** Section 4, after the opening brace. */
  function ReadObject(s: string, compact: bool): (r: Option<(seq<Field>, string)>)
    ensures r.Some? ==> |r.value.1| < |s|
    decreases |s|, 3
  {
    var t := SkipSpace(s, compact);
    if t != "" && t[0] == '}' then Some(([], t[1..])) else ReadFields(s, compact)
  }

  /** A name, a colon and a value. */
  function ReadField(s: string, compact: bool): (r: Option<(Field, string)>)
    ensures r.Some? ==> |r.value.1| < |s|
    decreases |s|, 1
  {
    var k := ReadString(SkipSpace(s, compact));
    if k.None? then None
    else
      var t := SkipSpace(k.value.1, compact);
      if t == "" || t[0] != ':' then None
      else
        var v := ReadValue(t[1..], compact);
        if v.None? then None else Some((Field(k.value.0, Some(v.value.0)), v.value.1))
  }

  function ReadFields(s: string, compact: bool): (r: Option<(seq<Field>, string)>)
    ensures r.Some? ==> |r.value.1| < |s|
    decreases |s|, 2
  {
    var f := ReadField(s, compact);
    if f.None? then None
    else
      var t := SkipSpace(f.value.1, compact);
      if t == "" then None
      else if t[0] == '}' then Some(([f.value.0], t[1..]))
      else if t[0] != ',' then None
      else
        var more := ReadFields(t[1..], compact);
        if more.None? then None else Some(([f.value.0] + more.value.0, more.value.1))
  }

  /** `JSON.parse`: one value with nothing but whitespace around it. */
  function Parse(s: string): Option<Value> {
    var r := ReadValue(s, false);
    if r.Some? && SkipSpace(r.value.1, false) == "" then Some(r.value.0) else None
  }

  // ---- What is written is read back ----

  lemma Assoc(a: string, b: string, c: string)
    ensures (a + b) + c == a + (b + c)
  {
  }

  /** What may follow a number: nothing, or anything that cannot go on with it. */
  predicate Stops(x: string) {
    x == "" || !IsDigit(x[0])
  }

  lemma {:induction false} DecimalIsDigits(n: nat)
    ensures AllDigits(Decimal(n)) && Decimal(n) != "" && DigitsValue(Decimal(n)) == n
    ensures n > 0 ==> Decimal(n)[0] != '0'
    ensures n < 10 ==> |Decimal(n)| == 1
  {
    if n >= 10 {
      DecimalIsDigits(n / 10);
      assert Decimal(n)[..|Decimal(n)| - 1] == Decimal(n / 10);
    } else {
      assert Decimal(n)[..0] == "";
    }
  }

  lemma {:induction false} DigitsLead(a: string, x: string)
    requires AllDigits(a) && Stops(x)
    ensures LeadingDigits(a + x) == |a|
    decreases |a|
  {
    if a == "" {
      assert a + x == x;
    } else {
      assert (a + x)[1..] == a[1..] + x;
      DigitsLead(a[1..], x);
    }
  }

  lemma NaturalReads(n: nat, x: string)
    requires Stops(x)
    ensures ReadNatural(Decimal(n) + x) == Some((n, x))
  {
    DecimalIsDigits(n);
    var d := Decimal(n);
    assert (d + x)[0] == d[0];
    DigitsLead(d, x);
    assert (d + x)[..|d|] == d && (d + x)[|d|..] == x;
    if n == 0 { assert (d + x)[1..] == x; }
  }

  lemma NegativeReads(n: nat, x: string)
    requires Stops(x)
    ensures ReadNumber("-" + Decimal(n) + x) == Some((0 - n, x))
  {
    assert ("-" + Decimal(n) + x)[1..] == Decimal(n) + x;
    NaturalReads(n, x);
  }

  lemma NumberReads(n: int, x: string)
    requires Stops(x)
    ensures ReadNumber(Number(n) + x) == Some((n, x))
  {
    if n < 0 {
      NegativeReads(-n, x);
    } else {
      DecimalIsDigits(n);
      assert (Number(n) + x)[0] == Decimal(n)[0];
      NaturalReads(n, x);
    }
  }

  lemma NumberHead(n: int, x: string)
    ensures var s := Number(n) + x; s != "" && (s[0] == '-' <==> n < 0) && (IsDigit(s[0]) <==> n >= 0)
  {
    DecimalIsDigits(if n < 0 then -n else n);
  }

  // ---- Strings ----

  lemma HexReads(d: nat)
    requires d < 16
    ensures HexValue(HexDigit(d)) == Some(d)
  {
  }

  /** A control character without a short form. */
  predicate Control(c: char) {
    c < ' ' && c != '\U{0008}' && c != '\t' && c != '\n' && c != '\U{000c}' && c != '\r'
  }

  lemma ControlReads(c: char, x: string)
    requires Control(c)
    ensures ReadChar(EncodeChar(c) + x) == Some((c, x))
  {
    var s := EncodeChar(c) + x;
    HexReads(c as int / 16);
    HexReads(c as int % 16);
    var t := s[1..];
    assert t[0] == 'u' && t[1..][0] == '0' && t[1..][1] == '0';
    assert t[1..][2] == HexDigit(c as int / 16) && t[1..][3] == HexDigit(c as int % 16);
    assert t[1..][4..] == x;
  }

  lemma PlainReads(c: char, x: string)
    requires !Control(c)
    ensures ReadChar(EncodeChar(c) + x) == Some((c, x))
  {
    var s := EncodeChar(c) + x;
    if s[0] == '\\' { assert s[1..][1..] == x; } else { assert s[1..] == x; }
  }

  lemma CharReads(c: char, x: string)
    ensures ReadChar(EncodeChar(c) + x) == Some((c, x)) && (EncodeChar(c) + x)[0] != '"'
  {
    if Control(c) { ControlReads(c, x); } else { PlainReads(c, x); }
  }

  lemma EncodedStep(a: string, z: string)
    requires a != ""
    ensures EncodeChars(a) + z == EncodeChar(a[0]) + (EncodeChars(a[1..]) + z)
  {
    Assoc(EncodeChar(a[0]), EncodeChars(a[1..]), z);
  }

  lemma {:induction false} CharsRead(a: string, x: string)
    ensures ReadChars(EncodeChars(a) + ("\"" + x)) == Some((a, x))
    decreases |a|
  {
    if a == "" {
      assert "" + ("\"" + x) == "\"" + x && ("\"" + x)[1..] == x;
    } else {
      EncodedStep(a, "\"" + x);
      CharReads(a[0], EncodeChars(a[1..]) + ("\"" + x));
      CharsRead(a[1..], x);
      assert [a[0]] + a[1..] == a;
    }
  }

  lemma StringReads(a: string, x: string)
    ensures ReadString(EncodeString(a) + x) == Some((a, x)) && (EncodeString(a) + x)[0] == '"'
  {
    var s := EncodeChars(a) + ("\"" + x);
    Assoc("\"", EncodeChars(a) + "\"", x);
    Assoc(EncodeChars(a), "\"", x);
    assert EncodeString(a) + x == "\"" + s;
    assert ("\"" + s)[1..] == s;
    CharsRead(a, x);
  }

  // ---- Values ----

  /** Every field has a value. */
  predicate Defined(v: Value) {
    match v
    case Arr(items) => forall i | 0 <= i < |items| :: Defined(items[i])
    case Obj(fields) => forall i | 0 <= i < |fields| :: fields[i].value.Some? && Defined(fields[i].value.value)
    case _ => true
  }

  predicate AllDefined(fs: seq<Field>) {
    forall i | 0 <= i < |fs| :: fs[i].value.Some? && Defined(fs[i].value.value)
  }

  predicate DistinctKeys(fs: seq<Field>) {
    forall i, j | 0 <= i < j < |fs| :: fs[i].key != fs[j].key
  }

  /** What the first character of a value's text is. */
  lemma PrintHead(v: Value, x: string)
    ensures var s := Print(v) + x;
            s != "" && !IsSpace(s[0]) && s[0] != ']' && s[0] != '}' && s[0] != ','
            && (s[0] == '"' <==> v.Str?) && (s[0] == '[' <==> v.Arr?) && (s[0] == '{' <==> v.Obj?)
            && (s[0] == '-' || IsDigit(s[0]) <==> v.Num?)
  {
    if v.Num? { NumberHead(v.n, x); }
  }

  lemma FixedWord(word: string, x: string, y: string)
    ensures word + x == word + y ==> x == y
  {
    assert (word + x)[|word|..] == x && (word + y)[|word|..] == y;
  }

  lemma Enclosed(open: string, inner: string, close: string, x: string)
    requires |open| == 1
    ensures ((open + inner + close) + x)[1..] == inner + (close + x)
  {
    Assoc(open, inner, close);
    Assoc(open, inner + close, x);
    Assoc(inner, close, x);
    assert (open + (inner + (close + x)))[1..] == inner + (close + x);
  }

  lemma WordReads(word: string, v: Value, x: string)
    requires word != ""
    ensures ReadWord(word + x, word, v) == Some((v, x))
  {
    assert (word + x)[..|word|] == word && (word + x)[|word|..] == x;
  }

  lemma ScalarReads(v: Value, x: string, compact: bool)
    requires !v.Arr? && !v.Obj? && (v.Num? ==> Stops(x))
    ensures ReadValue(Print(v) + x, compact) == Some((v, x))
  {
    PrintHead(v, x);
    match v
    case Null => WordReads("null", v, x);
    case Bool(b) => WordReads(if b then "true" else "false", v, x);
    case Num(n) =>
      NumberHead(n, x);
      NumberReads(n, x);
    case Str(a) => StringReads(a, x);
  }

  /** What stands after the first of several items. */
  function AfterItem(items: seq<Value>, z: string): string
    requires items != []
  {
    if |items| == 1 then z else "," + (PrintItems(items[1..]) + z)
  }

  lemma ItemsStep(vs: seq<Value>, z: string)
    requires vs != []
    ensures PrintItems(vs) + z == Print(vs[0]) + AfterItem(vs, z)
  {
    if |vs| == 1 {
      assert PrintItems(vs) == Print(vs[0]) + "" == Print(vs[0]);
    } else {
      Assoc(Print(vs[0]), "," + PrintItems(vs[1..]), z);
      Assoc(",", PrintItems(vs[1..]), z);
    }
  }

  function AfterField(fs: seq<Field>, z: string): string
    requires fs != []
  {
    if |fs| == 1 then z else "," + (PrintFields(fs[1..]) + z)
  }

  lemma FieldsStep(fs: seq<Field>, z: string)
    requires fs != [] && fs[0].value.Some?
    ensures PrintFields(fs) + z == EncodeString(fs[0].key) + (":" + (Print(fs[0].value.value) + AfterField(fs, z)))
  {
    var k, v := EncodeString(fs[0].key), Print(fs[0].value.value);
    var rest := if |fs| == 1 then "" else "," + PrintFields(fs[1..]);
    assert rest + z == AfterField(fs, z) by { if |fs| > 1 { Assoc(",", PrintFields(fs[1..]), z); } }
    assert PrintFields(fs) == ((k + ":") + v) + rest;
    Assoc((k + ":") + v, rest, z);
    Assoc(k + ":", v, rest + z);
    Assoc(k, ":", v + (rest + z));
  }

  lemma ArrayReads(items: seq<Value>, x: string, compact: bool)
    requires var s := PrintItems(items) + ("]" + x);
             items != [] ==> s[0] != ']' && !IsSpace(s[0]) && ReadItems(s, compact) == Some((items, x))
    ensures ReadValue(Print(Arr(items)) + x, compact) == Some((Arr(items), x))
  {
    PrintHead(Arr(items), x);
    Enclosed("[", PrintItems(items), "]", x);
    if items == [] { assert PrintItems(items) + ("]" + x) == "]" + x && ("]" + x)[1..] == x; }
  }

  lemma ObjectReads(fields: seq<Field>, x: string, compact: bool)
    requires var s := PrintFields(fields) + ("}" + x);
             fields != [] ==> s[0] == '"' && ReadFields(s, compact) == Some((fields, x))
    ensures ReadValue(Print(Obj(fields)) + x, compact) == Some((Obj(fields), x))
  {
    PrintHead(Obj(fields), x);
    Enclosed("{", PrintFields(fields), "}", x);
    if fields == [] { assert PrintFields(fields) + ("}" + x) == "}" + x && ("}" + x)[1..] == x; }
  }

  /** Reading back, with or without room for whitespace: what is written has none. */
  lemma {:induction false} ReadsBack(v: Value, x: string, compact: bool)
    requires Defined(v) && (v.Num? ==> Stops(x))
    ensures ReadValue(Print(v) + x, compact) == Some((v, x))
    decreases v, 0
  {
    match v
    case Arr(items) =>
      if items != [] { ItemsReadBack(items, x, compact); }
      ArrayReads(items, x, compact);
    case Obj(fields) =>
      if fields != [] {
        FieldsFirst(fields, "}" + x);
        FieldsReadBack(fields, x, compact);
      }
      ObjectReads(fields, x, compact);
    case _ => ScalarReads(v, x, compact);
  }

  lemma {:induction false} ItemsReadBack(vs: seq<Value>, x: string, compact: bool)
    requires vs != [] && forall i | 0 <= i < |vs| :: Defined(vs[i])
    ensures ReadItems(PrintItems(vs) + ("]" + x), compact) == Some((vs, x))
    ensures var s := PrintItems(vs) + ("]" + x); s != "" && !IsSpace(s[0]) && s[0] != ']'
    decreases vs, 0
  {
    var z := "]" + x;
    ItemsStep(vs, z);
    PrintHead(vs[0], AfterItem(vs, z));
    ReadsBack(vs[0], AfterItem(vs, z), compact);
    if |vs| > 1 {
      ItemsReadBack(vs[1..], x, compact);
      assert ("," + (PrintItems(vs[1..]) + z))[1..] == PrintItems(vs[1..]) + z;
      assert vs == [vs[0]] + vs[1..];
    } else {
      assert z[1..] == x && vs == [vs[0]];
    }
  }

  lemma {:induction false} FieldReadsBack(f: Field, x: string, compact: bool)
    requires f.value.Some? && Defined(f.value.value) && Stops(x)
    ensures ReadField(EncodeString(f.key) + (":" + (Print(f.value.value) + x)), compact) == Some((f, x))
    decreases f, 0
  {
    var after := ":" + (Print(f.value.value) + x);
    StringReads(f.key, after);
    assert after[1..] == Print(f.value.value) + x;
    ReadsBack(f.value.value, x, compact);
  }

  lemma FieldsFirst(fs: seq<Field>, z: string)
    requires fs != [] && fs[0].value.Some?
    ensures PrintFields(fs) + z != "" && (PrintFields(fs) + z)[0] == '"'
  {
    FieldsStep(fs, z);
    StringReads(fs[0].key, ":" + (Print(fs[0].value.value) + AfterField(fs, z)));
  }

  lemma LastField(s: string, f: Field, x: string, compact: bool)
    requires ReadField(s, compact) == Some((f, "}" + x))
    ensures ReadFields(s, compact) == Some(([f], x))
  {
    assert ("}" + x)[1..] == x;
  }

  lemma OneMoreField(s: string, f: Field, more: seq<Field>, rest: string, x: string, compact: bool)
    requires ReadField(s, compact) == Some((f, "," + rest)) && ReadFields(rest, compact) == Some((more, x))
    ensures ReadFields(s, compact) == Some(([f] + more, x))
  {
    assert ("," + rest)[1..] == rest;
  }

  lemma {:induction false} FirstFieldReads(fs: seq<Field>, z: string, compact: bool)
    requires fs != [] && AllDefined(fs) && z != "" && Stops(z)
    ensures ReadField(PrintFields(fs) + z, compact) == Some((fs[0], AfterField(fs, z)))
    decreases fs, 0
  {
    FieldsStep(fs, z);
    FieldReadsBack(fs[0], AfterField(fs, z), compact);
  }

  lemma MoreFields(fs: seq<Field>, z: string)
    requires |fs| > 1
    ensures AfterField(fs, z) == "," + (PrintFields(fs[1..]) + z) && fs == [fs[0]] + fs[1..]
  {
  }

  lemma {:induction false} FieldsReadBack(fs: seq<Field>, x: string, compact: bool)
    requires fs != [] && AllDefined(fs)
    ensures ReadFields(PrintFields(fs) + ("}" + x), compact) == Some((fs, x))
    decreases fs, 1
  {
    var z := "}" + x;
    FirstFieldReads(fs, z, compact);
    if |fs| > 1 {
      MoreFields(fs, z);
      FieldsReadBack(fs[1..], x, compact);
      OneMoreField(PrintFields(fs) + z, fs[0], fs[1..], PrintFields(fs[1..]) + z, x, compact);
    } else {
      LastField(PrintFields(fs) + z, fs[0], x, compact);
      assert fs == [fs[0]];
    }
  }

  lemma ParsesBack(v: Value)
    requires Defined(v)
    ensures Parse(Print(v)) == Some(v)
  {
    ReadsBack(v, "", false);
    assert Print(v) + "" == Print(v);
  }

  /** Text determines the value and where it ends, provided that a number is properly followed. */
  lemma PrintInjective(v: Value, w: Value, x: string, y: string)
    requires Defined(v) && Defined(w) && Print(v) + x == Print(w) + y
    requires v.Num? && w.Num? ==> Stops(x) && Stops(y)
    ensures v == w && x == y
  {
    PrintHead(v, x);
    PrintHead(w, y);
    ReadsBack(v, x, true);
    ReadsBack(w, y, true);
  }

  // ---- A text that can be read is not the beginning of a longer one ----

  ghost predicate Suffix(t: string, s: string) {
    |t| <= |s| && s[|s| - |t|..] == t
  }

  lemma {:induction false} SkipExtends(s: string, x: string, compact: bool)
    requires SkipSpace(s, compact) != ""
    ensures SkipSpace(s + x, compact) == SkipSpace(s, compact) + x
    decreases |s|
  {
    assert (s + x)[0] == s[0];
    if !compact && IsSpace(s[0]) {
      assert (s + x)[1..] == s[1..] + x;
      SkipExtends(s[1..], x, compact);
    }
  }

  lemma Tail(s: string, x: string, n: nat)
    requires n <= |s|
    ensures (s + x)[n..] == s[n..] + x && (s + x)[..n] == s[..n]
    ensures forall i | 0 <= i < n :: (s + x)[i] == s[i]
  {
  }

  lemma {:induction false} DigitsExtend(s: string, x: string)
    requires LeadingDigits(s) < |s|
    ensures LeadingDigits(s + x) == LeadingDigits(s)
    decreases |s|
  {
    assert (s + x)[0] == s[0];
    if IsDigit(s[0]) {
      assert (s + x)[1..] == s[1..] + x;
      DigitsExtend(s[1..], x);
    }
  }

  lemma NaturalExtends(s: string, x: string)
    requires ReadNatural(s).Some? && ReadNatural(s).value.1 != ""
    ensures ReadNatural(s + x) == Some((ReadNatural(s).value.0, ReadNatural(s).value.1 + x))
  {
    Tail(s, x, 1);
    if s[0] != '0' {
      DigitsExtend(s, x);
      Tail(s, x, LeadingDigits(s));
    }
  }

  lemma NumberExtends(s: string, x: string)
    requires ReadNumber(s).Some? && ReadNumber(s).value.1 != ""
    ensures ReadNumber(s + x) == Some((ReadNumber(s).value.0, ReadNumber(s).value.1 + x))
  {
    Tail(s, x, 1);
    NaturalExtends(if s[0] == '-' then s[1..] else s, x);
  }

  lemma Hex4Extends(s: string, x: string)
    requires ReadHex4(s).Some?
    ensures ReadHex4(s + x) == ReadHex4(s)
  {
    Tail(s, x, 4);
  }

  lemma UnicodeExtends(s: string, x: string)
    requires ReadUnicode(s).Some?
    ensures ReadUnicode(s + x) == Some((ReadUnicode(s).value.0, ReadUnicode(s).value.1 + x))
  {
    Hex4Extends(s, x);
    var a := ReadHex4(s).value;
    Tail(s, x, 4);
    if 0xD800 <= a < 0xE000 {
      Tail(s, x, 6);
      Tail(s, x, 10);
      Hex4Extends(s[6..], x);
    }
  }

  lemma EscapeExtends(s: string, x: string)
    requires ReadEscape(s).Some?
    ensures ReadEscape(s + x) == Some((ReadEscape(s).value.0, ReadEscape(s).value.1 + x))
  {
    Tail(s, x, 1);
    if s[0] == 'u' { UnicodeExtends(s[1..], x); }
  }

  lemma CharExtends(s: string, x: string)
    requires ReadChar(s).Some?
    ensures ReadChar(s + x) == Some((ReadChar(s).value.0, ReadChar(s).value.1 + x))
  {
    Tail(s, x, 1);
    if s[0] == '\\' { EscapeExtends(s[1..], x); }
  }

  lemma {:induction false} CharsExtend(s: string, x: string)
    requires ReadChars(s).Some?
    ensures ReadChars(s + x) == Some((ReadChars(s).value.0, ReadChars(s).value.1 + x))
    decreases |s|
  {
    if s != "" && s[0] == '"' {
      Tail(s, x, 1);
    } else {
      var c := ReadChar(s).value;
      CharExtends(s, x);
      Tail(s, x, 1);
      CharsExtend(c.1, x);
    }
  }

  lemma StringExtends(s: string, x: string)
    requires ReadString(s).Some?
    ensures ReadString(s + x) == Some((ReadString(s).value.0, ReadString(s).value.1 + x))
  {
    Tail(s, x, 1);
    CharsExtend(s[1..], x);
  }

  lemma WordExtends(s: string, word: string, v: Value, x: string)
    requires word != "" && ReadWord(s, word, v).Some?
    ensures ReadWord(s + x, word, v) == Some((v, ReadWord(s, word, v).value.1 + x))
  {
    Tail(s, x, |word|);
  }

  /** What was read of a text is read of every longer one; only a number at the very end could go on. */
  ghost predicate Extends<T>(a: Option<(T, string)>, b: Option<(T, string)>, x: string) {
    a.Some? ==> b == Some((a.value.0, a.value.1 + x))
  }

  lemma {:induction false} ValueExtends(s: string, x: string, compact: bool)
    requires var r := ReadValue(s, compact); r.Some? && (r.value.0.Num? ==> r.value.1 != "")
    ensures Extends(ReadValue(s, compact), ReadValue(s + x, compact), x)
    decreases |s|, 1
  {
    var t := SkipSpace(s, compact);
    SkipExtends(s, x, compact);
    Tail(t, x, 1);
    if t[0] == '[' { ArrayExtends(t[1..], x, compact); }
    else if t[0] == '{' { ObjectExtends(t[1..], x, compact); }
    else { ScalarExtends(t, x); }
  }

  lemma ScalarExtends(t: string, x: string)
    requires t != ""
    ensures t[0] == 'n' ==> Extends(ReadWord(t, "null", Null), ReadWord(t + x, "null", Null), x)
    ensures t[0] == 't' ==> Extends(ReadWord(t, "true", Bool(true)), ReadWord(t + x, "true", Bool(true)), x)
    ensures t[0] == 'f' ==> Extends(ReadWord(t, "false", Bool(false)), ReadWord(t + x, "false", Bool(false)), x)
    ensures Extends(ReadString(t), ReadString(t + x), x)
    ensures ReadNumber(t).Some? && ReadNumber(t).value.1 != "" ==> Extends(ReadNumber(t), ReadNumber(t + x), x)
  {
    if ReadWord(t, "null", Null).Some? { WordExtends(t, "null", Null, x); }
    if ReadWord(t, "true", Bool(true)).Some? { WordExtends(t, "true", Bool(true), x); }
    if ReadWord(t, "false", Bool(false)).Some? { WordExtends(t, "false", Bool(false), x); }
    if ReadString(t).Some? { StringExtends(t, x); }
    if ReadNumber(t).Some? && ReadNumber(t).value.1 != "" { NumberExtends(t, x); }
  }

  lemma {:induction false} ArrayExtends(s: string, x: string, compact: bool)
    requires ReadArray(s, compact).Some?
    ensures Extends(ReadArray(s, compact), ReadArray(s + x, compact), x)
    decreases |s|, 3
  {
    var t := SkipSpace(s, compact);
    if t == "" { EmptyReadsNothing(s, compact); }
    SkipExtends(s, x, compact);
    Tail(t, x, 1);
    if t[0] != ']' { ItemsExtend(s, x, compact); }
  }

  lemma {:induction false} ObjectExtends(s: string, x: string, compact: bool)
    requires ReadObject(s, compact).Some?
    ensures Extends(ReadObject(s, compact), ReadObject(s + x, compact), x)
    decreases |s|, 4
  {
    var t := SkipSpace(s, compact);
    if t == "" { EmptyReadsNothing(s, compact); }
    SkipExtends(s, x, compact);
    Tail(t, x, 1);
    if t[0] != '}' { FieldsExtend(s, x, compact); }
  }

  lemma EmptyReadsNothing(s: string, compact: bool)
    requires SkipSpace(s, compact) == ""
    ensures ReadValue(s, compact).None? && ReadItems(s, compact).None? && ReadField(s, compact).None? && ReadFields(s, compact).None?
  {
  }

  lemma {:induction false} ItemsExtend(s: string, x: string, compact: bool)
    requires ReadItems(s, compact).Some?
    ensures Extends(ReadItems(s, compact), ReadItems(s + x, compact), x)
    decreases |s|, 2
  {
    var v := ReadValue(s, compact).value;
    var t := SkipSpace(v.1, compact);
    ValueExtends(s, x, compact);
    SkipExtends(v.1, x, compact);
    Tail(t, x, 1);
    if t[0] == ',' { ItemsExtend(t[1..], x, compact); }
  }

  lemma {:induction false} FieldExtends(s: string, x: string, compact: bool)
    requires var r := ReadField(s, compact); r.Some? && r.value.1 != ""
    ensures Extends(ReadField(s, compact), ReadField(s + x, compact), x)
    decreases |s|, 2
  {
    var k := ReadString(SkipSpace(s, compact)).value;
    var t := SkipSpace(k.1, compact);
    SkipExtends(s, x, compact);
    StringExtends(SkipSpace(s, compact), x);
    SkipExtends(k.1, x, compact);
    Tail(t, x, 1);
    ValueExtends(t[1..], x, compact);
  }

  lemma {:induction false} FieldsExtend(s: string, x: string, compact: bool)
    requires ReadFields(s, compact).Some?
    ensures Extends(ReadFields(s, compact), ReadFields(s + x, compact), x)
    decreases |s|, 3
  {
    var f := ReadField(s, compact).value;
    var t := SkipSpace(f.1, compact);
    FieldExtends(s, x, compact);
    SkipExtends(f.1, x, compact);
    Tail(t, x, 1);
    if t[0] == ',' { FieldsExtend(t[1..], x, compact); }
  }

  // ---- Where what was read ends ----

  lemma SuffixOfSuffix(a: string, b: string, c: string)
    requires Suffix(a, b) && Suffix(b, c)
    ensures Suffix(a, c)
  {
    assert c[|c| - |a|..] == c[|c| - |b|..][|b| - |a|..];
  }

  lemma DropIsSuffix(s: string, n: nat)
    requires n <= |s|
    ensures Suffix(s[n..], s)
  {
  }

  lemma {:induction false} SkipIsSuffix(s: string, compact: bool)
    ensures Suffix(SkipSpace(s, compact), s)
    decreases |s|
  {
    if !compact && s != "" && IsSpace(s[0]) {
      SkipIsSuffix(s[1..], compact);
      SuffixOfSuffix(SkipSpace(s[1..], compact), s[1..], s);
    }
  }

  /** What is left after reading is the end of the text. */
  ghost predicate Leaves<T>(r: Option<(T, string)>, s: string) {
    r.Some? ==> Suffix(r.value.1, s)
  }

  lemma LeavesAfter<T>(r: Option<(T, string)>, t: string, s: string)
    requires Leaves(r, t) && Suffix(t, s)
    ensures Leaves(r, s)
  {
    if r.Some? { SuffixOfSuffix(r.value.1, t, s); }
  }

  lemma EscapeLeaves(s: string)
    ensures Leaves(ReadEscape(s), s)
  {
    if ReadEscape(s).Some? && s[0] == 'u' { assert Leaves(ReadUnicode(s[1..]), s[1..]); }
  }

  lemma {:induction false} CharsLeave(s: string)
    ensures Leaves(ReadChars(s), s)
    decreases |s|
  {
    if ReadChars(s).Some? && s[0] != '"' {
      EscapeLeaves(s[1..]);
      var t := ReadChar(s).value.1;
      assert Suffix(t, s);
      CharsLeave(t);
      LeavesAfter(ReadChars(t), t, s);
    }
  }

  lemma StringLeaves(s: string)
    ensures Leaves(ReadString(s), s)
  {
    if ReadString(s).Some? {
      CharsLeave(s[1..]);
      LeavesAfter(ReadChars(s[1..]), s[1..], s);
    }
  }

  lemma {:induction false} ValueLeaves(s: string, compact: bool)
    ensures Leaves(ReadValue(s, compact), s)
    decreases |s|, 0
  {
    var t := SkipSpace(s, compact);
    SkipIsSuffix(s, compact);
    if t != "" {
      ArrayLeaves(t[1..], compact);
      ObjectLeaves(t[1..], compact);
      if t[0] == '[' || t[0] == '{' { CompoundLeaves(s, t, compact); } else { ScalarLeaves(s, t); }
    }
  }

  lemma CompoundLeaves(s: string, t: string, compact: bool)
    requires t == SkipSpace(s, compact) && Suffix(t, s) && t != "" && (t[0] == '[' || t[0] == '{')
    requires Leaves(ReadArray(t[1..], compact), t[1..]) && Leaves(ReadObject(t[1..], compact), t[1..])
    ensures Leaves(ReadValue(s, compact), s)
  {
    LeavesAfterOne(ReadArray(t[1..], compact), t, s);
    LeavesAfterOne(ReadObject(t[1..], compact), t, s);
  }

  lemma LeavesAfterOne<T>(r: Option<(T, string)>, t: string, s: string)
    requires t != "" && Leaves(r, t[1..]) && Suffix(t, s)
    ensures Leaves(r, s)
  {
    LeavesAfter(r, t[1..], t);
    LeavesAfter(r, t, s);
  }

  lemma ScalarLeaves(s: string, t: string)
    requires Suffix(t, s)
    ensures Leaves(ReadWord(t, "null", Null), s) && Leaves(ReadWord(t, "true", Bool(true)), s)
    ensures Leaves(ReadWord(t, "false", Bool(false)), s) && Leaves(ReadNumber(t), s) && Leaves(ReadString(t), s)
  {
    StringLeaves(t);
    LeavesAfter(ReadString(t), t, s);
    LeavesAfter(ReadWord(t, "null", Null), t, s);
    LeavesAfter(ReadWord(t, "true", Bool(true)), t, s);
    LeavesAfter(ReadWord(t, "false", Bool(false)), t, s);
    LeavesAfter(ReadNumber(t), t, s);
  }

  /** A closing bracket or brace, or one more element, after what was read so far. */
  lemma LeavesNext<T>(s: string, rest: string, compact: bool, r: Option<(T, string)>)
    requires Suffix(rest, s)
    ensures var t := SkipSpace(rest, compact);
            t != "" ==> Suffix(t, s) && Suffix(t[1..], s) && EndsBefore(s, t[1..], t[0]) && (Leaves(r, t[1..]) ==> Leaves(r, s))
  {
    var t := SkipSpace(rest, compact);
    SkipIsSuffix(rest, compact);
    SuffixOfSuffix(t, rest, s);
    if t != "" {
      SuffixOfSuffix(t[1..], t, s);
      if Leaves(r, t[1..]) { LeavesAfterOne(r, t, s); }
      assert t[0] == s[|s| - |t|];
    }
  }

  lemma {:induction false} ArrayLeaves(s: string, compact: bool)
    ensures Leaves(ReadArray(s, compact), s)
    decreases |s|, 2
  {
    LeavesNext(s, s, compact, ReadArray(s, compact));
    ItemsLeave(s, compact);
  }

  lemma {:induction false} ObjectLeaves(s: string, compact: bool)
    ensures Leaves(ReadObject(s, compact), s)
    ensures ReadObject(s, compact).Some? ==> EndsBefore(s, ReadObject(s, compact).value.1, '}')
    decreases |s|, 3
  {
    LeavesNext(s, s, compact, ReadObject(s, compact));
    FieldsLeave(s, compact);
  }

  lemma {:induction false} ItemsLeave(s: string, compact: bool)
    ensures Leaves(ReadItems(s, compact), s)
    decreases |s|, 1
  {
    if ReadItems(s, compact).Some? {
      var rest := ReadValue(s, compact).value.1;
      var t := SkipSpace(rest, compact);
      ValueLeaves(s, compact);
      ItemsLeave(t[1..], compact);
      LeavesNext(s, rest, compact, ReadItems(t[1..], compact));
    }
  }

  lemma {:induction false} FieldLeaves(s: string, compact: bool)
    ensures Leaves(ReadField(s, compact), s)
    decreases |s|, 1
  {
    if ReadField(s, compact).Some? {
      var u := SkipSpace(s, compact);
      var rest := ReadString(u).value.1;
      var t := SkipSpace(rest, compact);
      SkipIsSuffix(s, compact);
      StringLeaves(u);
      SuffixOfSuffix(rest, u, s);
      ValueLeaves(t[1..], compact);
      LeavesNext(s, rest, compact, ReadValue(t[1..], compact));
    }
  }

  lemma {:induction false} FieldsLeave(s: string, compact: bool)
    ensures Leaves(ReadFields(s, compact), s)
    ensures ReadFields(s, compact).Some? ==> EndsBefore(s, ReadFields(s, compact).value.1, '}')
    decreases |s|, 2
  {
    if ReadFields(s, compact).Some? {
      var rest := ReadField(s, compact).value.1;
      var t := SkipSpace(rest, compact);
      FieldLeaves(s, compact);
      FieldsLeave(t[1..], compact);
      LeavesNext(s, rest, compact, ReadFields(t[1..], compact));
      EndsStay(s, t);
    }
  }

  /** The character in front of what is left. */
  predicate EndsBefore(s: string, rest: string, c: char) {
    |rest| < |s| && s[|s| - |rest| - 1] == c
  }

  lemma EndsStay(s: string, t: string)
    requires Suffix(t, s) && t != ""
    ensures forall rest: string, c: char | EndsBefore(t[1..], rest, c) :: EndsBefore(s, rest, c)
  {
    forall rest: string, c: char | EndsBefore(t[1..], rest, c) ensures EndsBefore(s, rest, c) {
      assert t[1..][|t| - 1 - |rest| - 1] == t[|t| - |rest| - 1] == s[|s| - |rest| - 1];
    }
  }

  /** An object ends with its closing brace. */
  lemma ObjectEnds(s: string, compact: bool)
    requires var r := ReadValue(s, compact); r.Some? && r.value.0.Obj?
    ensures EndsBefore(s, ReadValue(s, compact).value.1, '}')
  {
    var t := SkipSpace(s, compact);
    SkipIsSuffix(s, compact);
    ObjectLeaves(t[1..], compact);
    EndsStay(s, t);
  }

  // ---- Of all texts for a string, the one that is written ----

  lemma CharCosts(s: string)
    requires ReadChar(s).Some?
    ensures |s| - |ReadChar(s).value.1| >= |EncodeChar(ReadChar(s).value.0)|
  {
  }

  lemma {:induction false} CharsCost(s: string)
    requires ReadChars(s).Some?
    ensures |s| - |ReadChars(s).value.1| > |EncodeChars(ReadChars(s).value.0)|
    decreases |s|
  {
    if s[0] != '"' {
      var c := ReadChar(s).value;
      CharCosts(s);
      CharsCost(c.1);
      var a := ReadChars(s).value.0;
      assert a[0] == c.0 && a[1..] == ReadChars(c.1).value.0;
    }
  }

  /** No text for a string is shorter than the one that is written. */
  lemma StringIsShortest(literal: string, a: string, x: string)
    requires ReadString(literal + x) == Some((a, x))
    ensures |EncodeString(a)| <= |literal|
  {
    CharsCost((literal + x)[1..]);
  }

  /** And character by character no other is as short, upper-case digits aside. */
  lemma OnlyEscape(literal: string, c: char)
    requires ReadChar(literal) == Some((c, "")) && |literal| <= |EncodeChar(c)|
    requires forall i | 0 <= i < |literal| && literal != [c] :: !('A' <= literal[i] <= 'F')
    ensures literal == EncodeChar(c)
  {
    if literal[0] != '\\' {
      assert literal == [c];
    } else if literal[1] == 'u' {
      UnicodeEscape(literal, c);
    }
  }

  lemma UnicodeEscape(literal: string, c: char)
    requires ReadChar(literal) == Some((c, "")) && |literal| <= |EncodeChar(c)| && literal[0] == '\\' && literal[1] == 'u'
    requires forall i | 0 <= i < |literal| :: !('A' <= literal[i] <= 'F')
    ensures literal == EncodeChar(c)
  {
    assert |literal| == 6 && Control(c);
    var h := literal[1..][1..];
    assert ReadHex4(h) == Some(c as int);
    assert h[0] == literal[2] && h[1] == literal[3] && h[2] == literal[4] && h[3] == literal[5];
    HexOf(h[0]);
    HexOf(h[1]);
    HexOf(h[2]);
    HexOf(h[3]);
  }

  lemma HexOf(c: char)
    requires HexValue(c).Some? && !('A' <= c <= 'F')
    ensures HexValue(c).value < 16 && HexDigit(HexValue(c).value) == c
  {
  }

  // ---- Every field that is read has a value ----

  lemma {:induction false} ReadIsDefined(s: string, compact: bool)
    ensures ReadValue(s, compact).Some? ==> Defined(ReadValue(s, compact).value.0)
    decreases |s|, 0
  {
    var t := SkipSpace(s, compact);
    if t != "" && t[0] == '[' {
      if ReadArray(t[1..], compact).Some? { ItemsAreDefined(t[1..], compact); }
    } else if t != "" && t[0] == '{' {
      if ReadObject(t[1..], compact).Some? { FieldsAreDefined(t[1..], compact); }
    }
  }

  lemma {:induction false} ItemsAreDefined(s: string, compact: bool)
    ensures ReadItems(s, compact).Some? ==>
              forall i | 0 <= i < |ReadItems(s, compact).value.0| :: Defined(ReadItems(s, compact).value.0[i])
    decreases |s|, 1
  {
    if ReadItems(s, compact).Some? {
      ReadIsDefined(s, compact);
      var t := SkipSpace(ReadValue(s, compact).value.1, compact);
      if t[0] == ',' { ItemsAreDefined(t[1..], compact); }
    }
  }

  lemma {:induction false} FieldIsDefined(s: string, compact: bool)
    requires ReadField(s, compact).Some?
    ensures var f := ReadField(s, compact).value.0; f.value.Some? && Defined(f.value.value)
    decreases |s|, 1
  {
    var t := SkipSpace(ReadString(SkipSpace(s, compact)).value.1, compact);
    ReadIsDefined(t[1..], compact);
  }

  lemma {:induction false} FieldsAreDefined(s: string, compact: bool)
    ensures ReadFields(s, compact).Some? ==> AllDefined(ReadFields(s, compact).value.0)
    decreases |s|, 2
  {
    if ReadFields(s, compact).Some? {
      FieldIsDefined(s, compact);
      var t := SkipSpace(ReadField(s, compact).value.1, compact);
      if t[0] == ',' { FieldsAreDefined(t[1..], compact); }
    }
  }
}
