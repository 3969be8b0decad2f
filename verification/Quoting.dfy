/**
 Quoting arguments for Windows (`quoteWindowsArgument` in src/service.ts) and POSIX shells
 (`quotePosix` in src/process.ts), and text for XML (`escapeXml`), each against the reader at the
 other end: the CommandLineToArgvW rules, the quoting rules of section 2.2 of the POSIX Shell Command
 Language, and XML's predefined entities.
 */
module Quoting {

  function Repeat(c: char, n: nat): (r: string)
    ensures |r| == n && forall i | 0 <= i < n :: r[i] == c
  {
    seq(n, i => c)
  }

  /** Words separated by single spaces. */
  function Spaced(words: seq<string>): string {
    if words == [] then ""
    else if |words| == 1 then words[0]
    else words[0] + " " + Spaced(words[1..])
  }

  // ---- Windows ----

  /** What `\s` matches. */
  predicate Whitespace(c: char) {
    c == ' ' || ('\t' <= c <= '\r') || c == '\U{00a0}' || c == '\U{1680}' || ('\U{2000}' <= c <= '\U{200a}')
    || c == '\U{2028}' || c == '\U{2029}' || c == '\U{202f}' || c == '\U{205f}' || c == '\U{3000}' || c == '\U{feff}'
  }

  predicate NeedsQuotes(v: string) {
    v == "" || exists i | 0 <= i < |v| :: Whitespace(v[i]) || v[i] == '"'
  }

  /** What is emitted for the rest of a value after `pending` backslashes that were not written yet. */
  function Escaped(pending: nat, v: string): string
    decreases |v|
  {
    if v == "" then Repeat('\\', 2 * pending)
    else if v[0] == '\\' then Escaped(pending + 1, v[1..])
    else if v[0] == '"' then Repeat('\\', 2 * pending + 1) + "\"" + Escaped(0, v[1..])
    else Repeat('\\', pending) + [v[0]] + Escaped(0, v[1..])
  }

  function Quoted(v: string): string {
    if NeedsQuotes(v) then "\"" + Escaped(0, v) + "\"" else v
  }

  /** The loop with its running backslash count. */
  method QuoteWindowsArgument(value: string) returns (result: string)
    ensures result == Quoted(value)
  {
    if !NeedsQuotes(value) { return value; }
    result := "\"";
    var backslashes: nat := 0;
    for i := 0 to |value|
      invariant result + Escaped(backslashes, value[i..]) == "\"" + Escaped(0, value)
    {
      var character := value[i];
      assert value[i..][0] == character && value[i..][1..] == value[i + 1..];
      if character == '\\' {
        backslashes := backslashes + 1;
        continue;
      }
      if character == '"' {
        result := result + Repeat('\\', backslashes * 2 + 1) + "\"";
        backslashes := 0;
        continue;
      }
      result := result + Repeat('\\', backslashes) + [character];
      backslashes := 0;
    }
    return result + Repeat('\\', backslashes * 2) + "\"";
  }

  // ---- The reader: CommandLineToArgvW ----

  predicate Blank(c: char) {
    c == ' ' || c == '\t'
  }

  function Slashes(s: string): (n: nat)
    ensures n <= |s| && (n < |s| ==> s[n] != '\\')
  {
    if s != "" && s[0] == '\\' then 1 + Slashes(s[1..]) else 0
  }

  /** One argument from here on, and what follows it. Backslashes count only in front of a quote: each
      pair is one of them, and an odd one makes the quote literal. */
  function ScanArgument(s: string, quoted: bool): (r: (string, string))
    ensures |r.1| <= |s|
    decreases |s|
  {
    if s == "" then ("", "")
    else
      var n := Slashes(s);
      if n > 0 && n < |s| && s[n] == '"' then
        if n % 2 == 0 then
          var (text, rest) := ScanArgument(s[n..], quoted);
          (Repeat('\\', n / 2) + text, rest)
        else
          var (text, rest) := ScanArgument(s[n + 1..], quoted);
          (Repeat('\\', n / 2) + "\"" + text, rest)
      else if n > 0 then
        var (text, rest) := ScanArgument(s[n..], quoted);
        (Repeat('\\', n) + text, rest)
      else if s[0] == '"' then
        if quoted && |s| > 1 && s[1] == '"' then
          var (text, rest) := ScanArgument(s[2..], quoted);
          ("\"" + text, rest)
        else ScanArgument(s[1..], !quoted)
      else if Blank(s[0]) && !quoted then ("", s)
      else
        var (text, rest) := ScanArgument(s[1..], quoted);
        ([s[0]] + text, rest)
  }

  function SkipBlanks(s: string): (r: string)
    ensures |r| <= |s| && (r != "" ==> !Blank(r[0]))
  {
    if s != "" && Blank(s[0]) then SkipBlanks(s[1..]) else s
  }

  function ParseArguments(s: string): seq<string>
    decreases |s|
  {
    var t := SkipBlanks(s);
    if t == "" then []
    else
      var (argument, rest) := ScanArgument(t, false);
      ScanConsumes(t);
      [argument] + ParseArguments(rest)
  }

  lemma ScanConsumes(s: string)
    requires s != "" && !Blank(s[0])
    ensures |ScanArgument(s, false).1| < |s|
  {
  }

  // ---- Reading back what was quoted ----

  /** The end of the line, or a blank. */
  predicate Ends(tail: string) {
    tail == "" || Blank(tail[0])
  }

  lemma {:induction false} SlashesOfRun(n: nat, rest: string)
    requires rest == "" || rest[0] != '\\'
    ensures Slashes(Repeat('\\', n) + rest) == n
    decreases n
  {
    var s := Repeat('\\', n) + rest;
    if n == 0 {
      assert s == rest;
    } else {
      assert s[1..] == Repeat('\\', n - 1) + rest;
      SlashesOfRun(n - 1, rest);
    }
  }

  lemma ScanEnd(tail: string)
    requires Ends(tail)
    ensures ScanArgument(tail, false) == ("", tail)
    ensures ScanArgument("\"" + tail, true) == ("", tail)
  {
    var s := "\"" + tail;
    assert s[1..] == tail && Slashes(s) == 0;
  }

  /** A run of backslashes in front of an ordinary character, inside or outside quotes. */
  lemma ScanOne(c: char, more: string, quoted: bool)
    requires c != '\\' && c != '"' && (quoted || !Blank(c))
    ensures var (text, rest) := ScanArgument(more, quoted); ScanArgument([c] + more, quoted) == ([c] + text, rest)
  {
    var t := [c] + more;
    assert t[1..] == more && Slashes(t) == 0;
  }

  lemma ScanRun(n: nat, next: string, quoted: bool)
    requires next == "" || (next[0] != '\\' && next[0] != '"')
    ensures var (text, rest) := ScanArgument(next, quoted);
            ScanArgument(Repeat('\\', n) + next, quoted) == (Repeat('\\', n) + text, rest)
  {
    var s := Repeat('\\', n) + next;
    SlashesOfRun(n, next);
    var (text, rest) := ScanArgument(next, quoted);
    if n == 0 {
      assert s == next && Repeat('\\', 0) + text == text;
    } else {
      assert s[n..] == next;
    }
  }

  lemma ScanOrdinary(n: nat, c: char, more: string, quoted: bool)
    requires c != '\\' && c != '"' && (quoted || !Blank(c))
    ensures var (text, rest) := ScanArgument(more, quoted);
            ScanArgument(Repeat('\\', n) + ([c] + more), quoted) == (Repeat('\\', n) + ([c] + text), rest)
  {
    ScanOne(c, more, quoted);
    ScanRun(n, [c] + more, quoted);
  }

  /** Backslashes doubled and one more in front of a quote: all of them, and the quote. */
  lemma ScanEscapedQuote(n: nat, more: string)
    ensures var (text, rest) := ScanArgument(more, true);
            ScanArgument(Repeat('\\', 2 * n + 1) + "\"" + more, true) == (Repeat('\\', n) + "\"" + text, rest)
  {
    var s := Repeat('\\', 2 * n + 1) + "\"" + more;
    assert s == Repeat('\\', 2 * n + 1) + ("\"" + more);
    SlashesOfRun(2 * n + 1, "\"" + more);
    assert s[2 * n + 1] == '"' && s[2 * n + 2..] == more;
    assert (2 * n + 1) / 2 == n && (2 * n + 1) % 2 == 1;
  }

  /** Backslashes doubled in front of the closing quote. */
  lemma ScanClosing(n: nat, tail: string)
    requires Ends(tail)
    ensures ScanArgument(Repeat('\\', 2 * n) + "\"" + tail, true) == (Repeat('\\', n), tail)
  {
    var s := Repeat('\\', 2 * n) + "\"" + tail;
    assert s == Repeat('\\', 2 * n) + ("\"" + tail);
    ScanEnd(tail);
    if n == 0 {
      assert s == "\"" + tail && Repeat('\\', 0) == "";
    } else {
      SlashesOfRun(2 * n, "\"" + tail);
      assert s[2 * n..] == "\"" + tail;
      assert Repeat('\\', n) + "" == Repeat('\\', n);
    }
  }

  lemma QuoteStep(pending: nat, rest: string, more: string, tail: string)
    requires ScanArgument(more, true) == (rest, tail)
    ensures ScanArgument(Repeat('\\', 2 * pending + 1) + "\"" + more, true) == (Repeat('\\', pending) + (['"'] + rest), tail)
  {
    ScanEscapedQuote(pending, more);
    assert Repeat('\\', pending) + "\"" + rest == Repeat('\\', pending) + (['"'] + rest);
  }

  lemma OrdinaryStep(pending: nat, c: char, rest: string, more: string, tail: string)
    requires c != '\\' && c != '"' && ScanArgument(more, true) == (rest, tail)
    ensures ScanArgument(Repeat('\\', pending) + [c] + more, true) == (Repeat('\\', pending) + ([c] + rest), tail)
  {
    ScanOrdinary(pending, c, more, true);
    assert Repeat('\\', pending) + [c] + more == Repeat('\\', pending) + ([c] + more);
  }

  lemma ScanEscapedStep(pending: nat, v: string, more: string, tail: string)
    requires v != "" && v[0] != '\\' && ScanArgument(more, true) == (v[1..], tail)
    ensures var head := if v[0] == '"' then Repeat('\\', 2 * pending + 1) + "\"" else Repeat('\\', pending) + [v[0]];
            ScanArgument(head + more, true) == (Repeat('\\', pending) + v, tail)
  {
    assert v == [v[0]] + v[1..];
    if v[0] == '"' { QuoteStep(pending, v[1..], more, tail); } else { OrdinaryStep(pending, v[0], v[1..], more, tail); }
  }

  lemma EscapedSplits(pending: nat, v: string, tail: string)
    requires v != "" && v[0] != '\\'
    ensures var head := if v[0] == '"' then Repeat('\\', 2 * pending + 1) + "\"" else Repeat('\\', pending) + [v[0]];
            Escaped(pending, v) + "\"" + tail == head + (Escaped(0, v[1..]) + "\"" + tail)
  {
  }

  lemma OneMorePending(pending: nat, v: string)
    requires v != "" && v[0] == '\\'
    ensures Repeat('\\', pending + 1) + v[1..] == Repeat('\\', pending) + v
  {
  }

  lemma {:induction false} ScanEscaped(pending: nat, v: string, tail: string)
    requires Ends(tail)
    ensures ScanArgument(Escaped(pending, v) + "\"" + tail, true) == (Repeat('\\', pending) + v, tail)
    decreases |v|
  {
    if v == "" {
      ScanClosing(pending, tail);
      assert Repeat('\\', pending) + v == Repeat('\\', pending);
    } else if v[0] == '\\' {
      ScanEscaped(pending + 1, v[1..], tail);
      OneMorePending(pending, v);
    } else {
      ScanEscaped(0, v[1..], tail);
      assert Repeat('\\', 0) + v[1..] == v[1..];
      EscapedSplits(pending, v, tail);
      ScanEscapedStep(pending, v, Escaped(0, v[1..]) + "\"" + tail, tail);
    }
  }

  predicate Plain(v: string) {
    forall i | 0 <= i < |v| :: !Blank(v[i]) && v[i] != '"'
  }

  /** Without blanks and quotes a value is read as it stands, backslashes and all. */
  lemma ScanPlainStep(n: nat, c: char, more: string, tail: string)
    requires c != '\\' && c != '"' && !Blank(c) && ScanArgument(more + tail, false) == (more, tail)
    ensures var v := Repeat('\\', n) + ([c] + more); ScanArgument(v + tail, false) == (v, tail)
  {
    ScanOrdinary(n, c, more + tail, false);
    assert Repeat('\\', n) + ([c] + more) + tail == Repeat('\\', n) + ([c] + (more + tail));
  }

  lemma ScanTrailing(n: nat, tail: string)
    requires Ends(tail)
    ensures ScanArgument(Repeat('\\', n) + tail, false) == (Repeat('\\', n), tail)
  {
    ScanEnd(tail);
    ScanRun(n, tail, false);
    assert Repeat('\\', n) + "" == Repeat('\\', n);
  }

  lemma {:induction false} ScanPlain(v: string, tail: string)
    requires Plain(v) && Ends(tail)
    ensures ScanArgument(v + tail, false) == (v, tail)
    decreases |v|
  {
    var n := Slashes(v);
    SlashesSplit(v);
    var rest := v[n..];
    if rest == "" {
      assert v == Repeat('\\', n);
      ScanTrailing(n, tail);
    } else {
      assert rest == [rest[0]] + rest[1..] && rest[0] == v[n];
      ScanPlain(rest[1..], tail);
      ScanPlainStep(n, rest[0], rest[1..], tail);
    }
  }

  lemma {:induction false} SlashesSplit(v: string)
    ensures v == Repeat('\\', Slashes(v)) + v[Slashes(v)..]
    decreases |v|
  {
    if v != "" && v[0] == '\\' { SlashesSplit(v[1..]); }
  }

  lemma ScanQuoted(v: string, tail: string)
    requires Ends(tail)
    ensures ScanArgument(Quoted(v) + tail, false) == (v, tail)
    ensures Quoted(v) != "" && !Blank(Quoted(v)[0])
  {
    if NeedsQuotes(v) {
      var inner := Escaped(0, v) + "\"" + tail;
      var line := Quoted(v) + tail;
      assert line[1..] == inner && Slashes(line) == 0;
      ScanEscaped(0, v, tail);
      assert Repeat('\\', 0) + v == v;
    } else {
      ScanPlain(v, tail);
    }
  }

  function AllQuoted(args: seq<string>): (r: seq<string>)
    ensures |r| == |args| && forall i | 0 <= i < |args| :: r[i] == Quoted(args[i])
  {
    seq(|args|, i requires 0 <= i < |args| => Quoted(args[i]))
  }

  /** What stands after the first of several arguments. */
  function AfterFirst(args: seq<string>): string
    requires args != []
  {
    if |args| == 1 then "" else " " + Spaced(AllQuoted(args[1..]))
  }

  lemma LineSplits(args: seq<string>)
    requires args != []
    ensures Spaced(AllQuoted(args)) == Quoted(args[0]) + AfterFirst(args) && Ends(AfterFirst(args))
    ensures args == [args[0]] + args[1..]
  {
    assert AllQuoted(args)[1..] == AllQuoted(args[1..]);
    assert |args| == 1 ==> Quoted(args[0]) + "" == Quoted(args[0]);
  }

  lemma BlankSkipped(line: string)
    ensures ParseArguments(" " + line) == ParseArguments(line)
  {
    assert (" " + line)[1..] == line;
  }

  lemma FirstArgument(v: string, tail: string)
    requires Ends(tail)
    ensures ParseArguments(Quoted(v) + tail) == [v] + ParseArguments(tail)
  {
    ScanQuoted(v, tail);
    var line := Quoted(v) + tail;
    assert line[0] == Quoted(v)[0];
    assert SkipBlanks(line) == line;
  }

  /** The program started by the task sees exactly the arguments the broker had. */
  lemma {:induction false} ArgumentsRoundTrip(args: seq<string>)
    ensures ParseArguments(Spaced(AllQuoted(args))) == args
    decreases |args|
  {
    if args != [] {
      LineSplits(args);
      FirstArgument(args[0], AfterFirst(args));
      ArgumentsRoundTrip(args[1..]);
      if |args| > 1 { BlankSkipped(Spaced(AllQuoted(args[1..]))); }
    }
  }

  // ---- XML ----

  function ReplaceAll(s: string, c: char, with: string): string {
    if s == "" then ""
    else (if s[0] == c then with else [s[0]]) + ReplaceAll(s[1..], c, with)
  }

  /** The four replacements, one after another. */
  function EscapeXml(s: string): string {
    ReplaceAll(ReplaceAll(ReplaceAll(ReplaceAll(s, '&', "&amp;"), '<', "&lt;"), '>', "&gt;"), '"', "&quot;")
  }

  function Entity(c: char): string {
    if c == '&' then "&amp;" else if c == '<' then "&lt;" else if c == '>' then "&gt;" else if c == '"' then "&quot;" else [c]
  }

  /** Reading text back: the predefined entities, and everything else as it stands. */
  function DecodeXml(s: string): string
    decreases |s|
  {
    if s == "" then ""
    else if "&amp;" <= s then "&" + DecodeXml(s[5..])
    else if "&lt;" <= s then "<" + DecodeXml(s[4..])
    else if "&gt;" <= s then ">" + DecodeXml(s[4..])
    else if "&quot;" <= s then "\"" + DecodeXml(s[6..])
    else [s[0]] + DecodeXml(s[1..])
  }

  lemma {:induction false} ReplaceAllAppend(s: string, t: string, c: char, with: string)
    ensures ReplaceAll(s + t, c, with) == ReplaceAll(s, c, with) + ReplaceAll(t, c, with)
    decreases |s|
  {
    if s == "" {
      assert s + t == t;
    } else {
      assert (s + t)[1..] == s[1..] + t;
      ReplaceAllAppend(s[1..], t, c, with);
    }
  }

  lemma {:induction false} ReplaceNone(s: string, c: char, with: string)
    requires c !in s
    ensures ReplaceAll(s, c, with) == s
    decreases |s|
  {
    if s != "" {
      ReplaceNone(s[1..], c, with);
      assert s == [s[0]] + s[1..];
    }
  }

  /** Because the ampersand goes first, no replacement touches what an earlier one wrote. */
  lemma EscapeXmlHead(s: string)
    requires s != ""
    ensures EscapeXml(s) == Entity(s[0]) + EscapeXml(s[1..])
  {
    var c, t := s[0], s[1..];
    var a := if c == '&' then "&amp;" else [c];
    var t1 := ReplaceAll(t, '&', "&amp;");
    ReplaceAllAppend(a, t1, '<', "&lt;");
    var b := ReplaceAll(a, '<', "&lt;");
    var t2 := ReplaceAll(t1, '<', "&lt;");
    ReplaceAllAppend(b, t2, '>', "&gt;");
    var d := ReplaceAll(b, '>', "&gt;");
    var t3 := ReplaceAll(t2, '>', "&gt;");
    ReplaceAllAppend(d, t3, '"', "&quot;");
    HeadReplacements(c);
  }

  /** The last three replacements. */
  function LaterReplacements(s: string): string {
    ReplaceAll(ReplaceAll(ReplaceAll(s, '<', "&lt;"), '>', "&gt;"), '"', "&quot;")
  }

  lemma NothingLater(s: string)
    requires '<' !in s && '>' !in s && '"' !in s
    ensures LaterReplacements(s) == s
  {
    ReplaceNone(s, '<', "&lt;");
    ReplaceNone(s, '>', "&gt;");
    ReplaceNone(s, '"', "&quot;");
  }

  lemma OneLater(c: char)
    requires c == '<' || c == '>' || c == '"'
    ensures LaterReplacements([c]) == Entity(c)
  {
    if c == '<' {
      SingleReplaced(c, "&lt;");
      ReplaceNone("&lt;", '>', "&gt;");
      ReplaceNone("&lt;", '"', "&quot;");
    } else if c == '>' {
      ReplaceNone([c], '<', "&lt;");
      SingleReplaced(c, "&gt;");
      ReplaceNone("&gt;", '"', "&quot;");
    } else {
      ReplaceNone([c], '<', "&lt;");
      ReplaceNone([c], '>', "&gt;");
      SingleReplaced(c, "&quot;");
    }
  }

  lemma HeadReplacements(c: char)
    ensures LaterReplacements(if c == '&' then "&amp;" else [c]) == Entity(c)
  {
    if c == '<' || c == '>' || c == '"' { OneLater(c); }
    else if c == '&' { NothingLater("&amp;"); }
    else { NothingLater([c]); }
  }

  lemma SingleReplaced(c: char, with: string)
    ensures ReplaceAll([c], c, with) == with
  {
    assert [c][1..] == "";
  }

  lemma DecodeEntity(c: char, rest: string)
    ensures DecodeXml(Entity(c) + rest) == [c] + DecodeXml(rest)
  {
    var s := Entity(c) + rest;
    if c == '&' { assert "&amp;" <= s && s[5..] == rest; }
    else if c == '<' { assert s[1] == 'l' && "&lt;" <= s && s[4..] == rest; }
    else if c == '>' { assert s[1] == 'g' && "&gt;" <= s && s[4..] == rest; }
    else if c == '"' { assert s[1] == 'q' && "&quot;" <= s && s[6..] == rest; }
    else { assert s[0] == c && s[1..] == rest; }
  }

  /** What is escaped can stand between tags and between quotation marks: it ends neither. */
  lemma {:induction false} EscapedXmlIsSafe(s: string)
    ensures '<' !in EscapeXml(s) && '>' !in EscapeXml(s) && '"' !in EscapeXml(s)
    decreases |s|
  {
    if s != "" {
      EscapeXmlHead(s);
      EscapedXmlIsSafe(s[1..]);
    }
  }

  lemma {:induction false} XmlRoundTrip(s: string)
    ensures DecodeXml(EscapeXml(s)) == s
    decreases |s|
  {
    if s != "" {
      EscapeXmlHead(s);
      DecodeEntity(s[0], EscapeXml(s[1..]));
      XmlRoundTrip(s[1..]);
      assert s == [s[0]] + s[1..];
    }
  }

  /** The whole way of a task's arguments: quoted, joined, escaped into the XML, and read back twice. */
  lemma TaskArgumentsRoundTrip(args: seq<string>)
    ensures ParseArguments(DecodeXml(EscapeXml(Spaced(AllQuoted(args))))) == args
  {
    XmlRoundTrip(Spaced(AllQuoted(args)));
    ArgumentsRoundTrip(args);
  }

  // ---- POSIX ----

  function QuotePosix(v: string): string {
    "'" + ReplaceAll(v, '\'', "'\"'\"'") + "'"
  }

  datatype Quoting = Unquoted | Single | Double

  /** One word from here on, by the quoting rules: within single quotes everything is literal, within
      double quotes a backslash escapes only four characters here, and outside it escapes any one.
      Expansions are not performed; a word that needs one is none. */
  function ShellWord(s: string, q: Quoting): (r: (bool, string, string))
    ensures |r.2| <= |s|
    decreases |s|
  {
    if s == "" then (q == Unquoted, "", "")
    else
      match q
      case Single =>
        if s[0] == '\'' then ShellWord(s[1..], Unquoted)
        else var (ok, text, rest) := ShellWord(s[1..], Single); (ok, [s[0]] + text, rest)
      case Double =>
        if s[0] == '"' then ShellWord(s[1..], Unquoted)
        else if s[0] == '$' || s[0] == '`' then (false, "", s)
        else if s[0] == '\\' && |s| > 1 && (s[1] == '$' || s[1] == '`' || s[1] == '"' || s[1] == '\\') then
          var (ok, text, rest) := ShellWord(s[2..], Double); (ok, [s[1]] + text, rest)
        else var (ok, text, rest) := ShellWord(s[1..], Double); (ok, [s[0]] + text, rest)
      case Unquoted =>
        if s[0] == '\'' then ShellWord(s[1..], Single)
        else if s[0] == '"' then ShellWord(s[1..], Double)
        else if Blank(s[0]) then (true, "", s)
        else if s[0] == '\\' && |s| > 1 then
          var (ok, text, rest) := ShellWord(s[2..], Unquoted); (ok, [s[1]] + text, rest)
        else if s[0] in "$`|&;<>()*?[#~=%{}!\n" then (false, "", s)
        else var (ok, text, rest) := ShellWord(s[1..], Unquoted); (ok, [s[0]] + text, rest)
  }

  function ShellWords(s: string): (bool, seq<string>)
    decreases |s|
  {
    var t := SkipBlanks(s);
    if t == "" then (true, [])
    else
      var (ok, word, rest) := ShellWord(t, Unquoted);
      if !ok || |rest| >= |t| then (false, [])
      else
        var (good, words) := ShellWords(rest);
        (good, [word] + words)
  }

  lemma ShellApostrophe(more: string)
    ensures var (ok, text, rest) := ShellWord(more, Single);
            ShellWord("'\"'\"'" + more, Single) == (ok, "'" + text, rest)
  {
    var s := "'\"'\"'" + more;
    var s1, s2, s3, s4 := s[1..], s[2..], s[3..], s[4..];
    assert s1[1..] == s2 && s2[1..] == s3 && s3[1..] == s4 && s4[1..] == more;
    assert s[0] == '\'' && s1[0] == '"' && s2[0] == '\'' && s3[0] == '"' && s4[0] == '\'';
    assert ShellWord(s4, Unquoted) == ShellWord(more, Single);
    assert ShellWord(s3, Double) == ShellWord(s4, Unquoted);
    var (ok, text, rest) := ShellWord(more, Single);
    assert ShellWord(s2, Double) == (ok, [s2[0]] + text, rest);
    assert ShellWord(s1, Unquoted) == ShellWord(s2, Double);
    assert ShellWord(s, Single) == ShellWord(s1, Unquoted);
  }

  lemma {:induction false} ShellSingle(v: string, tail: string)
    requires Ends(tail)
    ensures ShellWord(ReplaceAll(v, '\'', "'\"'\"'") + "'" + tail, Single) == (true, v, tail)
    decreases |v|
  {
    var line := ReplaceAll(v, '\'', "'\"'\"'") + "'" + tail;
    if v == "" {
      assert line[1..] == tail;
    } else {
      var more := ReplaceAll(v[1..], '\'', "'\"'\"'") + "'" + tail;
      ShellSingle(v[1..], tail);
      assert v == [v[0]] + v[1..];
      if v[0] == '\'' {
        ShellApostrophe(more);
        assert line == "'\"'\"'" + more;
      } else {
        assert line == [v[0]] + more && line[1..] == more;
      }
    }
  }

  lemma ShellQuoted(v: string, tail: string)
    requires Ends(tail)
    ensures ShellWord(QuotePosix(v) + tail, Unquoted) == (true, v, tail)
    ensures QuotePosix(v) != "" && !Blank(QuotePosix(v)[0])
  {
    var line := QuotePosix(v) + tail;
    assert line[1..] == ReplaceAll(v, '\'', "'\"'\"'") + "'" + tail;
    ShellSingle(v, tail);
  }

  function AllQuotedPosix(args: seq<string>): (r: seq<string>)
    ensures |r| == |args| && forall i | 0 <= i < |args| :: r[i] == QuotePosix(args[i])
  {
    seq(|args|, i requires 0 <= i < |args| => QuotePosix(args[i]))
  }

  /** A shell splits a line of quoted values back into those values, whatever they contain. */
  lemma {:induction false} ShellRoundTrip(args: seq<string>)
    ensures ShellWords(Spaced(AllQuotedPosix(args))) == (true, args)
    decreases |args|
  {
    if args != [] {
      var line := Spaced(AllQuotedPosix(args));
      assert AllQuotedPosix(args)[1..] == AllQuotedPosix(args[1..]);
      var tail := if |args| == 1 then "" else " " + Spaced(AllQuotedPosix(args[1..]));
      assert line == QuotePosix(args[0]) + tail;
      ShellQuoted(args[0], tail);
      assert SkipBlanks(line) == line;
      ShellRoundTrip(args[1..]);
      if |args| > 1 {
        assert tail[1..] == Spaced(AllQuotedPosix(args[1..]));
        assert SkipBlanks(tail) == SkipBlanks(tail[1..]);
      }
      assert ShellWords(tail) == (true, args[1..]);
      assert args == [args[0]] + args[1..];
    }
  }
}
