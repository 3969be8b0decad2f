/**
 Path patterns (src/patterns.ts). Whether two globs can match a common path is decided by a cheap
 test on literal prefixes; it has to answer "yes" whenever some path is in both. The glob library
 itself is represented by a small matcher: literals, `?` and `*` within a component, and a doubled star for
 any number of components, none included, so that "a" is itself among the paths below "a". The
 matcher reads every other character literally, and so speaks for patterns without escapes, negation, braces or extglobs.
 */
module Patterns {
  import opened Common

  // ---- Normalisation ----

  predicate Escapable(c: char) {
    c == '?' || c == '*' || c == '{' || c == '[' || c == '(' || c == ']' || c == '}' || c == ')'
  }

  /** Every backslash that does not escape a glob character is a path separator. */
  function Slashes(s: string): (r: string)
    ensures |r| == |s|
    ensures '\\' !in s ==> r == s
  {
    if s == "" then ""
    else if s[0] == '\\' && !(|s| > 1 && Escapable(s[1])) then "/" + Slashes(s[1..])
    else [s[0]] + Slashes(s[1..])
  }

  function StripDot(s: string): string {
    if |s| >= 2 && s[..2] == "./" then s[2..] else s
  }

  function TrimLeft(s: string): (r: string)
    ensures r == "" || r[0] != '/'
  {
    if s != "" && s[0] == '/' then TrimLeft(s[1..]) else s
  }

  function TrimRight(s: string): (r: string)
    ensures r <= s
    ensures r == "" || r[|r| - 1] != '/'
  {
    if s != "" && s[|s| - 1] == '/' then TrimRight(s[..|s| - 1]) else s
  }

  function Normalize(value: string): string {
    TrimRight(TrimLeft(StripDot(Slashes(value))))
  }

  // ---- The matcher ----

  /** The components between slashes. */
  function Split(s: string): (r: seq<string>)
    ensures r != []
    decreases |s|
  {
    var i := FirstSlash(s);
    if i == |s| then [s] else [s[..i]] + Split(s[i + 1..])
  }

  function FirstSlash(s: string): (i: nat)
    ensures i <= |s| && '/' !in s[..i]
    ensures i < |s| ==> s[i] == '/'
  {
    if s == "" || s[0] == '/' then 0 else 1 + FirstSlash(s[1..])
  }

  predicate IsGlobstar(component: string) {
    |component| >= 2 && forall i | 0 <= i < |component| :: component[i] == '*'
  }

  predicate ComponentMatches(f: string, p: string)
    decreases |f| + |p|
  {
    if p == "" then f == ""
    else if p[0] == '*' then ComponentMatches(f, p[1..]) || (f != "" && ComponentMatches(f[1..], p))
    else f != "" && (p[0] == '?' || p[0] == f[0]) && ComponentMatches(f[1..], p[1..])
  }

  predicate ComponentsMatch(fs: seq<string>, ps: seq<string>)
    decreases |fs| + |ps|
  {
    if ps == [] then fs == []
    else if IsGlobstar(ps[0]) then ComponentsMatch(fs, ps[1..]) || (fs != [] && ComponentsMatch(fs[1..], ps))
    else fs != [] && ComponentMatches(fs[0], ps[0]) && ComponentsMatch(fs[1..], ps[1..])
  }

  /** The library drops one leading "./" of a pattern itself. */
  predicate GlobMatches(file: string, pattern: string) {
    ComponentsMatch(Split(file), Split(StripDot(pattern)))
  }

  predicate MatchesPattern(file: string, pattern: string) {
    GlobMatches(Normalize(file), Normalize(pattern))
  }

  // ---- The overlap test ----

  predicate IsMagic(c: char) {
    c == '?' || c == '*' || c == '{' || c == '[' || c == '('
  }

  /** The index of the first magic character that no backslash escapes, if there is one. */
  function FirstMagic(p: string): (r: Option<nat>)
    ensures r.Some? ==> r.value < |p| && IsMagic(p[r.value])
    decreases |p|
  {
    if p == "" then None
    else if p[0] == '\\' then
      if |p| == 1 then None
      else
        var rest := FirstMagic(p[2..]);
        if rest.None? then None else Some(rest.value + 2)
    else if IsMagic(p[0]) then Some(0)
    else
      var rest := FirstMagic(p[1..]);
      if rest.None? then None else Some(rest.value + 1)
  }

  method FirstUnescapedMagicIndex(pattern: string) returns (found: int)
    ensures found == -1 <==> FirstMagic(pattern).None?
    ensures found != -1 ==> FirstMagic(pattern) == Some(found)
  {
    var index := 0;
    while index < |pattern|
      invariant 0 <= index
      invariant FirstMagic(pattern).None? <==> (index > |pattern| || FirstMagic(pattern[index..]).None?)
      invariant FirstMagic(pattern).Some? ==>
                  FirstMagic(pattern).value == index + FirstMagic(pattern[index..]).value
      decreases |pattern| - index
    {
      if pattern[index] == '\\' {
        if index + 1 < |pattern| {
          assert pattern[index..][2..] == pattern[index + 2..];
        }
        index := index + 2;
        continue;
      }
      if IsMagic(pattern[index]) {
        return index;
      }
      assert pattern[index..][1..] == pattern[index + 1..];
      index := index + 1;
    }
    return -1;
  }

  function LastSlash(s: string): (i: int)
    ensures -1 <= i < |s|
    ensures i >= 0 ==> s[i] == '/'
  {
    if s == "" then -1 else if s[|s| - 1] == '/' then |s| - 1 else LastSlash(s[..|s| - 1])
  }

  function BeforeMagic(p: string): string {
    var magic := FirstMagic(p);
    if magic.None? then p else p[..magic.value]
  }

  function LiteralPrefix(pattern: string): string {
    var prefix := BeforeMagic(Normalize(pattern));
    prefix[..LastSlash(prefix) + 1]
  }

  predicate PatternsMayOverlap(left: string, right: string) {
    var a, b := Normalize(left), Normalize(right);
    if a == b || MatchesPattern(a, b) || MatchesPattern(b, a) then true
    else if FirstMagic(a).None? || FirstMagic(b).None? then false
    else
      var aPrefix, bPrefix := LiteralPrefix(a), LiteralPrefix(b);
      if aPrefix == "" || bPrefix == "" then true
      else bPrefix <= aPrefix || aPrefix <= bPrefix
  }

  predicate SetsMayOverlap(left: seq<string>, right: seq<string>) {
    exists i | 0 <= i < |left| :: exists j | 0 <= j < |right| :: PatternsMayOverlap(left[i], right[j])
  }

  // ---- Soundness ----

  /** What a tracked path looks like: named components, none of them empty or ".". */
  ghost predicate TrackedPath(path: string) {
    forall c | c in Split(path) :: c != "" && c != "."
  }

  lemma OverlapSymmetric(a: string, b: string)
    ensures PatternsMayOverlap(a, b) == PatternsMayOverlap(b, a)
  {
  }

  lemma SetOverlapSymmetric(left: seq<string>, right: seq<string>)
    ensures SetsMayOverlap(left, right) == SetsMayOverlap(right, left)
  {
    forall i, j | 0 <= i < |left| && 0 <= j < |right|
      ensures PatternsMayOverlap(left[i], right[j]) == PatternsMayOverlap(right[j], left[i])
    {
      OverlapSymmetric(left[i], right[j]);
    }
  }

  /** The fixed text of components, each followed by its slash. */
  ghost function Slashed(cs: seq<string>): string {
    if cs == [] then "" else cs[0] + "/" + Slashed(cs[1..])
  }

  ghost predicate Literal(s: string) {
    forall i | 0 <= i < |s| :: !IsMagic(s[i])
  }

  lemma {:induction false} LiteralComponent(f: string, p: string)
    requires Literal(p) && ComponentMatches(f, p)
    ensures f == p
    decreases |p|
  {
    if p != "" {
      LiteralComponent(f[1..], p[1..]);
      assert f == [f[0]] + f[1..] && p == [p[0]] + p[1..];
    }
  }

  lemma LiteralIsNoGlobstar(p: string)
    requires Literal(p)
    ensures !IsGlobstar(p)
  {
    if |p| >= 2 { assert p[0] != '*'; }
  }

  lemma {:induction false} SlashBounds(p: string, j: nat)
    requires j < |p| && p[j] == '/'
    ensures FirstSlash(p) <= j
  {
    if j > 0 { SlashBounds(p[1..], j - 1); }
  }

  lemma SplitFirst(p: string)
    requires FirstSlash(p) < |p|
    ensures Split(p) == [p[..FirstSlash(p)]] + Split(p[FirstSlash(p) + 1..])
  {
  }

  lemma SplitHead(p: string)
    ensures Split(p)[0] == p[..FirstSlash(p)]
    ensures FirstSlash(p) < |p| ==> Split(p)[1..] == Split(p[FirstSlash(p) + 1..])
    ensures FirstSlash(p) == |p| ==> Split(p) == [p]
  {
    if FirstSlash(p) == |p| { assert p[..|p|] == p; } else { SplitFirst(p); }
  }

  lemma LiteralFirstComponent(fs: seq<string>, p: string)
    requires Literal(p[..FirstSlash(p)]) && ComponentsMatch(fs, Split(p))
    ensures fs != [] && fs[0] == p[..FirstSlash(p)]
    ensures FirstSlash(p) < |p| ==> ComponentsMatch(fs[1..], Split(p[FirstSlash(p) + 1..]))
    ensures FirstSlash(p) == |p| ==> |fs| == 1
  {
    SplitHead(p);
    LiteralIsNoGlobstar(Split(p)[0]);
    LiteralComponent(fs[0], Split(p)[0]);
  }

  /** A pattern without magic matches only the path it spells. */
  lemma {:induction false} LiteralPattern(fs: seq<string>, p: string)
    requires Literal(p) && ComponentsMatch(fs, Split(p))
    ensures fs == Split(p)
    decreases |p|
  {
    SplitHead(p);
    LiteralFirstComponent(fs, p);
    if FirstSlash(p) < |p| {
      LiteralPattern(fs[1..], p[FirstSlash(p) + 1..]);
    }
    assert fs == [fs[0]] + fs[1..];
  }

  lemma PrependPrefix(head: string, a: string, b: string)
    requires a <= b
    ensures head + a <= head + b
  {
  }

  lemma HeadSplits(p: string, i: nat, k: nat)
    requires i < k <= |p| && p[i] == '/'
    ensures p[..i] == p[..k][..i] && p[i + 1..][..k - i - 1] == p[..k][i + 1..]
    ensures p[..k] == (p[..i] + "/") + p[i + 1..][..k - i - 1]
  {
  }

  /** The literal head of a pattern is forced on every path it matches. */
  lemma {:induction false} LiteralHead(fs: seq<string>, p: string, k: nat)
    requires 0 < k <= |p| && p[k - 1] == '/' && Literal(p[..k]) && ComponentsMatch(fs, Split(p))
    ensures p[..k] <= Slashed(fs)
    decreases |p|
  {
    var i := FirstSlash(p);
    SlashBounds(p, k - 1);
    HeadSplits(p, i, k);
    LiteralFirstComponent(fs, p);
    var q := p[i + 1..];
    if i + 1 < k {
      LiteralHead(fs[1..], q, k - i - 1);
    }
    PrependPrefix(fs[0] + "/", q[..k - i - 1], Slashed(fs[1..]));
    assert Slashed(fs) == (fs[0] + "/") + Slashed(fs[1..]);
  }

  lemma {:induction false} UnescapedMagic(p: string)
    requires '\\' !in p
    ensures FirstMagic(p).None? ==> Literal(p)
    ensures FirstMagic(p).Some? ==> Literal(p[..FirstMagic(p).value])
    decreases |p|
  {
    if p != "" && !IsMagic(p[0]) {
      UnescapedMagic(p[1..]);
      assert p == [p[0]] + p[1..];
      if FirstMagic(p).Some? {
        assert p[..FirstMagic(p).value] == [p[0]] + p[1..][..FirstMagic(p).value - 1];
      }
    }
  }

  lemma {:induction false} TrimLeftIsSuffix(s: string)
    ensures |TrimLeft(s)| <= |s| && TrimLeft(s) == s[|s| - |TrimLeft(s)|..]
  {
    if s != "" && s[0] == '/' { TrimLeftIsSuffix(s[1..]); }
  }

  /** Normalising never introduces a character the text did not have, apart from slashes. */
  lemma NormalizeKeepsUnescaped(s: string)
    requires '\\' !in s
    ensures '\\' !in Normalize(s)
    ensures Normalize(s) == "" || (Normalize(s)[0] != '/' && Normalize(s)[|Normalize(s)| - 1] != '/')
  {
    TrimLeftIsSuffix(StripDot(s));
  }

  lemma FirstComponentNamed(path: string, p: string)
    requires TrackedPath(path) && ComponentsMatch(Split(path), Split(p))
    ensures Split(p)[0] != "" && Split(p)[0] != "."
  {
    var c := Split(p)[0];
    assert Literal("") && Literal(".");
    if Literal(c) {
      LiteralIsNoGlobstar(c);
      LiteralComponent(Split(path)[0], c);
      assert Split(path)[0] in Split(path);
    }
  }

  lemma LeadingMark(p: string)
    ensures p != "" && p[0] == '/' ==> Split(p)[0] == ""
    ensures |p| >= 2 && p[..2] == "./" ==> Split(p)[0] == "."
  {
    SplitHead(p);
    if |p| >= 2 && p[..2] == "./" {
      assert p[..2][0] == '.' && p[..2][1] == '/';
      SlashBounds(p, 1);
      assert p[..1] == ".";
    }
  }

  /** Once a pattern matches a tracked path, normalising it again only drops one leading "./". */
  lemma MatchingPatternIsStable(path: string, pattern: string)
    requires TrackedPath(path) && '\\' !in pattern
    requires pattern == "" || (pattern[0] != '/' && pattern[|pattern| - 1] != '/')
    requires GlobMatches(path, pattern)
    ensures Normalize(pattern) == StripDot(pattern) && StripDot(StripDot(pattern)) == StripDot(pattern)
  {
    FirstComponentNamed(path, StripDot(pattern));
    LeadingMark(StripDot(pattern));
  }

  lemma PrefixesOfOneText(a: string, b: string, text: string)
    requires a <= text && b <= text
    ensures a <= b || b <= a
  {
    if |a| <= |b| { assert a == b[..|a|]; } else { assert b == a[..|b|]; }
  }

  lemma MagicSurvivesStripping(pattern: string)
    requires '\\' !in pattern
    ensures FirstMagic(pattern).None? == FirstMagic(StripDot(pattern)).None?
  {
    if |pattern| >= 2 && pattern[..2] == "./" {
      assert pattern[0] == '.' && pattern[1] == '/';
      assert pattern[1..][1..] == pattern[2..];
    }
  }

  lemma LiteralPrefixOfMatch(fs: seq<string>, p: string)
    requires '\\' !in p && ComponentsMatch(fs, Split(p))
    ensures BeforeMagic(p)[..LastSlash(BeforeMagic(p)) + 1] <= Slashed(fs)
  {
    UnescapedMagic(p);
    var prefix := BeforeMagic(p);
    var k := LastSlash(prefix) + 1;
    assert prefix[..k] == p[..k];
    if k > 0 { LiteralHead(fs, p, k); }
  }

  lemma LiteralPrefixForced(path: string, pattern: string)
    requires TrackedPath(path) && '\\' !in pattern
    requires pattern == "" || (pattern[0] != '/' && pattern[|pattern| - 1] != '/')
    requires GlobMatches(path, pattern)
    ensures LiteralPrefix(pattern) <= Slashed(Split(path))
  {
    MatchingPatternIsStable(path, pattern);
    LiteralPrefixOfMatch(Split(path), StripDot(pattern));
  }

  /** If any tracked path is in both patterns, the overlap test says so. */
  lemma OverlapSound(path: string, left: string, right: string)
    requires '\\' !in left && '\\' !in right
    requires TrackedPath(Normalize(path))
    requires MatchesPattern(path, left) && MatchesPattern(path, right)
    ensures PatternsMayOverlap(left, right)
  {
    var p, a, b := Normalize(path), Normalize(left), Normalize(right);
    NormalizeKeepsUnescaped(left);
    NormalizeKeepsUnescaped(right);
    MatchingPatternIsStable(p, a);
    MatchingPatternIsStable(p, b);
    MagicSurvivesStripping(a);
    MagicSurvivesStripping(b);
    if FirstMagic(b).None? {
      UnescapedMagic(StripDot(b));
      LiteralPattern(Split(p), StripDot(b));
      assert MatchesPattern(b, a);
    } else if FirstMagic(a).None? {
      UnescapedMagic(StripDot(a));
      LiteralPattern(Split(p), StripDot(a));
      assert MatchesPattern(a, b);
    } else {
      LiteralPrefixForced(p, a);
      LiteralPrefixForced(p, b);
      PrefixesOfOneText(LiteralPrefix(a), LiteralPrefix(b), Slashed(Split(p)));
    }
  }

  /** Two scopes that share a path are reported as overlapping. */
  lemma SetOverlapSound(path: string, left: seq<string>, right: seq<string>, i: nat, j: nat)
    requires i < |left| && j < |right| && '\\' !in left[i] && '\\' !in right[j]
    requires TrackedPath(Normalize(path))
    requires MatchesPattern(path, left[i]) && MatchesPattern(path, right[j])
    ensures SetsMayOverlap(left, right)
  {
    OverlapSound(path, left[i], right[j]);
  }

  // ---- Precision ----

  lemma {:induction false} LastSlashIsLast(s: string, k: nat)
    requires k < |s| && s[k] == '/'
    ensures k <= LastSlash(s)
    decreases |s|
  {
    if s[|s| - 1] != '/' { LastSlashIsLast(s[..|s| - 1], k); }
  }

  /** The literal prefix is the fixed text up to the last slash in front of the first glob character. */
  lemma LiteralPrefixIs(pattern: string)
    requires '\\' !in pattern
    ensures var p, q := Normalize(pattern), LiteralPrefix(pattern);
            && q <= p && Literal(q) && (q == "" || q[|q| - 1] == '/')
            && forall k | |q| < k <= |p| && p[k - 1] == '/' :: !Literal(p[..k])
  {
    var p := Normalize(pattern);
    NormalizeKeepsUnescaped(pattern);
    UnescapedMagic(p);
    var prefix := BeforeMagic(p);
    forall k | |LiteralPrefix(pattern)| < k <= |p| && p[k - 1] == '/' ensures !Literal(p[..k]) {
      if k <= |prefix| { LastSlashIsLast(prefix, k - 1); } else { assert p[..k][|prefix|] == p[|prefix|]; }
    }
  }

  lemma SlashedFirst(c: string, cs: seq<string>)
    ensures Slashed([c] + cs) == c + "/" + Slashed(cs)
  {
    assert ([c] + cs)[1..] == cs;
  }

  lemma {:induction false} SplitJoins(p: string)
    ensures Slashed(Split(p)) == p + "/"
    decreases |p|
  {
    var i := FirstSlash(p);
    if i < |p| {
      SplitFirst(p);
      SplitJoins(p[i + 1..]);
      SlashedFirst(p[..i], Split(p[i + 1..]));
      assert p == p[..i] + "/" + p[i + 1..];
    } else {
      SplitHead(p);
      SlashedFirst(p, []);
      assert [p] + [] == [p];
    }
  }

  /** A pattern that reads as normalised text. */
  ghost predicate Plain(p: string) {
    '\\' !in p && Normalize(p) == p && StripDot(p) == p
  }

  lemma MatchedHasPrefix(a: string, b: string)
    requires Plain(a) && Plain(b) && MatchesPattern(a, b)
    ensures LiteralPrefix(b) <= a + "/"
  {
    LiteralPrefixOfMatch(Split(a), b);
    SplitJoins(a);
  }

  lemma ShortOfMagic(q: string, text: string, k: nat)
    requires q <= text && Literal(q) && k < |text| && IsMagic(text[k])
    ensures |q| <= k
  {
  }

  lemma PrefixWithin(q: string, a: string)
    requires q <= a + "/" && FirstMagic(a).Some? && Literal(q) && '\\' !in a
    ensures q <= a
  {
    ShortOfMagic(q, a + "/", FirstMagic(a).value);
    assert q == (a + "/")[..|q|] == a[..|q|];
  }

  /** Two globs overlap, as far as the test can tell, exactly when the directory of one is within that of the
      other; so a scope is never refused for one in another directory. */
  lemma GlobsOverlapExactly(a: string, b: string)
    requires Plain(a) && Plain(b) && FirstMagic(a).Some? && FirstMagic(b).Some?
    ensures PatternsMayOverlap(a, b) <==> LiteralPrefix(a) <= LiteralPrefix(b) || LiteralPrefix(b) <= LiteralPrefix(a)
  {
    LiteralPrefixIs(a);
    LiteralPrefixIs(b);
    if MatchesPattern(a, b) {
      MatchedHasPrefix(a, b);
      PrefixWithin(LiteralPrefix(b), a);
      PrefixesOfOneText(LiteralPrefix(a), LiteralPrefix(b), a);
    }
    if MatchesPattern(b, a) {
      MatchedHasPrefix(b, a);
      PrefixWithin(LiteralPrefix(a), b);
      PrefixesOfOneText(LiteralPrefix(a), LiteralPrefix(b), b);
    }
  }

  /** A path overlaps a pattern exactly when the pattern matches it, and another path only if it is the same. */
  lemma PathOverlapsExactly(a: string, b: string)
    requires Plain(a) && Plain(b) && FirstMagic(a).None?
    ensures FirstMagic(b).Some? ==> (PatternsMayOverlap(a, b) <==> MatchesPattern(a, b))
    ensures FirstMagic(b).None? ==> (PatternsMayOverlap(a, b) <==> a == b)
  {
    UnescapedMagic(a);
    if MatchesPattern(b, a) {
      LiteralPattern(Split(b), a);
      SameComponents(a, b);
    }
    if FirstMagic(b).None? && MatchesPattern(a, b) {
      UnescapedMagic(b);
      LiteralPattern(Split(a), b);
      SameComponents(a, b);
    }
  }

  lemma SameComponents(a: string, b: string)
    requires Split(a) == Split(b)
    ensures a == b
  {
    SplitJoins(a);
    SplitJoins(b);
    assert a == (a + "/")[..|a + "/"| - 1] && b == (b + "/")[..|b + "/"| - 1];
  }
}
