/** Strings as the source uses them: concatenation, the standard library's
    `splitlines`, `strip`, `split(" ")` and decimal formatting. */
module Text {

  datatype Option<+T> = None | Some(value: T) {
    function GetOr(default: T): T {
      match this
      case None => default
      case Some(v) => v
    }
  }

  lemma Associate<T>(a: seq<T>, b: seq<T>, c: seq<T>)
    ensures (a + b) + c == a + (b + c)
  {
  }

  function Map<A, B>(f: A -> B, xs: seq<A>): (r: seq<B>)
    ensures |r| == |xs| && forall i :: 0 <= i < |xs| ==> r[i] == f(xs[i])
  {
    seq(|xs|, i requires 0 <= i < |xs| => f(xs[i]))
  }

  /** A loop that appends what each element yields. */
  function FlatMap<A, B>(f: A -> seq<B>, xs: seq<A>): seq<B> {
    if xs == [] then [] else f(xs[0]) + FlatMap(f, xs[1..])
  }

  lemma {:induction false} FlatMapAppend<A, B>(f: A -> seq<B>, a: seq<A>, b: seq<A>)
    ensures FlatMap(f, a + b) == FlatMap(f, a) + FlatMap(f, b)
  {
    if a == [] {
      assert a + b == b;
    } else {
      assert (a + b)[0] == a[0] && (a + b)[1..] == a[1..] + b;
      FlatMapAppend(f, a[1..], b);
      Associate(f(a[0]), FlatMap(f, a[1..]), FlatMap(f, b));
    }
  }

  lemma FlatMapOne<A, B>(f: A -> seq<B>, x: A)
    ensures FlatMap(f, [x]) == f(x)
  {
    assert [x][1..] == [];
  }

  lemma FlatMapSnoc<A, B>(f: A -> seq<B>, a: seq<A>, x: A)
    ensures FlatMap(f, a + [x]) == FlatMap(f, a) + f(x)
  {
    FlatMapAppend(f, a, [x]);
    FlatMapOne(f, x);
  }

  /** A loop over `enumerate(xs)`, counting from `start`. */
  function FlatMapIndexed<A, B>(f: (A, nat) -> seq<B>, xs: seq<A>, start: nat): seq<B>
    decreases |xs|
  {
    if xs == [] then [] else f(xs[0], start) + FlatMapIndexed(f, xs[1..], start + 1)
  }

  lemma {:induction false} FlatMapIndexedAppend<A, B>(f: (A, nat) -> seq<B>, a: seq<A>, b: seq<A>, start: nat)
    ensures FlatMapIndexed(f, a + b, start) == FlatMapIndexed(f, a, start) + FlatMapIndexed(f, b, start + |a|)
    decreases |a|
  {
    if a == [] {
      assert a + b == b;
    } else {
      FlatMapIndexedAppend(f, a[1..], b, start + 1);
      assert (a + b)[1..] == a[1..] + b;
      Associate(f(a[0], start), FlatMapIndexed(f, a[1..], start + 1), FlatMapIndexed(f, b, start + |a|));
    }
  }

  ghost predicate NoneHolds<T>(p: T -> bool, xs: seq<T>) {
    forall i :: 0 <= i < |xs| ==> !p(xs[i])
  }

  /** Position of the first element on which `p` holds, `|xs|` when there is none. */
  function FirstIndex<T>(p: T -> bool, xs: seq<T>): (k: nat)
    ensures k <= |xs| && NoneHolds(p, xs[..k])
    ensures k < |xs| ==> p(xs[k])
  {
    if xs == [] || p(xs[0]) then 0
    else
      var k := 1 + FirstIndex(p, xs[1..]);
      assert xs[..k] == [xs[0]] + xs[1..][..k - 1];
      k
  }

  lemma {:induction false} FirstIndexUnique<T>(p: T -> bool, xs: seq<T>, k: nat)
    requires k <= |xs| && NoneHolds(p, xs[..k]) && (k < |xs| ==> p(xs[k]))
    ensures FirstIndex(p, xs) == k
  {
    if k == 0 {
    } else {
      assert xs[..k][0] == xs[0];
      assert xs[1..][..k - 1] == xs[..k][1..];
      FirstIndexUnique(p, xs[1..], k - 1);
    }
  }

  /** The elements up to and including the first on which `ends` holds. */
  function Through<T>(ends: T -> bool, xs: seq<T>): seq<T> {
    if xs == [] then []
    else if ends(xs[0]) then [xs[0]]
    else [xs[0]] + Through(ends, xs[1..])
  }

  lemma {:induction false} ThroughIsPrefix<T>(ends: T -> bool, xs: seq<T>)
    ensures var some := Through(ends, xs);
            && some <= xs
            && (forall i :: 0 <= i < |some| - 1 ==> !ends(some[i]))
            && (some != xs ==> some != [] && ends(some[|some| - 1]))
  {
    if xs != [] && !ends(xs[0]) {
      ThroughIsPrefix(ends, xs[1..]);
    }
  }

  lemma {:induction false} ThroughSkips<T>(ends: T -> bool, clean: seq<T>, rest: seq<T>)
    requires NoneHolds(ends, clean)
    ensures Through(ends, clean + rest) == clean + Through(ends, rest)
  {
    if clean == [] {
      assert clean + rest == rest;
    } else {
      ThroughSkips(ends, clean[1..], rest);
      assert (clean + rest)[1..] == clean[1..] + rest;
    }
  }

  function Same<T>(part: seq<T>): seq<T> { part }

  /** `"".join(parts)`, and concatenation of lists in general. */
  function Flatten<T>(parts: seq<seq<T>>): seq<T> {
    FlatMap<seq<T>, T>(Same, parts)
  }

  lemma FlattenAppend<T>(a: seq<seq<T>>, b: seq<seq<T>>)
    ensures Flatten(a + b) == Flatten(a) + Flatten(b)
  {
    FlatMapAppend<seq<T>, T>(Same, a, b);
  }

  lemma FlattenCons<T>(x: seq<T>, rest: seq<seq<T>>)
    ensures Flatten([x] + rest) == x + Flatten(rest)
  {
    assert ([x] + rest)[1..] == rest;
  }

  /** `sep.join(parts)`. */
  function Join(sep: string, parts: seq<string>): string {
    if parts == [] then ""
    else if |parts| == 1 then parts[0]
    else parts[0] + sep + Join(sep, parts[1..])
  }

  // ---------------------------------------------------------------- lines

  /** The characters at which `str.splitlines` ends a line. */
  predicate IsLineBreak(c: char) {
    || c == '\n' || c == '\r' || c == '\U{000B}' || c == '\U{000C}'
    || c == '\U{001C}' || c == '\U{001D}' || c == '\U{001E}'
    || c == '\U{0085}' || c == '\U{2028}' || c == '\U{2029}'
  }

  ghost predicate BreakFree(s: string) {
    NoneHolds(IsLineBreak, s)
  }

  /** Position of the first line break, `|s|` when there is none. */
  function FirstBreak(s: string): (i: nat)
    ensures i <= |s| && BreakFree(s[..i])
    ensures i < |s| ==> IsLineBreak(s[i])
  {
    FirstIndex(IsLineBreak, s)
  }

  /** Where the line after the break at `i` starts: `\r\n` is one break. */
  function AfterBreak(s: string, i: nat): (k: nat)
    requires i < |s|
    ensures i < k <= |s|
  {
    if s[i] == '\r' && i + 1 < |s| && s[i + 1] == '\n' then i + 2 else i + 1
  }

  /** `s.splitlines()`. */
  function SplitLines(s: string): seq<string>
    decreases |s|
  {
    if s == "" then [] else
    var i := FirstBreak(s);
    if i == |s| then [s] else [s[..i]] + SplitLines(s[AfterBreak(s, i)..])
  }

  lemma {:induction false} SplitLinesBreakFree(s: string)
    ensures forall k :: 0 <= k < |SplitLines(s)| ==> BreakFree(SplitLines(s)[k])
    decreases |s|
  {
    if s == "" {
    } else {
      var i := FirstBreak(s);
      if i == |s| {
        assert s[..i] == s;
      } else {
        SplitLinesBreakFree(s[AfterBreak(s, i)..]);
      }
    }
  }

  /** A complete first line is split off unchanged. */
  lemma SplitFirstLine(line: string, rest: string)
    requires BreakFree(line)
    ensures SplitLines(line + "\n" + rest) == [line] + SplitLines(rest)
  {
    var s := line + "\n" + rest;
    assert s[..|line|] == line;
    assert s[|line|] == '\n';
    FirstIndexUnique(IsLineBreak, s, |line|);
    assert s[|line| + 1..] == rest;
  }

  function NonBlankLine(line: string): seq<string> {
    if line == "" then [] else [line]
  }

  function NonBlank(lines: seq<string>): seq<string> {
    FlatMap(NonBlankLine, lines)
  }

  lemma NonBlankCons(line: string, rest: seq<string>)
    ensures NonBlank([line] + rest) == NonBlankLine(line) + NonBlank(rest)
  {
    assert ([line] + rest)[1..] == rest;
  }

  /** Splitting at a break that is already found. */
  lemma SplitAtBreak(s: string, i: nat)
    requires i < |s| && BreakFree(s[..i]) && IsLineBreak(s[i])
    ensures NonBlank(SplitLines(s)) == NonBlankLine(s[..i]) + NonBlank(SplitLines(s[AfterBreak(s, i)..]))
  {
    FirstIndexUnique(IsLineBreak, s, i);
    NonBlankCons(s[..i], SplitLines(s[AfterBreak(s, i)..]));
  }

  predicate EndsInReturn(a: string, i: nat)
    requires i < |a|
  {
    a[i] == '\r' && i + 1 == |a|
  }

  lemma SuffixAcrossNewline(a: string, b: string, i: nat)
    requires i < |a|
    ensures var s := a + "\n" + b;
            s[AfterBreak(s, i)..] == if EndsInReturn(a, i) then b else a[AfterBreak(a, i)..] + "\n" + b
  {
  }

  /** The first break of `a` stays the first break of `a + "\n" + b`. */
  lemma BreakInside(a: string, b: string, i: nat)
    requires i < |a| && BreakFree(a[..i]) && IsLineBreak(a[i])
    ensures NonBlank(SplitLines(a + "\n" + b))
         == NonBlankLine(a[..i])
            + NonBlank(SplitLines(if EndsInReturn(a, i) then b else a[AfterBreak(a, i)..] + "\n" + b))
  {
    var s := a + "\n" + b;
    assert s[..i] == a[..i];
    SuffixAcrossNewline(a, b, i);
    SplitAtBreak(s, i);
  }

  lemma NewlineAfterUnbroken(a: string, b: string)
    requires BreakFree(a)
    ensures NonBlank(SplitLines(a + "\n" + b)) == NonBlankLine(a) + NonBlank(SplitLines(b))
  {
    SplitFirstLine(a, b);
    NonBlankCons(a, SplitLines(b));
  }

  /** A newline between two texts separates their lines, whatever breaks the
      texts themselves hold, up to blank lines. */
  lemma {:induction false} SplitLinesAcrossNewline(a: string, b: string)
    ensures NonBlank(SplitLines(a + "\n" + b)) == NonBlank(SplitLines(a)) + NonBlank(SplitLines(b))
    decreases |a|
  {
    var i := FirstBreak(a);
    if i == |a| {
      assert a[..i] == a;
      NewlineAfterUnbroken(a, b);
      SplitUnbroken(a);
    } else {
      SplitAtBreak(a, i);
      BreakInside(a, b, i);
      if EndsInReturn(a, i) {
        assert a[AfterBreak(a, i)..] == "" && NonBlank(SplitLines("")) == [];
        assert [] + NonBlank(SplitLines(b)) == NonBlank(SplitLines(b));
      } else {
        SplitLinesAcrossNewline(a[AfterBreak(a, i)..], b);
      }
      Associate(NonBlankLine(a[..i]), NonBlank(SplitLines(a[AfterBreak(a, i)..])), NonBlank(SplitLines(b)));
    }
  }

  lemma SplitUnbroken(a: string)
    requires FirstBreak(a) == |a|
    ensures NonBlank(SplitLines(a)) == NonBlankLine(a)
  {
    if a != "" {
      FlatMapOne(NonBlankLine, a);
    }
  }

  // ------------------------------------------------- strip, lower, prefixes

  predicate StartsWith(s: string, prefix: string) {
    prefix <= s
  }

  /** The characters `str.strip` removes. */
  predicate IsSpace(c: char) {
    || IsLineBreak(c) || c == '\t' || c == ' ' || c == '\U{001F}' || c == '\U{00A0}'
    || c == '\U{1680}' || '\U{2000}' <= c <= '\U{200A}' || c == '\U{202F}'
    || c == '\U{205F}' || c == '\U{3000}'
  }

  /** `s` without the elements at its two ends on which `p` holds. */
  function StripBy<T>(p: T -> bool, s: seq<T>): seq<T>
    decreases |s|
  {
    if s == [] then s
    else if p(s[0]) then StripBy(p, s[1..])
    else if p(s[|s| - 1]) then StripBy(p, s[..|s| - 1])
    else s
  }

  function Strip(s: string): string {
    StripBy(IsSpace, s)
  }

  /** `str.lower` on ASCII letters. No other character lowers to a letter of a
      role name the source compares with. */
  function Lower(s: string): string {
    if s == "" then ""
    else [if 'A' <= s[0] <= 'Z' then s[0] - 'A' + 'a' else s[0]] + Lower(s[1..])
  }

  // -------------------------------------------------------- split on spaces

  /** `s.split(" ")`: never empty, and keeps empty words. */
  function SplitSpaces(s: string): (words: seq<string>)
    ensures words != []
  {
    if s == "" then [""]
    else
      var rest := SplitSpaces(s[1..]);
      if s[0] == ' ' then [""] + rest else [[s[0]] + rest[0]] + rest[1..]
  }

  /** Words with a separate " " token between neighbours. */
  function Spaced(words: seq<string>): seq<string> {
    if |words| <= 1 then words else [words[0], " "] + Spaced(words[1..])
  }

  /** Splitting on spaces and putting the spaces back loses nothing. */
  lemma {:induction false} SplitSpacesRejoin(s: string)
    ensures Flatten(Spaced(SplitSpaces(s))) == s
  {
    if s == "" {
      assert Spaced([""]) == [""] && Flatten([""]) == "" + Flatten<char>([]);
    } else {
      SplitSpacesRejoin(s[1..]);
      var rest := SplitSpaces(s[1..]);
      var words := SplitSpaces(s);
      if s[0] == ' ' {
        assert words[1..] == rest;
        assert Spaced(words) == [""] + ([" "] + Spaced(rest));
        assert Flatten([""] + ([" "] + Spaced(rest))) == "" + Flatten([" "] + Spaced(rest));
        assert ([" "] + Spaced(rest))[1..] == Spaced(rest);
      } else {
        FlattenHead([s[0]], rest);
      }
    }
  }

  function SpacedTail(words: seq<string>): seq<string>
    requires words != []
  {
    if |words| == 1 then [] else [" "] + Spaced(words[1..])
  }

  lemma SpacedHead(word: string, rest: seq<string>)
    ensures Spaced([word] + rest) == [word] + SpacedTail([word] + rest)
  {
    assert ([word] + rest)[1..] == rest;
  }

  lemma FlattenHead(c: string, words: seq<string>)
    requires words != []
    ensures Flatten(Spaced([c + words[0]] + words[1..])) == c + Flatten(Spaced(words))
  {
    var rest := words[1..];
    assert words == [words[0]] + rest;
    SpacedHead(c + words[0], rest);
    SpacedHead(words[0], rest);
    var tail := SpacedTail(words);
    assert ([c + words[0]] + rest)[1..] == rest;
    FlattenCons(c + words[0], tail);
    FlattenCons(words[0], tail);
    Associate(c, words[0], Flatten(tail));
  }

  // ---------------------------------------------------------------- numbers

  /** `str(n)` for a non-negative number. */
  function Decimal(n: nat): string {
    if n < 10 then [('0' as int + n) as char] else Decimal(n / 10) + [('0' as int + n % 10) as char]
  }
}
