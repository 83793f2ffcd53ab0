/** What the string functions of `Text` compute, told without them: the promises
    of Python's `splitlines`, `strip`, `lower`, `split(" ")`, `join` and `str`. */
module TextMeaning {
  import opened Text

  // ---------------------------------------------------------------- line breaks

  const BREAKS: set<char> := {'\n', '\r', '\U{000B}', '\U{000C}', '\U{001C}', '\U{001D}', '\U{001E}',
                              '\U{0085}', '\U{2028}', '\U{2029}'}

  ghost predicate OneLine(s: string) {
    forall i :: 0 <= i < |s| ==> s[i] !in BREAKS
  }

  lemma OneLineIsBreakFree(s: string)
    ensures OneLine(s) <==> BreakFree(s)
  {
    if OneLine(s) {
      forall i | 0 <= i < |s| ensures !IsLineBreak(s[i]) {
        assert s[i] !in BREAKS;
      }
    } else {
      var i :| 0 <= i < |s| && s[i] in BREAKS;
      assert IsLineBreak(s[i]);
    }
  }

  /** Text without a break is one line; any of the ten breaks ends a line, and the
      rest is split on its own; a carriage return and a newline are one break. */
  lemma SplitLinesMeaning(line: string, rest: string)
    requires OneLine(line)
    ensures line != "" ==> SplitLines(line) == [line]
    ensures SplitLines("") == []
    ensures forall c :: c in BREAKS && !(c == '\r' && rest != "" && rest[0] == '\n')
              ==> SplitLines(line + [c] + rest) == [line] + SplitLines(rest)
    ensures SplitLines(line + "\r\n" + rest) == [line] + SplitLines(rest)
  {
    OneLineIsBreakFree(line);
    assert line[..|line|] == line;
    FirstIndexUnique(IsLineBreak, line, |line|);
    forall c | c in BREAKS && !(c == '\r' && rest != "" && rest[0] == '\n')
      ensures SplitLines(line + [c] + rest) == [line] + SplitLines(rest)
    {
      SplitAt(line, [c], rest);
    }
    SplitAt(line, "\r\n", rest);
  }

  lemma SplitAt(line: string, mark: string, rest: string)
    requires BreakFree(line) && mark != "" && IsLineBreak(mark[0])
    requires mark == "\r\n" || (|mark| == 1 && !(mark[0] == '\r' && rest != "" && rest[0] == '\n'))
    ensures SplitLines(line + mark + rest) == [line] + SplitLines(rest)
  {
    var s, i := line + mark + rest, |line|;
    assert s[..i] == line && s[i] == mark[0];
    FirstIndexUnique(IsLineBreak, s, i);
    assert i + 1 < |s| ==> s[i + 1] == if |mark| == 2 then mark[1] else rest[0];
    assert s[i + |mark|..] == rest;
  }

  // ---------------------------------------------------------------------- strip

  /** The white space of `str.strip`. */
  const SPACES: set<char> :=
    BREAKS + {'\t', ' ', '\U{001F}', '\U{00A0}', '\U{1680}', '\U{2000}', '\U{2001}', '\U{2002}', '\U{2003}',
              '\U{2004}', '\U{2005}', '\U{2006}', '\U{2007}', '\U{2008}', '\U{2009}', '\U{200A}', '\U{202F}',
              '\U{205F}', '\U{3000}'}

  lemma SpacesAreSpaces(c: char)
    ensures c in SPACES <==> IsSpace(c)
  {
  }

  ghost predicate AllHold<T>(p: T -> bool, s: seq<T>) {
    forall i :: 0 <= i < |s| ==> p(s[i])
  }

  /** `core`, with elements around it on which `p` holds, and none such at its own
      ends. */
  ghost predicate StrippedBy<T>(p: T -> bool, s: seq<T>, before: seq<T>, core: seq<T>, after: seq<T>) {
    && s == before + core + after && AllHold(p, before) && AllHold(p, after)
    && (core != [] ==> !p(core[0]) && !p(core[|core| - 1]))
  }

  lemma {:induction false} StripByMeaning<T>(p: T -> bool, s: seq<T>) returns (before: seq<T>, after: seq<T>)
    ensures StrippedBy(p, s, before, StripBy(p, s), after)
    decreases |s|
  {
    if s == [] {
      before, after := [], [];
    } else if p(s[0]) {
      before, after := StripByMeaning(p, s[1..]);
      before := [s[0]] + before;
      assert s == [s[0]] + s[1..];
    } else if p(s[|s| - 1]) {
      before, after := StripByMeaning(p, s[..|s| - 1]);
      after := after + [s[|s| - 1]];
      assert s == s[..|s| - 1] + [s[|s| - 1]];
    } else {
      before, after := [], [];
      assert [] + s + [] == s;
    }
  }

  lemma {:induction false} StripByUnique<T>(p: T -> bool, s: seq<T>, before: seq<T>, core: seq<T>, after: seq<T>)
    requires StrippedBy(p, s, before, core, after)
    ensures StripBy(p, s) == core
    decreases |s|
  {
    if s == [] {
    } else if before != [] {
      assert s[0] == before[0] && s[1..] == before[1..] + core + after;
      StripByUnique(p, s[1..], before[1..], core, after);
    } else if core == [] {
      assert s == after;
      assert s[1..] == [] + core + after[1..];
      StripByUnique(p, s[1..], [], core, after[1..]);
    } else if after != [] {
      assert s[0] == core[0] && s[|s| - 1] == after[|after| - 1];
      assert s[..|s| - 1] == before + core + after[..|after| - 1];
      StripByUnique(p, s[..|s| - 1], before, core, after[..|after| - 1]);
    } else {
      assert s == core;
    }
  }

  ghost predicate Blank(s: string) {
    forall i :: 0 <= i < |s| ==> s[i] in SPACES
  }

  lemma BlankIff(s: string)
    ensures Blank(s) <==> AllHold(IsSpace, s)
  {
    forall i | 0 <= i < |s| ensures s[i] in SPACES <==> IsSpace(s[i]) {
      SpacesAreSpaces(s[i]);
    }
  }

  /** `core` with white space around it, and none at its own ends. */
  ghost predicate Stripped(s: string, before: string, core: string, after: string) {
    && s == before + core + after && Blank(before) && Blank(after)
    && (core != "" ==> core[0] !in SPACES && core[|core| - 1] !in SPACES)
  }

  lemma StrippedIff(s: string, before: string, core: string, after: string)
    ensures Stripped(s, before, core, after) <==> StrippedBy(IsSpace, s, before, core, after)
  {
    BlankIff(before);
    BlankIff(after);
    if core != "" {
      SpacesAreSpaces(core[0]);
      SpacesAreSpaces(core[|core| - 1]);
    }
  }

  /** Stripping leaves exactly the text without the white space at its two ends. */
  lemma StripMeaning(s: string, core: string)
    ensures Strip(s) == core <==> exists before, after :: Stripped(s, before, core, after)
  {
    if Strip(s) == core {
      var before, after := StripByMeaning(IsSpace, s);
      StrippedIff(s, before, core, after);
    }
    forall before, after | Stripped(s, before, core, after) ensures Strip(s) == core {
      StrippedIff(s, before, core, after);
      StripByUnique(IsSpace, s, before, core, after);
    }
  }

  /** Nothing is left exactly of a blank text. */
  lemma StripEmptyIff(s: string)
    ensures Strip(s) == "" <==> Blank(s)
  {
    StripMeaning(s, "");
    if Blank(s) {
      assert Stripped(s, s, "", "");
    }
    if Strip(s) == "" {
      var before, after :| Stripped(s, before, "", after);
      assert s == before + after;
      BlankAppend(before, after);
    }
  }

  lemma BlankAppend(a: string, b: string)
    requires Blank(a) && Blank(b)
    ensures Blank(a + b)
  {
  }

  // ---------------------------------------------------------------------- lower

  /** The small letter itself, or its capital. */
  predicate SameLetter(c: char, letter: char) {
    c == letter || ('A' <= c <= 'Z' && c as int + 32 == letter as int)
  }

  /** The word in any mixture of small and capital letters. */
  ghost predicate SpellsWord(s: string, word: string) {
    |s| == |word| && forall i :: 0 <= i < |s| ==> SameLetter(s[i], word[i])
  }

  lemma {:induction false} LowerMeaning(s: string, word: string)
    requires forall i :: 0 <= i < |word| ==> 'a' <= word[i] <= 'z'
    ensures Lower(s) == word <==> SpellsWord(s, word)
    decreases |s|
  {
    if s == "" {
    } else if word == "" {
    } else {
      LowerMeaning(s[1..], word[1..]);
      assert s == [s[0]] + s[1..] && word == [word[0]] + word[1..];
      SpellsCons(s[0], s[1..], word[0], word[1..]);
      ConsEqual(Lower(s)[0], Lower(s[1..]), word[0], word[1..]);
    }
  }

  lemma SpellsCons(c: char, s: string, letter: char, word: string)
    ensures SpellsWord([c] + s, [letter] + word) <==> SameLetter(c, letter) && SpellsWord(s, word)
  {
    var t, w := [c] + s, [letter] + word;
    assert t[0] == c && w[0] == letter && t[1..] == s && w[1..] == word;
    if SpellsWord(t, w) {
      forall i | 0 <= i < |s| ensures SameLetter(s[i], word[i]) {
        assert SameLetter(t[i + 1], w[i + 1]);
      }
    }
  }

  lemma ConsEqual<T>(a: T, s: seq<T>, b: T, t: seq<T>)
    ensures [a] + s == [b] + t <==> a == b && s == t
  {
    if [a] + s == [b] + t {
      assert a == ([a] + s)[0] == b && s == ([a] + s)[1..] == t;
    }
  }

  // -------------------------------------------------------------- join and split

  /** Joining puts the separator between neighbours, and nowhere else. */
  lemma {:induction false} JoinMeaning(sep: string, a: seq<string>, b: seq<string>)
    requires a != [] && b != []
    ensures Join(sep, a + b) == Join(sep, a) + sep + Join(sep, b)
    ensures Join(sep, []) == "" && forall x :: Join(sep, [x]) == x
  {
    if |a| == 1 {
      assert (a + b)[1..] == b;
    } else {
      JoinMeaning(sep, a[1..], b);
      assert (a + b)[1..] == a[1..] + b;
    }
  }

  ghost predicate SpaceFree(words: seq<string>) {
    forall i :: 0 <= i < |words| ==> ' ' !in words[i]
  }

  lemma {:induction false} SplitSpacesMeaning(s: string)
    ensures Join(" ", SplitSpaces(s)) == s && SpaceFree(SplitSpaces(s))
  {
    if s == "" {
    } else {
      SplitSpacesMeaning(s[1..]);
      var rest := SplitSpaces(s[1..]);
      assert s == [s[0]] + s[1..];
      if s[0] == ' ' {
        JoinMeaning(" ", [""], rest);
      } else {
        JoinHead([s[0]], rest);
      }
    }
  }

  lemma JoinHead(c: string, words: seq<string>)
    requires words != []
    ensures Join(" ", [c + words[0]] + words[1..]) == c + Join(" ", words)
  {
    var rest := words[1..];
    assert words == [words[0]] + rest;
    if rest != [] {
      JoinMeaning(" ", [c + words[0]], rest);
      JoinMeaning(" ", [words[0]], rest);
    } else {
      assert [c + words[0]] + rest == [c + words[0]];
    }
  }

  /** A text is split into the words it was joined of. */
  lemma {:induction false} SplitOfJoin(words: seq<string>)
    requires words != [] && SpaceFree(words)
    ensures SplitSpaces(Join(" ", words)) == words
    decreases |words|, if words == [] then 0 else |words[0]|
  {
    var word, rest := words[0], words[1..];
    assert words == [word] + rest;
    if word != "" {
      var shorter := [word[1..]] + rest;
      assert forall i :: 0 < i < |words| ==> shorter[i] == words[i];
      assert shorter[0] == word[1..] && word == [word[0]] + word[1..] && shorter[1..] == rest;
      SplitOfJoin(shorter);
      JoinHead([word[0]], shorter);
      assert [[word[0]] + shorter[0]] + shorter[1..] == words;
      assert Join(" ", words)[0] == word[0] && Join(" ", words)[1..] == Join(" ", shorter);
    } else if rest != [] {
      SplitOfJoin(rest);
      JoinMeaning(" ", [""], rest);
      assert Join(" ", words) == " " + Join(" ", rest);
      assert (" " + Join(" ", rest))[1..] == Join(" ", rest);
    } else {
      assert Join(" ", words) == "";
    }
  }

  /** Words at the even positions, one space at each odd one. */
  lemma {:induction false} SpacedMeaning(words: seq<string>)
    requires words != []
    ensures |Spaced(words)| == 2 * |words| - 1
    ensures forall i :: 0 <= i < |words| ==> Spaced(words)[2 * i] == words[i]
    ensures forall i :: 0 <= i < |words| - 1 ==> Spaced(words)[2 * i + 1] == " "
  {
    if |words| == 1 {
    } else {
      SpacedMeaning(words[1..]);
      var rest, all := Spaced(words[1..]), Spaced(words);
      assert forall k :: 0 <= k < |rest| ==> all[k + 2] == rest[k];
      forall i | 0 <= i < |words| ensures all[2 * i] == words[i] {
        if i > 0 {
          assert all[2 * i] == rest[2 * (i - 1)] == words[1..][i - 1];
        }
      }
      forall i | 0 <= i < |words| - 1 ensures all[2 * i + 1] == " " {
        if i > 0 {
          assert all[2 * i + 1] == rest[2 * (i - 1) + 1];
        }
      }
    }
  }

  // --------------------------------------------------------------------- numbers

  /** The number a text of decimal digits stands for. */
  function NumberOf(digits: string): int {
    if digits == "" then 0
    else
      var n := |digits| - 1;
      10 * NumberOf(digits[..n]) + (digits[n] as int - '0' as int)
  }

  /** The digits of the number, without leading zeros. */
  lemma {:induction false} DecimalMeaning(n: nat)
    ensures NumberOf(Decimal(n)) == n
    ensures Decimal(n) != "" && forall i :: 0 <= i < |Decimal(n)| ==> '0' <= Decimal(n)[i] <= '9'
    ensures Decimal(n)[0] == '0' ==> n == 0
  {
    if n < 10 {
      assert Decimal(n)[..0] == "";
    } else {
      DecimalMeaning(n / 10);
      var text := Decimal(n);
      assert text[..|text| - 1] == Decimal(n / 10);
    }
  }

  // ----------------------------------------------------------------------- roles

  /** A role that is the word, but for capitals and white space around it. */
  ghost predicate Names(role: string, word: string) {
    exists before, core, after :: Stripped(role, before, core, after) && SpellsWord(core, word)
  }

  lemma RoleMeaning(role: string, word: string)
    requires forall i :: 0 <= i < |word| ==> 'a' <= word[i] <= 'z'
    ensures Lower(Strip(role)) == word <==> Names(role, word)
  {
    LowerMeaning(Strip(role), word);
    StripMeaning(role, Strip(role));
    forall before, core, after | Stripped(role, before, core, after) ensures core == Strip(role) {
      StripMeaning(role, core);
    }
  }

  /** A word names itself. */
  lemma WordNamesItself(word: string)
    requires forall i :: 0 <= i < |word| ==> 'a' <= word[i] <= 'z'
    ensures Names(word, word)
  {
    assert forall i :: 0 <= i < |word| ==> word[i] !in SPACES;
    assert word == "" + word + "";
    assert Stripped(word, "", word, "");
  }
}
