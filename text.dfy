/** Python's `str` operations that the loaders and preprocessors use, on `seq<char>`. */
module Text {

  /** Characters that Python's `str.isspace()` accepts (and `strip()`/`split()` remove). */
  predicate IsSpace(c: char) {
    c == ' ' || ('\t' <= c <= '\r') || ('\U{1c}' <= c <= '\U{1f}') || c == '\U{85}' || c == '\U{a0}'
    || c == '\U{1680}' || ('\U{2000}' <= c <= '\U{200a}') || c == '\U{2028}' || c == '\U{2029}'
    || c == '\U{202f}' || c == '\U{205f}' || c == '\U{3000}'
  }

  /** ASCII decimal digit. */
  predicate IsDigit(c: char) {
    '0' <= c <= '9'
  }

  /** `s.lstrip()`. */
  function StripLeft(s: string): (r: string)
    ensures |r| <= |s| && r == s[|s| - |r|..]
    ensures r != [] ==> !IsSpace(r[0])
    ensures forall i :: 0 <= i < |s| - |r| ==> IsSpace(s[i])
  {
    if s != [] && IsSpace(s[0]) then StripLeft(s[1..]) else s
  }

  /** `s.rstrip()`. */
  function StripRight(s: string): (r: string)
    ensures |r| <= |s| && r == s[..|r|]
    ensures r != [] ==> !IsSpace(r[|r| - 1])
    ensures forall i :: |r| <= i < |s| ==> IsSpace(s[i])
  {
    if s != [] && IsSpace(s[|s| - 1]) then StripRight(s[..|s| - 1]) else s
  }

  /** `s.strip()`: the longest infix of `s` that neither starts nor ends with whitespace. */
  function Strip(s: string): (r: string)
  {
    StripRight(StripLeft(s))
  }

  /** Number of leading whitespace characters `lstrip()` removes. */
  function LeadingSpaces(s: string): (n: nat)
    ensures n <= |s|
  {
    |s| - |StripLeft(s)|
  }

  /** What `strip()` keeps and drops: an infix of `s` with no whitespace at its ends,
      and only whitespace cut away around it. */
  lemma StripInfix(s: string)
    ensures var r, i := Strip(s), LeadingSpaces(s);
      && i + |r| <= |s| && r == s[i..i + |r|]
      && (forall k :: 0 <= k < i ==> IsSpace(s[k]))
      && (forall k :: i + |r| <= k < |s| ==> IsSpace(s[k]))
      && (r != [] ==> !IsSpace(r[0]) && !IsSpace(r[|r| - 1]))
  {
    StripInfixSlice(s);
    StripInfixTrailing(s);
    var r := Strip(s);
    assert r != [] ==> !IsSpace(r[0]) by {
      if r != [] {
        assert r[0] == StripLeft(s)[0];
      }
    }
  }

  lemma StripInfixSlice(s: string)
    ensures LeadingSpaces(s) + |Strip(s)| <= |s|
    ensures Strip(s) == s[LeadingSpaces(s)..LeadingSpaces(s) + |Strip(s)|]
  {
    var l := StripLeft(s);
    var r := StripRight(l);
    var i := |s| - |l|;
    assert r == l[..|r|];
    assert l == s[i..];
  }

  lemma StripInfixTrailing(s: string)
    ensures forall k :: LeadingSpaces(s) + |Strip(s)| <= k < |s| ==> IsSpace(s[k])
  {
    var l := StripLeft(s);
    var r := StripRight(l);
    var i := |s| - |l|;
    assert forall k :: i + |r| <= k < |s| ==> s[k] == l[k - i];
  }

  /** Stripping twice strips no more than stripping once. */
  lemma StripIdempotent(s: string)
    ensures Strip(Strip(s)) == Strip(s)
  {
    var r := Strip(s);
    assert StripLeft(r) == r;
    assert StripRight(r) == r;
  }

  /** `s.endswith(suffix)`. */
  predicate EndsWith(s: string, suffix: string) {
    |suffix| <= |s| && s[|s| - |suffix|..] == suffix
  }

  /** `s.replace(a, b)` for one-character `a` and `b`. */
  function ReplaceChar(s: string, a: char, b: char): (r: string)
    ensures |r| == |s|
    ensures forall i :: 0 <= i < |s| ==> r[i] == if s[i] == a then b else s[i]
  {
    seq(|s|, i requires 0 <= i < |s| => if s[i] == a then b else s[i])
  }

  /** After replacing every `a` by another character, no `a` is left. */
  lemma ReplaceCharRemoves(s: string, a: char, b: char)
    requires a != b
    ensures a !in ReplaceChar(s, a, b)
    ensures b in s ==> b in ReplaceChar(s, a, b)
  {
    var r := ReplaceChar(s, a, b);
    assert forall i :: 0 <= i < |r| ==> r[i] != a;
    if b in s {
      var i :| 0 <= i < |s| && s[i] == b;
      assert r[i] == b;
    }
  }

  /** Replacing a character that does not occur changes nothing. */
  lemma ReplaceCharAbsent(s: string, a: char, b: char)
    requires a !in s
    ensures ReplaceChar(s, a, b) == s
  {
  }

  /** Index of the first `c` in `s`. */
  function IndexOf(s: string, c: char): (i: nat)
    requires c in s
    ensures i < |s| && s[i] == c && c !in s[..i]
  {
    if s[0] == c then 0 else 1 + IndexOf(s[1..], c)
  }

  /** The first occurrence is the one with no earlier occurrence. */
  lemma {:induction false} IndexOfAt(s: string, c: char, j: nat)
    requires j < |s| && s[j] == c && c !in s[..j]
    ensures IndexOf(s, c) == j
  {
    if j > 0 {
      assert s[..j][0] == s[0];
      assert s[1..][..j - 1] == s[..j][1..];
      IndexOfAt(s[1..], c, j - 1);
    }
  }

  /** `sep.join(parts)` for a one-character separator. */
  function Join(parts: seq<string>, sep: char): (r: string)
  {
    if parts == [] then []
    else if |parts| == 1 then parts[0]
    else parts[0] + [sep] + Join(parts[1..], sep)
  }

  /** `s.split(sep)` for a one-character separator: the pieces between separators. */
  function Split(s: string, sep: char): (r: seq<string>)
    ensures |r| >= 1
    ensures forall i :: 0 <= i < |r| ==> sep !in r[i]
    ensures Join(r, sep) == s
    decreases |s|
  {
    if sep !in s then [s]
    else
      var i := IndexOf(s, sep);
      assert s == s[..i] + [sep] + s[i + 1..];
      [s[..i]] + Split(s[i + 1..], sep)
  }

  /** Splitting a joined list gives the list back when no piece holds the separator. */
  lemma {:induction false} SplitJoin(parts: seq<string>, sep: char)
    requires |parts| >= 1
    requires forall i :: 0 <= i < |parts| ==> sep !in parts[i]
    ensures Split(Join(parts, sep), sep) == parts
  {
    if |parts| > 1 {
      var s := Join(parts, sep);
      var tail := Join(parts[1..], sep);
      assert s == parts[0] + [sep] + tail;
      assert sep in s by { assert s[|parts[0]|] == sep; }
      assert s[..|parts[0]|] == parts[0];
      IndexOfAt(s, sep, |parts[0]|);
      assert s[|parts[0]| + 1..] == tail;
      SplitJoin(parts[1..], sep);
    }
  }

  /** Python's `a <= b` on strings: code-point lexicographic order. */
  predicate LexLe(a: string, b: string) {
    a == [] || (b != [] && (a[0] < b[0] || (a[0] == b[0] && LexLe(a[1..], b[1..]))))
  }

  lemma {:induction false} LexLeTotalAt(a: string, b: string)
    ensures LexLe(a, b) || LexLe(b, a)
  {
    if a != [] && b != [] && a[0] == b[0] {
      LexLeTotalAt(a[1..], b[1..]);
    }
  }

  lemma {:induction false} LexLeAntisymmetricAt(a: string, b: string)
    requires LexLe(a, b) && LexLe(b, a)
    ensures a == b
  {
    if a != [] && b != [] {
      LexLeAntisymmetricAt(a[1..], b[1..]);
      assert a == [a[0]] + a[1..] && b == [b[0]] + b[1..];
    }
  }

  /** String order is total, so sorting strings is well defined. */
  lemma LexLeTotal()
    ensures forall a, b :: LexLe(a, b) || LexLe(b, a)
  {
    forall a, b ensures LexLe(a, b) || LexLe(b, a) {
      LexLeTotalAt(a, b);
    }
  }

  /** Index of the first whitespace character of `s`, or `|s|` when there is none. */
  function WordEnd(s: string): (k: nat)
    ensures k <= |s|
    ensures forall i :: 0 <= i < k ==> !IsSpace(s[i])
    ensures k < |s| ==> IsSpace(s[k])
  {
    if s == [] || IsSpace(s[0]) then 0 else 1 + WordEnd(s[1..])
  }

  /** A word: non-empty, no whitespace. */
  predicate IsWord(w: string) {
    w != [] && forall k :: 0 <= k < |w| ==> !IsSpace(w[k])
  }

  /** `s.split()` with no argument: the maximal runs of non-whitespace characters. */
  function Words(s: string): seq<string>
    decreases |s|
  {
    var t := StripLeft(s);
    if t == [] then []
    else
      var k := WordEnd(t);
      assert k >= 1;
      [t[..k]] + Words(t[k..])
  }

  /** Every piece `split()` returns is a word. */
  lemma {:induction false} WordsAreWords(s: string)
    ensures forall i :: 0 <= i < |Words(s)| ==> IsWord(Words(s)[i])
    decreases |s|
  {
    var t := StripLeft(s);
    if t != [] {
      var k := WordEnd(t);
      var w := t[..k];
      var rest := Words(t[k..]);
      WordsAreWords(t[k..]);
      assert IsWord(w) by {
        assert forall j :: 0 <= j < |w| ==> w[j] == t[j];
      }
      ConsWords(w, rest);
      assert Words(s) == [w] + rest;
    }
  }

  lemma ConsWords(w: string, rest: seq<string>)
    requires IsWord(w)
    requires forall i :: 0 <= i < |rest| ==> IsWord(rest[i])
    ensures forall i :: 0 <= i < |[w] + rest| ==> IsWord(([w] + rest)[i])
  {
    var r := [w] + rest;
    forall i | 0 <= i < |r|
      ensures IsWord(r[i])
    {
      if i > 0 {
        assert r[i] == rest[i - 1];
      }
    }
  }

  /** `" ".join(words)`. */
  function JoinSpace(words: seq<string>): string {
    Join(words, ' ')
  }

  lemma JoinSpaceCons(words: seq<string>)
    requires |words| >= 2
    ensures JoinSpace(words) == words[0] + ([' '] + JoinSpace(words[1..]))
  {
  }

  lemma {:induction false} WordEndOfWord(w: string, rest: string)
    requires IsWord(w)
    requires rest == [] || IsSpace(rest[0])
    ensures WordEnd(w + rest) == |w|
  {
    if |w| > 1 {
      assert (w + rest)[1..] == w[1..] + rest;
      WordEndOfWord(w[1..], rest);
    } else {
      assert (w + rest)[1..] == rest;
    }
  }

  /** A word followed by nothing or by whitespace is split off whole. */
  lemma WordsCons(w: string, rest: string)
    requires IsWord(w)
    requires rest == [] || IsSpace(rest[0])
    ensures Words(w + rest) == [w] + Words(rest)
  {
    var t := w + rest;
    assert t[0] == w[0];
    assert StripLeft(t) == t;
    WordEndOfWord(w, rest);
    assert t[..|w|] == w;
    assert t[|w|..] == rest;
  }

  /** Leading whitespace does not change the words. */
  lemma WordsLeadingSpace(tail: string)
    ensures Words([' '] + tail) == Words(tail)
  {
    assert ([' '] + tail)[1..] == tail;
    assert StripLeft([' '] + tail) == StripLeft(tail);
  }

  /** `split()` undoes `" ".join` on a list of words. */
  lemma {:induction false} WordsJoinSpace(words: seq<string>)
    requires forall i :: 0 <= i < |words| ==> IsWord(words[i])
    ensures Words(JoinSpace(words)) == words
    decreases |words|, 2
  {
    if |words| == 1 {
      WordsJoinSpaceOne(words);
    } else if |words| > 1 {
      WordsJoinSpaceMore(words);
    }
  }

  lemma WordsJoinSpaceOne(words: seq<string>)
    requires |words| == 1 && IsWord(words[0])
    ensures Words(JoinSpace(words)) == words
  {
    var w := words[0];
    calc {
      Words(JoinSpace(words));
      { assert JoinSpace(words) == w + []; }
      Words(w + []);
      { WordsCons(w, []); }
      [w] + Words([]);
      { assert Words([]) == []; }
      [w];
    }
  }

  lemma WordsJoinSpaceMore(words: seq<string>)
    requires |words| > 1
    requires forall i :: 0 <= i < |words| ==> IsWord(words[i])
    ensures Words(JoinSpace(words)) == words
    decreases |words|, 1
  {
    assert words == [words[0]] + words[1..];
    WordsJoinSpaceStep(words);
    WordsOfRest(words);
  }

  lemma WordsJoinSpaceStep(words: seq<string>)
    requires |words| > 1 && IsWord(words[0])
    ensures Words(JoinSpace(words)) == [words[0]] + Words(JoinSpace(words[1..]))
  {
    JoinSpaceCons(words);
    WordsWordSpace(words[0], JoinSpace(words[1..]));
  }

  /** A word, a space and more text: the word, then the words of the rest. */
  lemma WordsWordSpace(w: string, tail: string)
    requires IsWord(w)
    ensures Words(w + ([' '] + tail)) == [w] + Words(tail)
  {
    WordsCons(w, [' '] + tail);
    WordsLeadingSpace(tail);
  }

  lemma WordsOfRest(words: seq<string>)
    requires |words| >= 1
    requires forall i :: 0 <= i < |words| ==> IsWord(words[i])
    ensures Words(JoinSpace(words[1..])) == words[1..]
    decreases |words|, 0
  {
    var rest := words[1..];
    forall i | 0 <= i < |rest|
      ensures IsWord(rest[i])
    {
      assert rest[i] == words[i + 1];
    }
    WordsJoinSpace(rest);
  }
}
