/**
 * The Python string built-ins the repository relies on: `str.lower`, `str.split()`,
 * `str.strip(chars)`, `str.count`, the substring test `x in s`, `str.join` and
 * `s.split('.')[-1]`.  Strings are sequences of characters.
 */
module Text {

  // ---------------------------------------------------------------- lower()

  /** ASCII upper-case letters become lower case; every other character is kept. */
  function LowerChar(c: char): char {
    if 'A' <= c <= 'Z' then (c as int - 'A' as int + 'a' as int) as char else c
  }

  function Lower(s: string): (r: string)
    ensures |r| == |s|
    ensures forall i :: 0 <= i < |s| ==> r[i] == LowerChar(s[i])
  {
    seq(|s|, i requires 0 <= i < |s| => LowerChar(s[i]))
  }

  /** Lowering twice is lowering once. */
  lemma LowerIdempotent(s: string)
    ensures Lower(Lower(s)) == Lower(s)
  {
    assert forall i :: 0 <= i < |s| ==> LowerChar(LowerChar(s[i])) == LowerChar(s[i]);
  }

  // ---------------------------------------------------------------- split()

  /** The characters Python's argument-less `str.split()` treats as whitespace. */
  predicate IsSpace(c: char) {
    || c == ' '
    || ('\t' <= c <= '\r')
    || ('\U{1C}' <= c <= '\U{1F}')
    || c == '\U{85}' || c == '\U{A0}' || c == '\U{1680}'
    || ('\U{2000}' <= c <= '\U{200A}')
    || c == '\U{2028}' || c == '\U{2029}' || c == '\U{202F}' || c == '\U{205F}' || c == '\U{3000}'
  }

  ghost predicate NoSpace(s: string) {
    forall i :: 0 <= i < |s| ==> !IsSpace(s[i])
  }

  /** Length of the run of non-space characters at the front of `s`. */
  function WordLength(s: string): (n: nat)
    ensures n <= |s|
    ensures forall i :: 0 <= i < n ==> !IsSpace(s[i])
    ensures n == |s| || IsSpace(s[n])
  {
    if s == [] || IsSpace(s[0]) then 0 else 1 + WordLength(s[1..])
  }

  /** The non-space characters of `s`, in order. */
  function NonSpaceChars(s: string): (r: string)
    decreases |s|
  {
    if s == [] then [] else (if IsSpace(s[0]) then [] else [s[0]]) + NonSpaceChars(s[1..])
  }

  /** The strings of `ws` joined with no separator. */
  function Concat(ws: seq<string>): string
    decreases |ws|
  {
    if ws == [] then [] else ws[0] + Concat(ws[1..])
  }

  /** `s[a..b]` is a maximal run of non-space characters: non-empty, space-free, bounded by whitespace or the ends. */
  ghost predicate MaximalRun(s: string, a: nat, b: nat) {
    && a < b <= |s|
    && (forall i :: a <= i < b ==> !IsSpace(s[i]))
    && (a == 0 || IsSpace(s[a - 1]))
    && (b == |s| || IsSpace(s[b]))
  }

  /** Position `i` starts a word: a non-space character at the front or after whitespace. */
  predicate WordStart(s: string, i: nat)
    requires i < |s|
  {
    !IsSpace(s[i]) && (i == 0 || IsSpace(s[i - 1]))
  }

  /** Reference: the number of word starts at positions below `i`. */
  function WordStartsBefore(s: string, i: nat): nat
    requires i <= |s|
  {
    if i == 0 then 0 else WordStartsBefore(s, i - 1) + (if WordStart(s, i - 1) then 1 else 0)
  }

  /** `w` is the `k`-th (from 0) maximal run of non-space characters of `s`. */
  ghost predicate KthRun(s: string, w: string, k: nat) {
    exists a: nat, b: nat :: MaximalRun(s, a, b) && w == s[a..b] && WordStartsBefore(s, a) == k
  }

  /**
   * `ws` splits `s`: its words are non-empty and space-free, the `k`-th of them is the
   * `k`-th maximal run of `s`, there is one per word start, and joined together they are
   * exactly the non-space characters of `s`.
   */
  ghost predicate SplitOf(s: string, ws: seq<string>) {
    && (forall k :: 0 <= k < |ws| ==> |ws[k]| > 0 && NoSpace(ws[k]))
    && (forall k :: 0 <= k < |ws| ==> KthRun(s, ws[k], k))
    && |ws| == WordStartsBefore(s, |s|)
    && Concat(ws) == NonSpaceChars(s)
    && |ws| <= |s|
  }

  /**
   * `s.split()`: the maximal runs of non-space characters, in order.  `WordsSplit` proves
   * the full characterisation; the contract keeps the shape callers rely on.
   */
  function Words(s: string): (ws: seq<string>)
    ensures forall k :: 0 <= k < |ws| ==> |ws[k]| > 0 && NoSpace(ws[k])
    ensures |ws| <= |s|
    decreases |s|
  {
    if s == [] then []
    else if IsSpace(s[0]) then Words(s[1..])
    else
      var n := WordLength(s);
      [s[..n]] + Words(s[n..])
  }

  /** `Words` is exactly Python's `split()`: see `SplitOf`. */
  lemma {:induction false} WordsSplit(s: string)
    ensures SplitOf(s, Words(s))
    decreases |s|
  {
    if s == [] {
    } else if IsSpace(s[0]) {
      WordsSplit(s[1..]);
      SplitAfterSpace(s, Words(s[1..]));
    } else {
      var n := WordLength(s);
      WordsSplit(s[n..]);
      SplitAfterWord(s, n, Words(s[n..]));
    }
  }

  /** A leading space adds no word. */
  lemma SplitAfterSpace(s: string, ws: seq<string>)
    requires s != [] && IsSpace(s[0])
    requires SplitOf(s[1..], ws)
    ensures SplitOf(s, ws)
  {
    assert WordStartsBefore(s, 1) == 0;
    RunsOfSuffix(s, 1, ws);
    StartsShift(s, 1, |s| - 1);
  }

  /** A leading word of length `n` is followed by the words of the rest. */
  lemma SplitAfterWord(s: string, n: nat, rest: seq<string>)
    requires s != [] && !IsSpace(s[0]) && n == WordLength(s)
    requires SplitOf(s[n..], rest)
    ensures SplitOf(s, [s[..n]] + rest)
  {
    WordsAfterFirstAreRuns(s, n, rest);
    ConsShape(s[..n], rest);
    WordCountsAfterWord(s, n, rest);
  }

  /** The count, the joined text and the length bound after a leading word. */
  lemma WordCountsAfterWord(s: string, n: nat, rest: seq<string>)
    requires s != [] && !IsSpace(s[0]) && n == WordLength(s)
    requires |rest| == WordStartsBefore(s[n..], |s| - n) && |rest| <= |s| - n
    requires Concat(rest) == NonSpaceChars(s[n..])
    ensures |[s[..n]] + rest| == WordStartsBefore(s, |s|) && |[s[..n]] + rest| <= |s|
    ensures Concat([s[..n]] + rest) == NonSpaceChars(s)
  {
    FirstWordStarts(s, n, n);
    StartsShift(s, n, |s| - n);
    ConcatCons(s[..n], rest);
    NonSpacePrefix(s, n);
  }

  /** The leading word is run 0 and the runs of the rest follow it. */
  lemma WordsAfterFirstAreRuns(s: string, n: nat, rest: seq<string>)
    requires s != [] && !IsSpace(s[0]) && n == WordLength(s)
    requires |rest| <= |s| - n
    requires forall k :: 0 <= k < |rest| ==> KthRun(s[n..], rest[k], k)
    ensures forall k :: 0 <= k < |rest| + 1 ==> KthRun(s, ([s[..n]] + rest)[k], k)
  {
    FirstWordStarts(s, n, n);
    assert MaximalRun(s, 0, n) && s[..n] == s[0..n] && WordStartsBefore(s, 0) == 0;
    RunsOfSuffix(s, n, rest);
    ConsRuns(s, s[..n], rest);
  }

  /** Run 0 followed by runs 1, 2, ... are runs 0, 1, 2, ... */
  lemma ConsRuns(s: string, w: string, rest: seq<string>)
    requires KthRun(s, w, 0)
    requires forall k :: 0 <= k < |rest| ==> KthRun(s, rest[k], k + 1)
    ensures forall k :: 0 <= k < |rest| + 1 ==> KthRun(s, ([w] + rest)[k], k)
  {
    forall k | 0 <= k < |rest| + 1
      ensures KthRun(s, ([w] + rest)[k], k)
    {
      if k > 0 {
        assert ([w] + rest)[k] == rest[k - 1];
      }
    }
  }

  /** A non-empty space-free word in front of non-empty space-free words. */
  lemma ConsShape(w: string, rest: seq<string>)
    requires |w| > 0 && NoSpace(w)
    requires forall k :: 0 <= k < |rest| ==> |rest[k]| > 0 && NoSpace(rest[k])
    ensures forall k :: 0 <= k < |rest| + 1 ==> |([w] + rest)[k]| > 0 && NoSpace(([w] + rest)[k])
  {
    forall k | 0 <= k < |rest| + 1
      ensures |([w] + rest)[k]| > 0 && NoSpace(([w] + rest)[k])
    {
      if k > 0 {
        assert ([w] + rest)[k] == rest[k - 1];
      }
    }
  }

  /** Inside the leading word only position 0 starts a word. */
  lemma {:induction false} FirstWordStarts(s: string, n: nat, j: nat)
    requires s != [] && !IsSpace(s[0]) && n == WordLength(s)
    requires 1 <= j <= n
    ensures WordStartsBefore(s, j) == 1
    decreases j
  {
    if j > 1 {
      FirstWordStarts(s, n, j - 1);
      assert !WordStart(s, j - 1);
    }
  }

  /** Word starts of `s` split at a run boundary `d` into those before `d` and those of `s[d..]`. */
  lemma {:induction false} StartsShift(s: string, d: nat, a: nat)
    requires 0 < d <= |s| && a <= |s| - d
    requires a == 0 || IsSpace(s[d - 1]) || (d < |s| && IsSpace(s[d]))
    ensures WordStartsBefore(s, d + a) == WordStartsBefore(s, d) + WordStartsBefore(s[d..], a)
    decreases a
  {
    if a > 0 {
      StartsShift(s, d, a - 1);
      assert s[d..][a - 1] == s[d + a - 1];
      if a > 1 {
        assert s[d..][a - 2] == s[d + a - 2];
      }
      assert WordStart(s, d + a - 1) == WordStart(s[d..], a - 1);
    }
  }

  /** A maximal run of `s[d..]`, shifted by `d`, is a maximal run of `s`. */
  lemma RunShift(s: string, d: nat, a: nat, b: nat)
    requires 0 < d <= |s| && MaximalRun(s[d..], a, b)
    requires IsSpace(s[d - 1]) || IsSpace(s[d])
    ensures MaximalRun(s, a + d, b + d)
    ensures s[d..][a..b] == s[a + d..b + d]
    ensures WordStartsBefore(s, a + d) == WordStartsBefore(s, d) + WordStartsBefore(s[d..], a)
  {
    assert !IsSpace(s[d..][a]) && s[d..][a] == s[a + d];
    if a > 0 {
      assert s[d..][a - 1] == s[a + d - 1];
    }
    if b + d < |s| {
      assert s[d..][b] == s[b + d];
    }
    forall i | a + d <= i < b + d
      ensures !IsSpace(s[i])
    {
      assert s[i] == s[d..][i - d];
    }
    StartsShift(s, d, a);
  }

  /** The `k`-th run of `s[d..]` is run `k + c` of `s`, where `c` counts the word starts before `d`. */
  lemma RunsOfSuffix(s: string, d: nat, ws: seq<string>)
    requires 0 < d <= |s|
    requires ws == [] || IsSpace(s[d - 1]) || (d < |s| && IsSpace(s[d]))
    requires forall k :: 0 <= k < |ws| ==> KthRun(s[d..], ws[k], k)
    ensures forall k :: 0 <= k < |ws| ==> KthRun(s, ws[k], k + WordStartsBefore(s, d))
  {
    forall k | 0 <= k < |ws|
      ensures KthRun(s, ws[k], k + WordStartsBefore(s, d))
    {
      RunOfSuffix(s, d, ws[k], k);
    }
  }

  lemma RunOfSuffix(s: string, d: nat, w: string, k: nat)
    requires 0 < d <= |s|
    requires IsSpace(s[d - 1]) || (d < |s| && IsSpace(s[d]))
    requires KthRun(s[d..], w, k)
    ensures KthRun(s, w, k + WordStartsBefore(s, d))
  {
    var a: nat, b: nat :| MaximalRun(s[d..], a, b) && w == s[d..][a..b] && WordStartsBefore(s[d..], a) == k;
    RunShift(s, d, a, b);
    var a', b' := a + d, b + d;
    assert MaximalRun(s, a', b') && w == s[a'..b'] && WordStartsBefore(s, a') == k + WordStartsBefore(s, d);
  }

  lemma ConcatCons(w: string, ws: seq<string>)
    ensures Concat([w] + ws) == w + Concat(ws)
  {
    assert ([w] + ws)[1..] == ws;
  }

  /** A space-free prefix passes through `NonSpaceChars` whole. */
  lemma {:induction false} NonSpacePrefix(s: string, n: nat)
    requires n <= |s|
    requires forall i :: 0 <= i < n ==> !IsSpace(s[i])
    ensures NonSpaceChars(s) == s[..n] + NonSpaceChars(s[n..])
    decreases n
  {
    if n > 0 {
      NonSpacePrefix(s[1..], n - 1);
      assert s[1..][n - 1..] == s[n..];
      assert [s[0]] + s[1..][..n - 1] == s[..n];
    }
  }

  /** Text made only of whitespace (in particular the empty text) has no words. */
  lemma {:induction false} BlankHasNoWords(s: string)
    requires forall i :: 0 <= i < |s| ==> IsSpace(s[i])
    ensures Words(s) == []
    decreases |s|
  {
    if s != [] {
      BlankHasNoWords(s[1..]);
    }
  }

  // ---------------------------------------------------------------- strip(chars)

  function StripLeading(s: string, cs: set<char>): (r: string)
    ensures |r| <= |s| && r == s[|s| - |r|..]
    ensures forall i :: 0 <= i < |s| - |r| ==> s[i] in cs
    ensures r == [] || r[0] !in cs
  {
    if s != [] && s[0] in cs then
      var r := StripLeading(s[1..], cs);
      DropFirst(s, cs, r);
      r
    else s
  }

  /** Dropping a leading character of `cs` in front of a stripped suffix. */
  lemma DropFirst(s: string, cs: set<char>, r: string)
    requires s != [] && s[0] in cs
    requires |r| <= |s| - 1 && r == s[1..][|s| - 1 - |r|..]
    requires forall i :: 0 <= i < |s| - 1 - |r| ==> s[1..][i] in cs
    ensures r == s[|s| - |r|..]
    ensures forall i :: 0 <= i < |s| - |r| ==> s[i] in cs
  {
    forall i | 0 < i < |s| - |r|
      ensures s[i] in cs
    {
      assert s[i] == s[1..][i - 1];
    }
  }

  function StripTrailing(s: string, cs: set<char>): (r: string)
    ensures |r| <= |s| && r == s[..|r|]
    ensures forall i :: |r| <= i < |s| ==> s[i] in cs
    ensures r == [] || r[|r| - 1] !in cs
  {
    if s != [] && s[|s| - 1] in cs then
      var r := StripTrailing(s[..|s| - 1], cs);
      DropLast(s, cs, s[..|s| - 1], r);
      r
    else s
  }

  /** Dropping a trailing character of `cs` behind a stripped prefix. */
  lemma DropLast(s: string, cs: set<char>, t: string, r: string)
    requires s != [] && s[|s| - 1] in cs && t == s[..|s| - 1]
    requires |r| <= |t| && r == t[..|r|]
    requires forall i :: |r| <= i < |t| ==> t[i] in cs
    ensures r == s[..|r|]
    ensures forall i :: |r| <= i < |s| ==> s[i] in cs
  {
    forall i | |r| <= i < |t|
      ensures s[i] in cs
    {
      assert s[i] == t[i];
    }
  }

  /** `s.strip(chars)`: the longest slice of `s` that neither starts nor ends with a character of `cs`. */
  function Strip(s: string, cs: set<char>): (r: string)
    ensures exists a: nat, b: nat :: StrippedEnds(s, cs, a, b) && r == s[a..b]
    ensures r == [] || (r[0] !in cs && r[|r| - 1] !in cs)
  {
    var t := StripLeading(s, cs);
    var r := StripTrailing(t, cs);
    StripIsSlice(s, cs, t, r);
    r
  }

  /** A prefix `r` of a suffix `t` of `s`, with only characters of `cs` cut off either side. */
  lemma StripIsSlice(s: string, cs: set<char>, t: string, r: string)
    requires |t| <= |s| && t == s[|s| - |t|..] && forall i :: 0 <= i < |s| - |t| ==> s[i] in cs
    requires |r| <= |t| && r == t[..|r|] && forall i :: |r| <= i < |t| ==> t[i] in cs
    ensures StrippedEnds(s, cs, |s| - |t|, |s| - |t| + |r|) && r == s[|s| - |t|..|s| - |t| + |r|]
  {
    var a, b := |s| - |t|, |s| - |t| + |r|;
    forall i | 0 <= i < |r|
      ensures r[i] == s[a + i]
    {
      assert r[i] == t[i] == s[a + i];
    }
    forall i | b <= i < |s|
      ensures s[i] in cs
    {
      assert s[i] == t[i - a];
    }
  }

  /** Everything before `a` and from `b` on is a character of `cs`. */
  ghost predicate StrippedEnds(s: string, cs: set<char>, a: nat, b: nat) {
    && a <= b <= |s|
    && (forall i :: 0 <= i < a ==> s[i] in cs)
    && (forall i :: b <= i < |s| ==> s[i] in cs)
  }

  /** Stripping keeps only characters of the original text. */
  lemma StripKeepsNoSpace(s: string, cs: set<char>)
    requires NoSpace(s)
    ensures NoSpace(Strip(s, cs))
  {
    var t := StripLeading(s, cs);
    var r := StripTrailing(t, cs);
    StripIsSlice(s, cs, t, r);
    SliceNoSpace(s, |s| - |t|, |s| - |t| + |r|);
  }

  lemma SliceNoSpace(s: string, a: nat, b: nat)
    requires NoSpace(s) && a <= b <= |s|
    ensures NoSpace(s[a..b])
  {
    assert forall i :: 0 <= i < b - a ==> s[a..b][i] == s[a + i];
  }

  // ---------------------------------------------------------------- sub in s

  /** Python's `sub in s`; the empty string occurs in every string. */
  predicate Contains(s: string, sub: string)
    decreases |s|
  {
    sub <= s || (|s| > 0 && Contains(s[1..], sub))
  }

  ghost predicate OccursAt(s: string, sub: string, i: nat) {
    i + |sub| <= |s| && s[i..i + |sub|] == sub
  }

  lemma OccursAtZero(s: string, sub: string)
    ensures OccursAt(s, sub, 0) <==> sub <= s
  {
    if |sub| <= |s| {
      assert s[0..|sub|] == s[..|sub|];
    }
  }

  /** An occurrence at `i > 0` in `s` is one at `i - 1` in `s[1..]`. */
  lemma OccursAtShift(s: string, sub: string, i: nat)
    requires |s| > 0 && i > 0
    ensures OccursAt(s, sub, i) <==> OccursAt(s[1..], sub, i - 1)
  {
    if i + |sub| <= |s| {
      assert s[1..][i - 1..i - 1 + |sub|] == s[i..i + |sub|];
    }
  }

  /** `Contains` is exactly "occurs at some position". */
  lemma {:induction false} ContainsIffOccurs(s: string, sub: string)
    ensures Contains(s, sub) <==> exists i: nat :: OccursAt(s, sub, i)
    decreases |s|
  {
    if sub <= s {
      assert OccursAt(s, sub, 0);
    } else if |s| > 0 {
      ContainsIffOccurs(s[1..], sub);
      if exists i: nat :: OccursAt(s[1..], sub, i) {
        var i: nat :| OccursAt(s[1..], sub, i);
        OccursAtShift(s, sub, i + 1);
      }
      if exists i: nat :: OccursAt(s, sub, i) {
        var i: nat :| OccursAt(s, sub, i);
        OccursAtZero(s, sub);
        OccursAtShift(s, sub, i);
      }
    }
  }

  /** A non-empty pattern whose first character is absent from `s` does not occur in `s`. */
  lemma {:induction false} NotContainsWhenHeadAbsent(s: string, sub: string)
    requires sub != [] && sub[0] !in s
    ensures !Contains(s, sub)
    decreases |s|
  {
    if |s| > 0 {
      assert s[0] != sub[0];
      NotContainsWhenHeadAbsent(s[1..], sub);
    }
  }

  // ---------------------------------------------------------------- count(pat)

  /** `s.count(pat)`: non-overlapping occurrences, found left to right. */
  function CountOccurrences(s: string, pat: string): nat
    requires |pat| > 0
    decreases |s|
  {
    if |s| < |pat| then 0
    else if pat <= s then 1 + CountOccurrences(s[|pat|..], pat)
    else CountOccurrences(s[1..], pat)
  }

  /** Non-overlapping occurrences cannot need more characters than `s` has. */
  lemma {:induction false} CountOccurrencesBound(s: string, pat: string)
    requires |pat| > 0
    ensures CountOccurrences(s, pat) * |pat| <= |s|
    decreases |s|
  {
    if |s| < |pat| {
    } else if pat <= s {
      var c := CountOccurrences(s[|pat|..], pat);
      CountOccurrencesBound(s[|pat|..], pat);
      assert CountOccurrences(s, pat) == 1 + c;
      OneMoreOccurrence(c, |pat|, |s| - |pat|);
    } else {
      CountOccurrencesBound(s[1..], pat);
      assert CountOccurrences(s, pat) == CountOccurrences(s[1..], pat);
    }
  }

  /** One more occurrence needs `p` more characters. */
  lemma OneMoreOccurrence(c: nat, p: nat, rest: nat)
    requires c * p <= rest
    ensures (1 + c) * p <= p + rest
  {
    assert (1 + c) * p == p + c * p;
  }

  // ---------------------------------------------------------------- join

  /** `sep.join(parts)`. */
  function Join(sep: string, parts: seq<string>): string
    decreases |parts|
  {
    if parts == [] then []
    else if |parts| == 1 then parts[0]
    else parts[0] + sep + Join(sep, parts[1..])
  }

  // ---------------------------------------------------------------- split('.')[-1]

  /** `s.split('.')[-1]`: the text after the last '.', or all of `s` when it has none. */
  function AfterLastDot(s: string): (r: string)
    ensures '.' !in r
    ensures |r| <= |s| && r == s[|s| - |r|..]
    ensures '.' in s ==> |r| < |s| && s[|s| - |r| - 1] == '.'
    ensures '.' !in s ==> r == s
    decreases |s|
  {
    if s == [] then []
    else if s[|s| - 1] == '.' then []
    else
      var init := s[..|s| - 1];
      assert s == init + [s[|s| - 1]];
      AfterLastDot(init) + [s[|s| - 1]]
  }
}
