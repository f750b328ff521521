/**
 * The Python string built-ins the core relies on: str.strip(), str.split(),
 * str.split(maxsplit=1), str.split(sep), str.replace(), str.join(),
 * str.lower(), str.startswith(), int() and str() on integers, and membership
 * of a substring.  Each is written out over seq<char> so that the parsers
 * built on them can be reasoned about.
 */
module Text {
  import opened Wrappers

  /** The characters for which Python's str.isspace() holds; str.split()
      and str.strip() without arguments cut at exactly these. */
  predicate IsSpace(c: char) {
    var n := c as int;
    || (9 <= n <= 13) || (28 <= n <= 32) || n == 0x85 || n == 0xA0 || n == 0x1680
    || (0x2000 <= n <= 0x200A) || n == 0x2028 || n == 0x2029 || n == 0x202F
    || n == 0x205F || n == 0x3000
  }

  predicate NoSpace(s: string) {
    forall i :: 0 <= i < |s| ==> !IsSpace(s[i])
  }

  /** A command word made of ASCII letters and underscores. */
  predicate IsIdentifier(s: string) {
    forall i :: 0 <= i < |s| ==> ('a' <= s[i] <= 'z' || 'A' <= s[i] <= 'Z' || s[i] == '_')
  }

  lemma IdentifierNoSpace(s: string)
    requires IsIdentifier(s)
    ensures NoSpace(s)
  {
  }

  /** A string that strip() leaves as it is. */
  predicate IsStripped(s: string) {
    s == [] || (!IsSpace(s[0]) && !IsSpace(s[|s| - 1]))
  }

  // ---------------------------------------------------------------- scanning

  /* The scanners below work on positions in one string rather than on its
     suffixes, so that what they find is stated about s itself. */

  /** The first position from i on that holds no whitespace, or |s|. */
  function SkipSpace(s: string, i: nat): (j: nat)
    requires i <= |s|
    ensures i <= j <= |s|
    ensures j < |s| ==> !IsSpace(s[j])
    decreases |s| - i
  {
    if i == |s| || !IsSpace(s[i]) then i else SkipSpace(s, i + 1)
  }

  /** What SkipSpace skips is whitespace. */
  lemma {:induction false} SkipSpaceSkips(s: string, i: nat)
    requires i <= |s|
    ensures forall k :: i <= k < SkipSpace(s, i) ==> IsSpace(s[k])
    decreases |s| - i
  {
    if i < |s| && IsSpace(s[i]) {
      SkipSpaceSkips(s, i + 1);
    }
  }

  /** The first position from i on that holds whitespace, or |s|. */
  function SkipWord(s: string, i: nat): (j: nat)
    requires i <= |s|
    ensures i <= j <= |s|
    ensures j < |s| ==> IsSpace(s[j])
    decreases |s| - i
  {
    if i == |s| || IsSpace(s[i]) then i else SkipWord(s, i + 1)
  }

  /** What SkipWord skips holds no whitespace. */
  lemma {:induction false} SkipWordSkips(s: string, i: nat)
    requires i <= |s|
    ensures forall k :: i <= k < SkipWord(s, i) ==> !IsSpace(s[k])
    decreases |s| - i
  {
    if i < |s| && !IsSpace(s[i]) {
      SkipWordSkips(s, i + 1);
    }
  }

  /** The end of s[lo..hi] once its trailing whitespace is cut off. */
  function BackSpace(s: string, lo: nat, hi: nat): (j: nat)
    requires lo <= hi <= |s|
    ensures lo <= j <= hi
    ensures j > lo ==> !IsSpace(s[j - 1])
    decreases hi
  {
    if hi == lo || !IsSpace(s[hi - 1]) then hi else BackSpace(s, lo, hi - 1)
  }

  /** What BackSpace cuts off is whitespace. */
  lemma {:induction false} BackSpaceSkips(s: string, lo: nat, hi: nat)
    requires lo <= hi <= |s|
    ensures forall k :: BackSpace(s, lo, hi) <= k < hi ==> IsSpace(s[k])
    decreases hi
  {
    if hi > lo && IsSpace(s[hi - 1]) {
      BackSpaceSkips(s, lo, hi - 1);
    }
  }

  /** SkipSpace stops at the first non-whitespace position it reaches. */
  lemma {:induction false} SkipSpaceAt(s: string, i: nat, j: nat)
    requires i <= j <= |s|
    requires forall k :: i <= k < j ==> IsSpace(s[k])
    requires j == |s| || !IsSpace(s[j])
    ensures SkipSpace(s, i) == j
    decreases j - i
  {
    if i < j {
      SkipSpaceAt(s, i + 1, j);
    }
  }

  /** SkipWord stops at the first whitespace position it reaches. */
  lemma {:induction false} SkipWordAt(s: string, i: nat, j: nat)
    requires i <= j <= |s|
    requires forall k :: i <= k < j ==> !IsSpace(s[k])
    requires j == |s| || IsSpace(s[j])
    ensures SkipWord(s, i) == j
    decreases j - i
  {
    if i < j {
      SkipWordAt(s, i + 1, j);
    }
  }

  /** s[i..j], built character by character.  Strip and the splitters
      return slices of this form, stated by their elements. */
  function Slice(s: string, i: nat, j: nat): (r: string)
    requires i <= j <= |s|
    ensures |r| == j - i
    decreases j - i
  {
    if i == j then [] else [s[i]] + Slice(s, i + 1, j)
  }

  lemma {:induction false} SliceAt(s: string, i: nat, j: nat)
    requires i <= j <= |s|
    ensures forall k :: 0 <= k < j - i ==> Slice(s, i, j)[k] == s[i + k]
    decreases j - i
  {
    if i < j {
      SliceAt(s, i + 1, j);
    }
  }

  // ---------------------------------------------------------------- strip

  /** s.strip(): s without its leading and trailing whitespace. */
  function Strip(s: string): (r: string)
    ensures IsStripped(r)
    ensures |r| <= |s|
  {
    var i := SkipSpace(s, 0);
    SliceAt(s, i, BackSpace(s, i, |s|));
    Slice(s, i, BackSpace(s, i, |s|))
  }

  /** Only a string of whitespace strips to nothing. */
  lemma StripEmpty(s: string)
    ensures Strip(s) == [] <==> forall k :: 0 <= k < |s| ==> IsSpace(s[k])
  {
    var i := SkipSpace(s, 0);
    var j := BackSpace(s, i, |s|);
    SkipSpaceSkips(s, 0);
    BackSpaceSkips(s, i, |s|);
    if j == i {
      assert i == |s|;
    } else {
      assert !IsSpace(s[i]);
    }
  }

  lemma StripStripped(s: string)
    requires IsStripped(s)
    ensures Strip(s) == s
  {
    if s != [] {
      SkipSpaceAt(s, 0, 0);
      assert BackSpace(s, 0, |s|) == |s|;
      SliceAt(s, 0, |s|);
    }
  }

  lemma StripIdempotent(s: string)
    ensures Strip(Strip(s)) == Strip(s)
  {
    StripStripped(Strip(s));
  }

  // ---------------------------------------------------------------- words

  /** The words of s from position i on. */
  function SplitFrom(s: string, i: nat): seq<string>
    requires i <= |s|
    decreases |s| - i
  {
    var j := SkipSpace(s, i);
    if j == |s| then []
    else
      var k := SkipWord(s, j);
      [Slice(s, j, k)] + SplitFrom(s, k)
  }

  /** s.split(): the maximal runs of non-whitespace characters, in order. */
  function Split(s: string): (r: seq<string>)
    ensures forall k :: 0 <= k < |r| ==> r[k] != [] && NoSpace(r[k])
  {
    SplitFromWords(s, 0);
    SplitFrom(s, 0)
  }

  lemma {:induction false} SplitFromWords(s: string, i: nat)
    requires i <= |s|
    ensures forall k :: 0 <= k < |SplitFrom(s, i)| ==> SplitFrom(s, i)[k] != [] && NoSpace(SplitFrom(s, i)[k])
    decreases |s| - i
  {
    var j := SkipSpace(s, i);
    if j < |s| {
      var k := SkipWord(s, j);
      SkipWordSkips(s, j);
      SliceAt(s, j, k);
      SplitFromWords(s, k);
    }
  }

  /** s.split(maxsplit=1): the first word and, when anything but whitespace
      follows it, the rest of s after the whitespace that follows the word. */
  function SplitOnce(s: string): (r: seq<string>)
    ensures |r| <= 2
    ensures r == [] <==> Strip(s) == []
    ensures r != [] ==> r[0] != [] && NoSpace(r[0])
    ensures |r| == 2 ==> r[1] != [] && !IsSpace(r[1][0])
  {
    var i := SkipSpace(s, 0);
    if i == |s| then []
    else
      var j := SkipWord(s, i);
      var k := SkipSpace(s, j);
      SkipWordSkips(s, i);
      BackSpaceSkips(s, i, |s|);
      SliceAt(s, i, j);
      SliceAt(s, k, |s|);
      if k == |s| then [Slice(s, i, j)] else [Slice(s, i, j), Slice(s, k, |s|)]
  }

  /** w is the first run of non-whitespace characters of s, starting at i:
      only whitespace comes before it, and whitespace or the end after it. */
  predicate LeadingWord(s: string, i: nat, w: string) {
    && w != [] && NoSpace(w) && i + |w| <= |s|
    && (forall k :: 0 <= k < i ==> IsSpace(s[k]))
    && s[i..i + |w|] == w
    && (i + |w| == |s| || IsSpace(s[i + |w|]))
  }

  /** The command word of split(maxsplit=1) is the first word of the line. */
  lemma SplitOnceHead(s: string)
    requires SplitOnce(s) != []
    ensures exists i :: LeadingWord(s, i, SplitOnce(s)[0])
  {
    var i := SkipSpace(s, 0);
    var j := SkipWord(s, i);
    SkipSpaceSkips(s, 0);
    SkipWordSkips(s, i);
    SliceAt(s, i, j);
    assert s[i..j] == Slice(s, i, j) == SplitOnce(s)[0];
    assert LeadingWord(s, i, SplitOnce(s)[0]);
  }

  /** The leading word starts at the first non-whitespace position and ends
      at the first whitespace position after it. */
  lemma LeadingWordBounds(s: string, i: nat, w: string)
    requires LeadingWord(s, i, w)
    ensures i < |s| && !IsSpace(s[i])
    ensures forall k :: 0 <= k < |s| && !IsSpace(s[k]) ==> i <= k
    ensures forall k :: i <= k < |s| && IsSpace(s[k]) ==> i + |w| <= k
  {
    assert s[i] == w[0];
    forall k | i <= k < i + |w|
      ensures !IsSpace(s[k])
    {
      assert s[k] == w[k - i];
    }
  }

  /** At most one word of s is the leading one. */
  lemma LeadingWordUnique(s: string, i: nat, w: string, i': nat, w': string)
    requires LeadingWord(s, i, w) && LeadingWord(s, i', w')
    ensures i == i' && w == w'
  {
    LeadingWordBounds(s, i, w);
    LeadingWordBounds(s, i', w');
  }

  function Join(sep: string, parts: seq<string>): string {
    if parts == [] then ""
    else if |parts| == 1 then parts[0]
    else parts[0] + sep + Join(sep, parts[1..])
  }

  lemma JoinNoSpace(sep: string, parts: seq<string>)
    requires NoSpace(sep)
    requires forall k :: 0 <= k < |parts| ==> NoSpace(parts[k])
    ensures NoSpace(Join(sep, parts))
  {
    if |parts| > 1 {
      JoinNoSpace(sep, parts[1..]);
      var rest := Join(sep, parts[1..]);
      assert Join(sep, parts) == parts[0] + sep + rest;
      forall i | 0 <= i < |Join(sep, parts)|
        ensures !IsSpace(Join(sep, parts)[i])
      {
        if i < |parts[0]| {
        } else if i < |parts[0]| + |sep| {
          assert Join(sep, parts)[i] == sep[i - |parts[0]|];
        } else {
          assert Join(sep, parts)[i] == rest[i - |parts[0]| - |sep|];
        }
      }
    }
  }

  /** Scanning p + s past p is scanning s. */
  lemma {:induction false} SkipSpaceShift(p: string, s: string, i: nat)
    requires i <= |s|
    ensures SkipSpace(p + s, |p| + i) == |p| + SkipSpace(s, i)
    decreases |s| - i
  {
    if i < |s| {
      assert (p + s)[|p| + i] == s[i];
      SkipSpaceShift(p, s, i + 1);
    }
  }

  lemma {:induction false} SkipWordShift(p: string, s: string, i: nat)
    requires i <= |s|
    ensures SkipWord(p + s, |p| + i) == |p| + SkipWord(s, i)
    decreases |s| - i
  {
    if i < |s| {
      assert (p + s)[|p| + i] == s[i];
      SkipWordShift(p, s, i + 1);
    }
  }

  lemma SliceShift(p: string, s: string, j: nat, k: nat)
    requires j <= k <= |s|
    ensures Slice(p + s, |p| + j, |p| + k) == Slice(s, j, k)
  {
    SliceAt(p + s, |p| + j, |p| + k);
    SliceAt(s, j, k);
  }

  /** The words of p + s past p are the words of s. */
  lemma {:induction false} SplitFromShift(p: string, s: string, i: nat)
    requires i <= |s|
    ensures SplitFrom(p + s, |p| + i) == SplitFrom(s, i)
    decreases |s| - i
  {
    var j := SkipSpace(s, i);
    SkipSpaceShift(p, s, i);
    if j < |s| {
      var k := SkipWord(s, j);
      SkipWordShift(p, s, j);
      SplitFromShift(p, s, k);
      SplitFromShiftStep(p, s, i, j, k);
    }
  }

  lemma SplitFromShiftStep(p: string, s: string, i: nat, j: nat, k: nat)
    requires i <= j < k <= |s|
    requires SkipSpace(s, i) == j && SkipSpace(p + s, |p| + i) == |p| + j
    requires SkipWord(s, j) == k && SkipWord(p + s, |p| + j) == |p| + k
    requires SplitFrom(p + s, |p| + k) == SplitFrom(s, k)
    ensures SplitFrom(p + s, |p| + i) == SplitFrom(s, i)
  {
    SliceShift(p, s, j, k);
  }

  /** A word followed by whitespace or nothing is the first word. */
  lemma SplitWord(w: string, rest: string)
    requires w != [] && NoSpace(w)
    requires rest == [] || IsSpace(rest[0])
    ensures Split(w + rest) == [w] + Split(rest)
  {
    var s := w + rest;
    SkipSpaceAt(s, 0, 0);
    SkipWordAt(s, 0, |w|);
    SliceAt(s, 0, |w|);
    assert Slice(s, 0, |w|) == w;
    SplitFromShift(w, rest, 0);
  }

  /** Leading whitespace does not change the words. */
  lemma SplitSpace(rest: string)
    ensures Split(" " + rest) == Split(rest)
  {
    var s := " " + rest;
    SkipSpaceShift(" ", rest, 0);
    assert SkipSpace(s, 0) == SkipSpace(s, 1);
    SplitFromShift(" ", rest, 0);
  }

  lemma SplitWordSpace(w: string, rest: string)
    requires w != [] && NoSpace(w)
    ensures Split(w + " " + rest) == [w] + Split(rest)
  {
    assert w + " " + rest == w + (" " + rest);
    SplitWord(w, " " + rest);
    SplitSpace(rest);
  }

  lemma SplitJoinCons(ws: seq<string>)
    requires |ws| > 1 && ws[0] != [] && NoSpace(ws[0])
    requires Split(Join(" ", ws[1..])) == ws[1..]
    ensures Split(Join(" ", ws)) == ws
  {
    var rest := Join(" ", ws[1..]);
    assert Join(" ", ws) == ws[0] + " " + rest;
    SplitWordSpace(ws[0], rest);
    assert ws == [ws[0]] + ws[1..];
  }

  /** Splitting words joined by single spaces gives the words back. */
  lemma {:induction false} SplitJoin(ws: seq<string>)
    requires forall k :: 0 <= k < |ws| ==> ws[k] != [] && NoSpace(ws[k])
    ensures Split(Join(" ", ws)) == ws
  {
    if ws == [] {
    } else if |ws| == 1 {
      assert ws[0] + [] == ws[0];
      SplitWord(ws[0], []);
    } else {
      SplitJoin(ws[1..]);
      SplitJoinCons(ws);
    }
  }

  // ---------------------------------------------------------------- lines

  /** The line boundaries of str.splitlines(): \n, \r, \v, \f, \x1c, \x1d,
      \x1e, \x85, \u2028 and \u2029 (and \r\n as one boundary). */
  predicate IsLineBreak(c: char) {
    var n := c as int;
    (10 <= n <= 13) || (28 <= n <= 30) || n == 0x85 || n == 0x2028 || n == 0x2029
  }

  predicate NoLineBreak(s: string) {
    forall i :: 0 <= i < |s| ==> !IsLineBreak(s[i])
  }

  /** Every line boundary is whitespace. */
  lemma NoSpaceNoLineBreak(s: string)
    requires NoSpace(s)
    ensures NoLineBreak(s)
  {
  }

  function LineEnd(s: string): (k: nat)
    ensures k <= |s|
    ensures forall i :: 0 <= i < k ==> !IsLineBreak(s[i])
    ensures k < |s| ==> IsLineBreak(s[k])
  {
    if s == [] || IsLineBreak(s[0]) then 0 else 1 + LineEnd(s[1..])
  }

  /** s.splitlines(): the text between line boundaries, without the
      boundaries, and no empty last line after a final boundary. */
  function SplitLines(s: string): seq<string>
    decreases |s|
  {
    if s == [] then []
    else
      var k := LineEnd(s);
      if k == |s| then [s]
      else
        var skip := if s[k] == '\r' && k + 1 < |s| && s[k + 1] == '\n' then 2 else 1;
        [s[..k]] + SplitLines(s[k + skip..])
  }

  lemma LineEndOfLine(w: string, rest: string)
    requires NoLineBreak(w)
    requires rest == [] || IsLineBreak(rest[0])
    ensures LineEnd(w + rest) == |w|
  {
    if w != [] {
      assert (w + rest)[1..] == w[1..] + rest;
      LineEndOfLine(w[1..], rest);
    }
  }

  /** A line without a boundary, then "\n", is the first line. */
  lemma SplitLinesCons(w: string, rest: string)
    requires NoLineBreak(w)
    ensures SplitLines(w + ("\n" + rest)) == [w] + SplitLines(rest)
  {
    var s := w + ("\n" + rest);
    LineEndOfLine(w, "\n" + rest);
    assert s[..|w|] == w;
    assert s[|w| + 1..] == rest;
  }

  /** Lines joined with "\n" split back into the same lines, except that an
      empty last line is not seen again. */
  lemma {:induction false} SplitLinesJoin(ls: seq<string>)
    requires forall k :: 0 <= k < |ls| ==> NoLineBreak(ls[k])
    ensures SplitLines(Join("\n", ls)) ==
      if ls != [] && ls[|ls| - 1] == "" then ls[..|ls| - 1] else ls
  {
    if |ls| == 1 {
      if ls[0] != "" {
        assert ls[0] + [] == ls[0];
        LineEndOfLine(ls[0], []);
      }
    } else if |ls| > 1 {
      var rest := Join("\n", ls[1..]);
      assert Join("\n", ls) == ls[0] + ("\n" + rest);
      SplitLinesCons(ls[0], rest);
      SplitLinesJoin(ls[1..]);
      assert ls == [ls[0]] + ls[1..];
      if ls[|ls| - 1] == "" {
        assert ls[..|ls| - 1] == [ls[0]] + ls[1..][..|ls| - 2];
      }
    }
  }

  lemma NoLineBreakAppend(a: string, b: string)
    requires NoLineBreak(a) && NoLineBreak(b)
    ensures NoLineBreak(a + b)
  {
    forall i | |a| <= i < |a + b|
      ensures !IsLineBreak((a + b)[i])
    {
      assert (a + b)[i] == b[i - |a|];
    }
  }

  lemma JoinNoLineBreak(sep: string, parts: seq<string>)
    requires NoLineBreak(sep)
    requires forall k :: 0 <= k < |parts| ==> NoLineBreak(parts[k])
    ensures NoLineBreak(Join(sep, parts))
  {
    if |parts| > 1 {
      JoinNoLineBreak(sep, parts[1..]);
      NoLineBreakAppend(parts[0], sep);
      NoLineBreakAppend(parts[0] + sep, Join(sep, parts[1..]));
    }
  }

  // ---------------------------------------------------------------- case

  function LowerChar(c: char): char {
    if 'A' <= c <= 'Z' then (c as int + 32) as char else c
  }

  /** s.lower(), on ASCII letters. */
  function Lower(s: string): (r: string)
    ensures |r| == |s|
  {
    if s == [] then [] else [LowerChar(s[0])] + Lower(s[1..])
  }

  /** lower() maps each character on its own. */
  lemma {:induction false} LowerAt(s: string)
    ensures forall i :: 0 <= i < |s| ==> Lower(s)[i] == LowerChar(s[i])
  {
    if s != [] {
      LowerAt(s[1..]);
      assert forall i :: 1 <= i < |s| ==> Lower(s)[i] == Lower(s[1..])[i - 1];
    }
  }

  /** Lowering twice is lowering once. */
  lemma {:induction false} LowerIdempotent(s: string)
    ensures Lower(Lower(s)) == Lower(s)
  {
    if s != [] {
      LowerIdempotent(s[1..]);
      assert Lower(s)[1..] == Lower(s[1..]);
    }
  }

  /** lower() turns no character into whitespace. */
  lemma LowerNoSpace(s: string)
    requires NoSpace(s)
    ensures NoSpace(Lower(s))
  {
    LowerAt(s);
  }

  // ---------------------------------------------------------------- substrings

  predicate HasPrefix(s: string, p: string) {
    |p| <= |s| && s[..|p|] == p
  }

  /** sub in s */
  predicate Contains(s: string, sub: string) {
    HasPrefix(s, sub) || (s != [] && Contains(s[1..], sub))
  }

  /** s.replace(pat, rep): every non-overlapping occurrence of pat, found
      from left to right, is replaced; the replacement is not rescanned. */
  function Replace(s: string, pat: string, rep: string): (r: string)
    requires pat != []
    ensures !Contains(s, pat) ==> r == s
    decreases |s|
  {
    if |s| < |pat| then s
    else if s[..|pat|] == pat then rep + Replace(s[|pat|..], pat, rep)
    else [s[0]] + Replace(s[1..], pat, rep)
  }

  /** Replacing a single character distributes over concatenation. */
  lemma {:induction false} ReplaceCharAppend(a: string, b: string, c: char, rep: string)
    ensures Replace(a + b, [c], rep) == Replace(a, [c], rep) + Replace(b, [c], rep)
    decreases |a|
  {
    if a != [] {
      assert a + b == [a[0]] + (a[1..] + b);
      assert a == [a[0]] + a[1..];
      var x := if a[0] == c then rep else [a[0]];
      ReplaceCharCons(a[0], a[1..] + b, c, rep);
      ReplaceCharCons(a[0], a[1..], c, rep);
      ReplaceCharAppend(a[1..], b, c, rep);
      calc {
        Replace(a + b, [c], rep);
        x + Replace(a[1..] + b, [c], rep);
        x + (Replace(a[1..], [c], rep) + Replace(b, [c], rep));
        (x + Replace(a[1..], [c], rep)) + Replace(b, [c], rep);
        Replace(a, [c], rep) + Replace(b, [c], rep);
      }
    } else {
      assert a + b == b;
    }
  }

  lemma ReplaceCharCons(x: char, s: string, c: char, rep: string)
    ensures Replace([x] + s, [c], rep) == (if x == c then rep else [x]) + Replace(s, [c], rep)
  {
    assert ([x] + s)[..1] == [x];
    assert ([x] + s)[1..] == s;
  }

  /** A character not replaced and not inserted does not occur afterwards. */
  lemma {:induction false} ReplaceCharAbsent(s: string, c: char, rep: string, d: char)
    requires d !in rep && (d == c || d !in s)
    ensures d !in Replace(s, [c], rep)
    decreases |s|
  {
    if s != [] {
      ReplaceCharCons(s[0], s[1..], c, rep);
      assert s == [s[0]] + s[1..];
      ReplaceCharAbsent(s[1..], c, rep, d);
    }
  }

  /** Replacing a two-character pattern, seen from the first character. */
  lemma ReplacePairCons(x: char, s: string, p: char, q: char, rep: string)
    ensures Replace([x] + s, [p, q], rep) ==
      if x == p && s != [] && s[0] == q then rep + Replace(s[1..], [p, q], rep)
      else [x] + Replace(s, [p, q], rep)
  {
    var t := [x] + s;
    assert t[1..] == s;
    if |t| >= 2 {
      assert t[..2] == [x, s[0]];
      assert t[2..] == s[1..];
    }
  }

  lemma ReplaceSingleton(x: char, c: char, rep: string)
    ensures Replace([x], [c], rep) == if x == c then rep else [x]
  {
    assert [x] + [] == [x];
    ReplaceCharCons(x, [], c, rep);
  }

  /** An occurrence at some position is an occurrence. */
  lemma {:induction false} ContainsAt(s: string, i: nat, sub: string)
    requires i <= |s| && HasPrefix(s[i..], sub)
    ensures Contains(s, sub)
    decreases i
  {
    if i > 0 {
      assert s[1..][i - 1..] == s[i..];
      ContainsAt(s[1..], i - 1, sub);
    }
  }

  /** No occurrence starts before position n. */
  predicate NoMatchBefore(s: string, n: nat, pat: string) {
    forall i :: 0 <= i < n && i <= |s| ==> !HasPrefix(s[i..], pat)
  }

  /** Text in which no occurrence starts is copied as it is. */
  lemma {:induction false} ReplaceSkip(a: string, t: string, pat: string, rep: string)
    requires pat != [] && NoMatchBefore(a + t, |a|, pat)
    ensures Replace(a + t, pat, rep) == a + Replace(t, pat, rep)
    decreases |a|
  {
    if a != [] {
      var s := a + t;
      assert !HasPrefix(s[0..], pat);
      assert s[0..] == s;
      assert s[1..] == a[1..] + t;
      forall i | 0 <= i < |a| - 1 && i <= |s[1..]| ensures !HasPrefix(s[1..][i..], pat) {
        assert s[1..][i..] == s[i + 1..];
      }
      ReplaceSkip(a[1..], t, pat, rep);
      assert a == [a[0]] + a[1..];
      if |s| < |pat| {
        assert Replace(t, pat, rep) == t;
      } else {
        assert s[..|pat|] != pat;
        assert Replace(s, pat, rep) == [s[0]] + Replace(s[1..], pat, rep);
        assert Replace(s, pat, rep) == [a[0]] + (a[1..] + Replace(t, pat, rep));
      }
    } else {
      assert a + t == t;
    }
  }

  /** All of pat but its last character. */
  function Lead(pat: string): string
    requires pat != []
  {
    pat[..|pat| - 1]
  }

  /** An occurrence with nothing like it before is replaced where it
      stands, and the search goes on after it. */
  lemma ReplaceAt(a: string, pat: string, rep: string, b: string)
    requires pat != []
    requires !Contains(a + Lead(pat), pat)
    ensures Replace(a + pat + b, pat, rep) == a + rep + Replace(b, pat, rep)
  {
    var s := a + pat + b;
    forall i | 0 <= i < |a| && i <= |s| ensures !HasPrefix(s[i..], pat) {
      if HasPrefix(s[i..], pat) {
        var w := a + pat[..|pat| - 1];
        assert w[i..][..|pat|] == s[i..][..|pat|];
        ContainsAt(w, i, pat);
      }
    }
    assert s == a + (pat + b);
    ReplaceSkip(a, pat + b, pat, rep);
    assert (pat + b)[..|pat|] == pat;
    assert (pat + b)[|pat|..] == b;
  }

  /** A single occurrence with nothing like it before or after is replaced
      where it stands. */
  lemma ReplaceOnce(a: string, pat: string, rep: string, b: string)
    requires pat != []
    requires !Contains(a + Lead(pat), pat) && !Contains(b, pat)
    ensures Replace(a + pat + b, pat, rep) == a + rep + b
  {
    ReplaceAt(a, pat, rep, b);
  }

  /**
   * Every occurrence is replaced: pieces joined by pat, none of which makes
   * an occurrence with the start of the pat after it, become the same
   * pieces joined by rep.
   */
  lemma {:induction false} ReplaceEvery(parts: seq<string>, pat: string, rep: string)
    requires pat != [] && parts != []
    requires forall k :: 0 <= k < |parts| - 1 ==> !Contains(parts[k] + Lead(pat), pat)
    requires !Contains(parts[|parts| - 1], pat)
    ensures Replace(Join(pat, parts), pat, rep) == Join(rep, parts)
    decreases |parts|
  {
    if |parts| > 1 {
      ReplaceEvery(parts[1..], pat, rep);
      ReplaceAt(parts[0], pat, rep, Join(pat, parts[1..]));
    }
  }

  // ---------------------------------------------------------------- split(sep)

  /** s.split(c) for a one-character separator: never empty, and no part
      holds the separator. */
  function SplitOn(s: string, c: char): (r: seq<string>)
    ensures |r| >= 1
    ensures forall k :: 0 <= k < |r| ==> c !in r[k]
    decreases |s|
  {
    if s == [] then [""]
    else
      var rest := SplitOn(s[1..], c);
      if s[0] == c then [""] + rest else [[s[0]] + rest[0]] + rest[1..]
  }

  /** Joining the parts with the separator gives the string back. */
  lemma {:induction false} JoinSplitOn(s: string, c: char)
    ensures Join([c], SplitOn(s, c)) == s
    decreases |s|
  {
    if s != [] {
      var rest := SplitOn(s[1..], c);
      JoinSplitOn(s[1..], c);
      if s[0] == c {
        assert SplitOn(s, c) == [""] + rest;
        assert ([""] + rest)[1..] == rest;
        assert |[""] + rest| > 1;
      } else {
        var parts := SplitOn(s, c);
        assert parts == [[s[0]] + rest[0]] + rest[1..];
        if |rest| == 1 {
          assert parts == [[s[0]] + rest[0]];
        } else {
          assert parts[1..] == rest[1..];
          assert Join([c], rest) == rest[0] + [c] + Join([c], rest[1..]);
        }
      }
    }
  }

  /** Splitting parts joined by a separator they do not contain gives the
      parts back. */
  lemma {:induction false} SplitOnJoin(parts: seq<string>, c: char)
    requires |parts| >= 1
    requires forall k :: 0 <= k < |parts| ==> c !in parts[k]
    ensures SplitOn(Join([c], parts), c) == parts
    decreases |parts|, |parts[0]|
  {
    if parts[0] != [] {
      var p0 := parts[0];
      var tail := [p0[1..]] + parts[1..];
      assert Join([c], parts) == [p0[0]] + Join([c], tail) by {
        if |parts| == 1 {
          assert tail == [p0[1..]];
        } else {
          assert tail[1..] == parts[1..];
          assert p0 == [p0[0]] + p0[1..];
        }
      }
      assert p0[0] in p0;
      SplitOnJoin(tail, c);
      var s := Join([c], parts);
      assert s[1..] == Join([c], tail);
      assert p0 == [p0[0]] + tail[0];
      assert [tail[0]] + tail[1..] == tail;
    } else if |parts| > 1 {
      var s := Join([c], parts);
      assert s == [c] + Join([c], parts[1..]);
      assert s[1..] == Join([c], parts[1..]);
      SplitOnJoin(parts[1..], c);
      assert parts == [""] + parts[1..];
    }
  }

  // ---------------------------------------------------------------- integers

  predicate IsDigit(c: char) {
    '0' <= c <= '9'
  }

  /** The digit groups Python's int() accepts: ASCII digits, with single
      underscores allowed between two digits. */
  predicate IsDigitString(s: string) {
    && s != []
    && IsDigit(s[0]) && IsDigit(s[|s| - 1])
    && (forall i :: 0 <= i < |s| ==> IsDigit(s[i]) || s[i] == '_')
    && !Contains(s, "__")
  }

  /** The value of a string of digits and underscores, read in base 10. */
  function DigitsValue(s: string): nat
    requires forall i :: 0 <= i < |s| ==> IsDigit(s[i]) || s[i] == '_'
  {
    if s == [] then 0
    else if s[|s| - 1] == '_' then DigitsValue(s[..|s| - 1])
    else DigitsValue(s[..|s| - 1]) * 10 + DigitValue(s[|s| - 1])
  }

  function DigitValue(c: char): (d: nat)
    requires IsDigit(c)
    ensures d < 10
  {
    c as int - '0' as int
  }

  /** int(t) for base 10 on text without surrounding whitespace: an
      optional sign and a digit string; None stands for the ValueError. */
  function ParseSigned(t: string): Option<int> {
    if t == [] then None
    else if t[0] == '-' || t[0] == '+' then
      var d := t[1..];
      if IsDigitString(d) then Some(if t[0] == '-' then -(DigitsValue(d) as int) else DigitsValue(d))
      else None
    else if IsDigitString(t) then Some(DigitsValue(t))
    else None
  }

  /** int(s) for base 10: surrounding whitespace is ignored. */
  function ParseInt(s: string): Option<int> {
    ParseSigned(Strip(s))
  }

  /** On text without whitespace int() has nothing to strip. */
  lemma ParseIntNoSpace(s: string)
    requires NoSpace(s)
    ensures ParseInt(s) == ParseSigned(s)
  {
    StripStripped(s);
  }

  function DigitChar(d: nat): char
    requires d < 10
  {
    ('0' as int + d) as char
  }

  /** str(n) for n >= 0: decimal digits without leading zeros. */
  function NatToString(n: nat): (r: string)
    ensures r != [] && (forall i :: 0 <= i < |r| ==> IsDigit(r[i]))
    ensures |r| > 1 ==> r[0] != '0'
  {
    if n < 10 then [DigitChar(n)] else NatToString(n / 10) + [DigitChar(n % 10)]
  }

  /** str(i) for any integer. */
  function IntToString(i: int): (r: string)
    ensures r != [] && NoSpace(r) && '/' !in r
    ensures r[0] == '-' <==> i < 0
  {
    var r := if i < 0 then "-" + NatToString(-i) else NatToString(i);
    assert forall k :: 0 < k < |r| ==> IsDigit(r[k]);
    r
  }

  lemma {:induction false} NatToStringValue(n: nat)
    ensures IsDigitString(NatToString(n))
    ensures DigitsValue(NatToString(n)) == n
  {
    var s := NatToString(n);
    if n >= 10 {
      NatToStringValue(n / 10);
      assert s[..|s| - 1] == NatToString(n / 10);
    }
    AbsentNotContained(s, "__");
  }

  lemma AbsentNotContained(s: string, sub: string)
    requires sub != [] && sub[0] !in s
    ensures !Contains(s, sub)
  {
    if s != [] {
      AbsentNotContained(s[1..], sub);
    }
  }

  /** int(str(i)) == i */
  lemma ParseSignedToString(i: int)
    ensures ParseSigned(IntToString(i)) == Some(i)
  {
    var s := IntToString(i);
    if i < 0 {
      NatToStringValue(-i);
      assert s[1..] == NatToString(-i);
    } else {
      NatToStringValue(i);
    }
  }

  lemma ParseIntToString(i: int)
    ensures ParseInt(IntToString(i)) == Some(i)
  {
    ParseIntNoSpace(IntToString(i));
    ParseSignedToString(i);
  }
}
