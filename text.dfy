/**
 * The string operations the engine and the portfolio rely on, restricted to
 * ASCII: whitespace splitting (`str.split()` with no argument), stripping a
 * fixed set of characters from both ends (`str.strip(chars)`) and ASCII case
 * mapping (`str.upper()`, `str.lower()`).
 */
module Text {

  /** ASCII whitespace as `str.split()` sees it: tab, line feed, vertical tab,
      form feed, carriage return, the four separators 0x1C-0x1F and space. */
  predicate IsSpace(c: char) {
    c == ' ' || (9 <= c as int <= 13) || (28 <= c as int <= 31)
  }

  predicate NoSpace(w: string) {
    forall i :: 0 <= i < |w| ==> !IsSpace(w[i])
  }

  /** Length of the run of non-whitespace characters that starts `s`. */
  function WordLength(s: string): (n: nat)
    ensures n <= |s|
    ensures NoSpace(s[..n])
    ensures n == |s| || IsSpace(s[n])
  {
    if s == [] || IsSpace(s[0]) then 0 else 1 + WordLength(s[1..])
  }

  /** The maximal runs of non-whitespace characters of `s`, in order. */
  function Split(s: string): (words: seq<string>)
    ensures forall i :: 0 <= i < |words| ==> words[i] != [] && NoSpace(words[i])
    decreases |s|
  {
    if s == [] then []
    else if IsSpace(s[0]) then Split(s[1..])
    else
      var n := WordLength(s);
      [s[..n]] + Split(s[n..])
  }

  /** The words separated by single spaces (`" ".join(words)`). */
  function JoinSpaced(words: seq<string>): string {
    if |words| == 0 then []
    else if |words| == 1 then words[0]
    else words[0] + " " + JoinSpaced(words[1..])
  }

  lemma {:induction false} SplitLeadingSpaces(pre: string, rest: string)
    requires forall i :: 0 <= i < |pre| ==> IsSpace(pre[i])
    ensures Split(pre + rest) == Split(rest)
    decreases |pre|
  {
    if pre != [] {
      assert (pre + rest)[1..] == pre[1..] + rest;
      SplitLeadingSpaces(pre[1..], rest);
    } else {
      assert pre + rest == rest;
    }
  }

  lemma {:induction false} WordLengthOfWord(w: string, rest: string)
    requires NoSpace(w)
    requires rest == [] || IsSpace(rest[0])
    ensures WordLength(w + rest) == |w|
    decreases |w|
  {
    if w == [] {
      assert w + rest == rest;
    } else {
      assert (w + rest)[1..] == w[1..] + rest;
      WordLengthOfWord(w[1..], rest);
    }
  }

  /** Splitting undoes joining: words without whitespace, separated by
      single spaces, come back exactly. */
  lemma {:induction false} SplitJoinSpaced(words: seq<string>)
    requires forall i :: 0 <= i < |words| ==> words[i] != [] && NoSpace(words[i])
    ensures Split(JoinSpaced(words)) == words
  {
    if |words| == 1 {
      var w := words[0];
      assert w + [] == w;
      WordLengthOfWord(w, []);
      assert w[..|w|] == w && w[|w|..] == [];
      assert Split(w) == [w] + Split([]);
    } else if |words| > 1 {
      var w, rest := words[0], JoinSpaced(words[1..]);
      var s := w + " " + rest;
      assert s == w + (" " + rest);
      WordLengthOfWord(w, " " + rest);
      assert s[..|w|] == w;
      assert s[|w|..] == " " + rest;
      SplitLeadingSpaces(" ", rest);
      SplitJoinSpaced(words[1..]);
    }
  }

  predicate AllSpace(w: string) {
    forall i :: 0 <= i < |w| ==> IsSpace(w[i])
  }

  /** The whitespace runs around and between the words of `Split(s)`: the
      leading run, one run after each word, the last being the trailing run. */
  function Gaps(s: string): (gaps: seq<string>)
    ensures |gaps| >= 1
    decreases |s|
  {
    if s == [] then [[]]
    else if IsSpace(s[0]) then
      var g := Gaps(s[1..]);
      [[s[0]] + g[0]] + g[1..]
    else
      [[]] + Gaps(s[WordLength(s)..])
  }

  /** `gaps[0] + words[0] + gaps[1] + words[1] + ... + gaps[|words|]`. */
  function Interleave(gaps: seq<string>, words: seq<string>): string
    decreases |gaps|
  {
    if gaps == [] then []
    else if words == [] then gaps[0]
    else gaps[0] + words[0] + Interleave(gaps[1..], words[1..])
  }

  lemma {:induction false} GapsCount(s: string)
    ensures |Gaps(s)| == |Split(s)| + 1
    decreases |s|
  {
    if s != [] {
      if IsSpace(s[0]) {
        GapsCount(s[1..]);
      } else {
        GapsCount(s[WordLength(s)..]);
      }
    }
  }

  lemma {:induction false} GapsAreSpace(s: string)
    ensures forall i :: 0 <= i < |Gaps(s)| ==> AllSpace(Gaps(s)[i])
    decreases |s|
  {
    if s != [] {
      var gs := Gaps(s);
      if IsSpace(s[0]) {
        var g := Gaps(s[1..]);
        GapsAreSpace(s[1..]);
        forall i | 0 <= i < |gs| ensures AllSpace(gs[i]) {
          if i > 0 {
            assert gs[i] == g[i];
          } else {
            assert gs[0] == [s[0]] + g[0];
          }
        }
      } else {
        var g := Gaps(s[WordLength(s)..]);
        GapsAreSpace(s[WordLength(s)..]);
        forall i | 0 <= i < |gs| ensures AllSpace(gs[i]) {
          if i > 0 {
            assert gs[i] == g[i - 1];
          }
        }
      }
    }
  }

  /** The run before a text that starts with whitespace is not empty. */
  lemma FirstGapOfSpace(s: string)
    requires s != [] && IsSpace(s[0])
    ensures Gaps(s)[0] != []
  {
  }

  lemma {:induction false} InnerGapsNonEmpty(s: string)
    ensures forall i :: 0 < i < |Gaps(s)| - 1 ==> Gaps(s)[i] != []
    decreases |s|
  {
    if s != [] {
      var gs := Gaps(s);
      if IsSpace(s[0]) {
        var g := Gaps(s[1..]);
        InnerGapsNonEmpty(s[1..]);
        forall i | 0 < i < |gs| - 1 ensures gs[i] != [] {
          assert gs[i] == g[i];
        }
      } else {
        var rest := s[WordLength(s)..];
        var g := Gaps(rest);
        InnerGapsNonEmpty(rest);
        if |gs| > 2 {
          FirstGapOfSpace(rest);
        }
        forall i | 0 < i < |gs| - 1 ensures gs[i] != [] {
          assert gs[i] == g[i - 1];
        }
      }
    }
  }

  /** Text put before the first gap ends up in front. */
  lemma InterleaveWiderFirstGap(x: string, g: seq<string>, w: seq<string>)
    requires |g| >= 1
    ensures Interleave([x + g[0]] + g[1..], w) == x + Interleave(g, w)
  {
    var gs := [x + g[0]] + g[1..];
    assert gs[0] == x + g[0] && gs[1..] == g[1..];
    if w != [] {
      assert (x + g[0]) + w[0] + Interleave(g[1..], w[1..]) == x + (g[0] + w[0] + Interleave(g[1..], w[1..]));
    }
  }

  /** An empty first gap followed by a word puts that word in front. */
  lemma InterleaveWordFirst(word: string, g: seq<string>, w: seq<string>)
    ensures Interleave([[]] + g, [word] + w) == word + Interleave(g, w)
  {
    var gs, ws := [[]] + g, [word] + w;
    assert gs[0] == [] && gs[1..] == g;
    assert ws[0] == word && ws[1..] == w;
    assert [] + word == word;
  }

  lemma {:induction false} InterleaveGaps(s: string)
    ensures Interleave(Gaps(s), Split(s)) == s
    decreases |s|
  {
    if s != [] {
      if IsSpace(s[0]) {
        var rest := s[1..];
        InterleaveGaps(rest);
        InterleaveWiderFirstGap([s[0]], Gaps(rest), Split(rest));
        assert s == [s[0]] + rest;
      } else {
        var n := WordLength(s);
        var rest := s[n..];
        InterleaveGaps(rest);
        InterleaveWordFirst(s[..n], Gaps(rest), Split(rest));
        assert s == s[..n] + rest;
      }
    }
  }

  /** `Split` loses and reorders nothing: the text is its leading whitespace,
      then the words separated by non-empty runs of whitespace, then its
      trailing whitespace.  So the words are exactly the maximal
      non-whitespace runs, in order. */
  lemma {:induction false} SplitCoversText(s: string)
    ensures |Gaps(s)| == |Split(s)| + 1
    ensures forall i :: 0 <= i < |Gaps(s)| ==> AllSpace(Gaps(s)[i])
    ensures forall i :: 0 < i < |Gaps(s)| - 1 ==> Gaps(s)[i] != []
    ensures Interleave(Gaps(s), Split(s)) == s
  {
    GapsCount(s);
    GapsAreSpace(s);
    InnerGapsNonEmpty(s);
    InterleaveGaps(s);
  }

  /** The characters `analyze_social_posts` strips from both ends of a token. */
  const StripChars: set<char> := {'.', ',', '!', '?', ';', ':', '(', ')', '[', ']', '{', '}', '"'}

  /** Number of leading characters of `s` in `StripChars`. */
  function LeadingStripped(s: string): (n: nat)
    ensures n <= |s|
    ensures forall k :: 0 <= k < n ==> s[k] in StripChars
    ensures n == |s| || s[n] !in StripChars
  {
    if s != [] && s[0] in StripChars then 1 + LeadingStripped(s[1..]) else 0
  }

  /** Number of trailing characters of `s` in `StripChars`. */
  function TrailingStripped(s: string): (n: nat)
    ensures n <= |s|
    ensures forall k :: |s| - n <= k < |s| ==> s[k] in StripChars
    ensures n == |s| || s[|s| - 1 - n] !in StripChars
  {
    if s != [] && s[|s| - 1] in StripChars then 1 + TrailingStripped(s[..|s| - 1]) else 0
  }

  /** `s.strip(StripChars)`: what is left neither starts nor ends with a
      character of the set (see `StripIsSlice` for what was removed). */
  function Strip(s: string): (r: string)
    ensures |r| <= |s|
    ensures r == [] || (r[0] !in StripChars && r[|r| - 1] !in StripChars)
  {
    var i := LeadingStripped(s);
    var t := s[i..];
    t[..|t| - TrailingStripped(t)]
  }

  /** Stripping removes only characters of the set, and only from the two
      ends: the result is the slice `s[i..j]` and the characters between the
      two ends are untouched. */
  lemma StripIsSlice(s: string)
    ensures exists i, j :: 0 <= i <= j <= |s| && Strip(s) == s[i..j]
              && (forall k :: 0 <= k < i ==> s[k] in StripChars)
              && (forall k :: j <= k < |s| ==> s[k] in StripChars)
  {
    var i := LeadingStripped(s);
    var t := s[i..];
    var j := i + (|t| - TrailingStripped(t));
    assert t[..|t| - TrailingStripped(t)] == s[i..j];
    forall k | j <= k < |s| ensures s[k] in StripChars {
      assert s[k] == t[k - i];
    }
  }

  /** Stripping twice is stripping once. */
  lemma StripIdempotent(s: string)
    ensures Strip(Strip(s)) == Strip(s)
  {
    var r := Strip(s);
    if r != [] {
      assert LeadingStripped(r) == 0;
      assert TrailingStripped(r[LeadingStripped(r)..]) == 0 by {
        assert r[LeadingStripped(r)..] == r;
      }
      assert r[0..|r|] == r;
    }
  }

  /** A word that neither starts nor ends with a strip character is left
      as it is. */
  lemma StripKeepsCleanWord(w: string)
    requires w != [] && w[0] !in StripChars && w[|w| - 1] !in StripChars
    ensures Strip(w) == w
  {
    assert LeadingStripped(w) == 0;
    assert w[0..] == w;
    assert TrailingStripped(w) == 0;
    assert w[0..|w|] == w;
  }

  function UpperChar(c: char): char {
    if 'a' <= c <= 'z' then (c as int - 32) as char else c
  }

  function LowerChar(c: char): char {
    if 'A' <= c <= 'Z' then (c as int + 32) as char else c
  }

  /** ASCII `str.upper()`. */
  function Upper(s: string): (r: string)
    ensures |r| == |s|
    ensures forall i :: 0 <= i < |s| ==> r[i] == UpperChar(s[i])
  {
    if s == [] then [] else [UpperChar(s[0])] + Upper(s[1..])
  }

  /** ASCII `str.lower()`. */
  function Lower(s: string): (r: string)
    ensures |r| == |s|
    ensures forall i :: 0 <= i < |s| ==> r[i] == LowerChar(s[i])
  {
    if s == [] then [] else [LowerChar(s[0])] + Lower(s[1..])
  }

  lemma UpperIdempotent(s: string)
    ensures Upper(Upper(s)) == Upper(s)
  {
  }

  /** Upper-casing never turns a character into a strip character, so an
      upper-cased token whose ends were clean still has clean ends. */
  lemma UpperKeepsCleanEnds(s: string)
    requires s != [] && s[0] !in StripChars && s[|s| - 1] !in StripChars
    ensures Upper(s)[0] !in StripChars && Upper(s)[|s| - 1] !in StripChars
  {
    UpperCharKeepsClean(s[0]);
    UpperCharKeepsClean(s[|s| - 1]);
  }

  lemma UpperCharKeepsClean(c: char)
    requires c !in StripChars
    ensures UpperChar(c) !in StripChars
  {
    if 'a' <= c <= 'z' {
      assert 'A' <= UpperChar(c) <= 'Z';
    }
  }

  /** Lower-casing an upper-cased token gives the lower-cased token, so
      matching `Lower(Upper(t))` against a lower-case word list is a
      case-insensitive match on `t`. */
  lemma LowerOfUpper(s: string)
    ensures Lower(Upper(s)) == Lower(s)
  {
  }
}
