/**
 * The JavaScript string and array operations the app's rules are built from:
 * `toLowerCase`/`toUpperCase`, `trim`, `split(/\s+/)`, `split(',')`, `join`,
 * `substring(0, n)`, `filter`, `[...new Set(xs)]` and the default `sort` order.
 * Strings are sequences of characters; case mapping covers ASCII letters only.
 */
module Strings {

  /** The characters that JavaScript's `\s` class and `String.prototype.trim` treat as white space. */
  predicate IsSpace(c: char) {
    || c == ' ' || c == '\t' || c == '\n' || c == '\r'
    || c == '\U{B}' || c == '\U{C}' || c == '\U{A0}' || c == '\U{1680}'
    || ('\U{2000}' <= c <= '\U{200A}')
    || c == '\U{2028}' || c == '\U{2029}' || c == '\U{202F}' || c == '\U{205F}'
    || c == '\U{3000}' || c == '\U{FEFF}'
  }

  predicate NoSpace(s: string) {
    forall i :: 0 <= i < |s| ==> !IsSpace(s[i])
  }

  predicate AllSpace(s: string) {
    forall i :: 0 <= i < |s| ==> IsSpace(s[i])
  }

  /** The test of `.filter(Boolean)` on strings. */
  predicate IsNonEmpty(s: string) { s != [] }

  predicate IsUpperLetter(c: char) { 'A' <= c <= 'Z' }

  predicate IsLowerLetter(c: char) { 'a' <= c <= 'z' }

  /** The characters kept by the pattern `[a-z0-9]`. */
  predicate IsLowerAlnum(c: char) { IsLowerLetter(c) || '0' <= c <= '9' }

  function LowerChar(c: char): (r: char)
    ensures !IsUpperLetter(r)
    ensures IsSpace(r) <==> IsSpace(c)
  {
    if IsUpperLetter(c) then (c as int + 32) as char else c
  }

  function UpperChar(c: char): (r: char)
    ensures !IsLowerLetter(r)
  {
    if IsLowerLetter(c) then (c as int - 32) as char else c
  }

  /** `toLowerCase()`, restricted to ASCII letters. */
  function Lower(s: string): (r: string)
    ensures |r| == |s|
    ensures forall i :: 0 <= i < |s| ==> r[i] == LowerChar(s[i])
  {
    seq(|s|, i requires 0 <= i < |s| => LowerChar(s[i]))
  }

  /** `toUpperCase()`, restricted to ASCII letters. */
  function Upper(s: string): (r: string)
    ensures |r| == |s|
    ensures forall i :: 0 <= i < |s| ==> r[i] == UpperChar(s[i])
  {
    seq(|s|, i requires 0 <= i < |s| => UpperChar(s[i]))
  }

  predicate IsLowerCase(s: string) {
    forall i :: 0 <= i < |s| ==> !IsUpperLetter(s[i])
  }

  predicate IsUpperCase(s: string) {
    forall i :: 0 <= i < |s| ==> !IsLowerLetter(s[i])
  }

  lemma LowerIsLowerCase(s: string)
    ensures IsLowerCase(Lower(s))
    ensures Lower(Lower(s)) == Lower(s)
  {
  }

  // ---------------------------------------------------------------- trim

  function TrimStart(s: string): (r: string)
    ensures |r| <= |s| && r == s[|s| - |r|..]
    ensures forall i :: 0 <= i < |s| - |r| ==> IsSpace(s[i])
    ensures r != [] ==> !IsSpace(r[0])
    decreases |s|
  {
    if |s| > 0 && IsSpace(s[0]) then TrimStart(s[1..]) else s
  }

  function TrimEnd(s: string): (r: string)
    ensures |r| <= |s| && r == s[..|r|]
    ensures forall i :: |r| <= i < |s| ==> IsSpace(s[i])
    ensures r != [] ==> !IsSpace(r[|r| - 1])
    decreases |s|
  {
    if |s| > 0 && IsSpace(s[|s| - 1]) then TrimEnd(s[..|s| - 1]) else s
  }

  /** `trim()`: white space removed from both ends, nothing else changed. */
  function Trim(s: string): (r: string)
    ensures r != [] ==> !IsSpace(r[0]) && !IsSpace(r[|r| - 1])
    ensures r == [] <==> AllSpace(s)
    ensures |r| <= |s|
  {
    var t := TrimStart(s);
    var r := TrimEnd(t);
    assert r != [] ==> r[0] == t[0];
    assert t == [] ==> AllSpace(s);
    assert r == [] ==> t == [];
    r
  }

  /** `r` sits in `s` at position `i` with only white space before and after it. */
  predicate FramedAt(s: string, r: string, i: int) {
    0 <= i <= |s| - |r| && r == s[i..i + |r|] && AllSpace(s[..i]) && AllSpace(s[i + |r|..])
  }

  /**
   * Trimming removes white space at the two ends and nothing else: the result
   * is a slice of the input with only white space before and after it.
   */
  lemma TrimRemovesOnlyEnds(s: string)
    ensures exists i :: FramedAt(s, Trim(s), i)
  {
    var t := TrimStart(s);
    var r := TrimEnd(t);
    assert Trim(s) == r;
    SpaceFramed(s, t, r);
    assert FramedAt(s, r, |s| - |t|);
  }

  /** A suffix `t` of `s` after white space, and a prefix `r` of `t` before white space, is a slice of `s` framed by white space. */
  lemma SpaceFramed(s: string, t: string, r: string)
    requires |t| <= |s| && t == s[|s| - |t|..] && forall j :: 0 <= j < |s| - |t| ==> IsSpace(s[j])
    requires |r| <= |t| && r == t[..|r|] && forall j :: |r| <= j < |t| ==> IsSpace(t[j])
    ensures FramedAt(s, r, |s| - |t|)
  {
    var i := |s| - |t|;
    var tail := s[i + |r|..];
    forall j | 0 <= j < |tail| ensures IsSpace(tail[j]) {
      assert tail[j] == t[|r| + j];
    }
  }

  lemma TrimStartOfTrimmed(s: string)
    requires s == [] || !IsSpace(s[0])
    ensures TrimStart(s) == s
  {
  }

  lemma TrimEndOfTrimmed(s: string)
    requires s == [] || !IsSpace(s[|s| - 1])
    ensures TrimEnd(s) == s
  {
  }

  /** Trimming only removes characters. */
  lemma TrimChars(s: string)
    ensures forall c :: c in Trim(s) ==> c in s
  {
    var t := TrimStart(s);
    var r := TrimEnd(t);
    assert forall i :: 0 <= i < |r| ==> r[i] == t[i];
    assert forall i :: 0 <= i < |t| ==> t[i] == s[|s| - |t| + i];
  }

  /** Lower-casing introduces no character other than a lower-case letter. */
  lemma LowerChars(s: string, c: char)
    requires c in Lower(s) && !IsLowerLetter(c)
    ensures c in s
  {
    var i :| 0 <= i < |s| && Lower(s)[i] == c;
    assert s[i] == c;
  }

  /** Trimming twice is trimming once. */
  lemma TrimIdempotent(s: string)
    ensures Trim(Trim(s)) == Trim(s)
  {
    var r := Trim(s);
    TrimStartOfTrimmed(r);
    TrimEndOfTrimmed(r);
  }

  lemma {:induction false} TrimStartPadded(a: string, t: string)
    requires AllSpace(a)
    ensures TrimStart(a + t) == TrimStart(t)
    decreases |a|
  {
    if a != [] {
      assert (a + t)[0] == a[0];
      assert (a + t)[1..] == a[1..] + t;
      TrimStartPadded(a[1..], t);
    } else {
      assert a + t == t;
    }
  }

  lemma {:induction false} TrimEndPadded(t: string, b: string)
    requires AllSpace(b)
    ensures TrimEnd(t + b) == TrimEnd(t)
    decreases |b|
  {
    if b != [] {
      var n := |b| - 1;
      assert (t + b)[|t + b| - 1] == b[n];
      assert (t + b)[..|t + b| - 1] == t + b[..n];
      TrimEndPadded(t, b[..n]);
    } else {
      assert t + b == t;
    }
  }

  /** TrimStart(s + b) keeps the padding `b` unless `s` is all white space. */
  lemma {:induction false} TrimStartAppend(s: string, b: string)
    requires AllSpace(b)
    ensures AllSpace(s) ==> TrimStart(s + b) == []
    ensures !AllSpace(s) ==> TrimStart(s + b) == TrimStart(s) + b
    decreases |s|
  {
    if s == [] {
      assert s + b == b;
      TrimStartPadded(b, []);
      assert b + [] == b;
    } else if IsSpace(s[0]) {
      assert (s + b)[0] == s[0];
      assert (s + b)[1..] == s[1..] + b;
      TrimStartAppend(s[1..], b);
    }
  }

  /** Leading and trailing white space make no difference to `trim()`. */
  lemma TrimIgnoresPadding(a: string, s: string, b: string)
    requires AllSpace(a) && AllSpace(b)
    ensures Trim(a + s + b) == Trim(s)
  {
    assert a + s + b == a + (s + b);
    TrimStartPadded(a, s + b);
    TrimStartAppend(s, b);
    if !AllSpace(s) {
      TrimEndPadded(TrimStart(s), b);
    }
  }

  // ---------------------------------------------------------------- split(/\s+/)

  /** Index of the first white-space character of `s`, or |s| when there is none. */
  function WordEnd(s: string): (k: nat)
    ensures k <= |s|
    ensures NoSpace(s[..k])
    ensures k < |s| ==> IsSpace(s[k])
    decreases |s|
  {
    if s == [] || IsSpace(s[0]) then 0
    else
      var k := 1 + WordEnd(s[1..]);
      assert s[..k] == [s[0]] + s[1..][..k - 1];
      k
  }

  /**
   * `split(/\s+/)`: the pieces between maximal runs of white space. A leading
   * (trailing) run yields an empty first (last) piece, and "" splits into [""].
   */
  function SplitWs(s: string): (parts: seq<string>)
    ensures |parts| >= 1
    ensures forall p :: p in parts ==> NoSpace(p)
    decreases |s|
  {
    var k := WordEnd(s);
    if k == |s| then [s]
    else
      var t := s[k..];
      assert t[0] == s[k];
      var rest := TrimStart(t);
      [s[..k]] + SplitWs(rest)
  }

  /** `s` with every white-space character removed. */
  function StripSpace(s: string): string {
    Filter(IsNonSpace, s)
  }

  predicate IsNonSpace(c: char) { !IsSpace(c) }

  lemma StripSpaceOfWord(w: string)
    requires NoSpace(w)
    ensures StripSpace(w) == w
  {
    FilterAll(IsNonSpace, w);
  }

  lemma StripSpaceOfBlank(w: string)
    requires AllSpace(w)
    ensures StripSpace(w) == []
  {
    FilterNone(IsNonSpace, w);
  }

  /**
   * The partner of SplitWs: gluing the pieces back together gives the input
   * without its white space, so splitting loses nothing but the separators.
   */
  lemma {:induction false} SplitWsLosesOnlySpace(s: string)
    ensures Flatten(SplitWs(s)) == StripSpace(s)
    decreases |s|
  {
    var k := WordEnd(s);
    if k == |s| {
      SplitWsOfWord(s);
      StripSpaceOfWord(s);
      FlattenCons(s, []);
      assert s + [] == s;
    } else {
      var rest := TrimStart(s[k..]);
      var gap := SplitWsStep(s);
      SplitWsUnfold(s);
      calc {
        Flatten(SplitWs(s));
        == { FlattenCons(s[..k], SplitWs(rest)); }
        s[..k] + Flatten(SplitWs(rest));
        == { SplitWsLosesOnlySpace(rest); }
        s[..k] + StripSpace(rest);
        == { StripSpaceOfWordGap(s[..k], gap, rest); }
        StripSpace(s);
      }
    }
  }

  /** One step of SplitWs: a word, a run of white space, and the rest. */
  lemma SplitWsStep(s: string) returns (gap: string)
    requires WordEnd(s) < |s|
    ensures AllSpace(gap)
    ensures s == s[..WordEnd(s)] + gap + TrimStart(s[WordEnd(s)..])
  {
    var k := WordEnd(s);
    gap := LeadingSpace(s[k..]);
    Regroup(s, k, gap, TrimStart(s[k..]));
  }

  lemma Regroup(s: string, k: nat, gap: string, rest: string)
    requires k <= |s| && s[k..] == gap + rest
    ensures s == s[..k] + gap + rest
  {
    assert s == s[..k] + s[k..];
  }

  /** The white space TrimStart removes, as a prefix of its input. */
  lemma LeadingSpace(t: string) returns (gap: string)
    ensures AllSpace(gap) && t == gap + TrimStart(t)
  {
    var rest := TrimStart(t);
    var n := |t| - |rest|;
    gap := t[..n];
    assert forall i :: 0 <= i < n ==> gap[i] == t[i];
    assert t == t[..n] + t[n..];
  }

  lemma SplitWsUnfold(s: string)
    requires WordEnd(s) < |s|
    ensures SplitWs(s) == [s[..WordEnd(s)]] + SplitWs(TrimStart(s[WordEnd(s)..]))
  {
  }

  lemma StripSpaceOfWordGap(w: string, gap: string, rest: string)
    requires NoSpace(w) && AllSpace(gap)
    ensures StripSpace(w + gap + rest) == w + StripSpace(rest)
  {
    FilterConcat(IsNonSpace, w + gap, rest);
    FilterConcat(IsNonSpace, w, gap);
    StripSpaceOfWord(w);
    StripSpaceOfBlank(gap);
    assert w + [] == w;
  }

  /** When `s` has no white space at either end, no piece of its split is empty. */
  lemma {:induction false} SplitWsOfTrimmed(s: string)
    requires s != [] && !IsSpace(s[0]) && !IsSpace(s[|s| - 1])
    ensures forall p :: p in SplitWs(s) ==> p != []
    decreases |s|
  {
    var k := WordEnd(s);
    if k < |s| {
      var rest := TrimStart(s[k..]);
      TrimmedTail(s[k..]);
      SplitWsOfTrimmed(rest);
      SplitWsUnfold(s);
      assert k != 0 by { assert IsSpace(s[k]); }
      ConsNonEmpty(s[..k], SplitWs(rest));
    }
  }

  lemma ConsNonEmpty(w: string, ps: seq<string>)
    requires w != [] && forall p :: p in ps ==> p != []
    ensures forall p :: p in [w] + ps ==> p != []
  {
  }

  /** Leading white space off a string that ends in a non-space character leaves a trimmed, non-empty string. */
  lemma TrimmedTail(t: string)
    requires t != [] && !IsSpace(t[|t| - 1])
    ensures var rest := TrimStart(t); rest != [] && !IsSpace(rest[0]) && !IsSpace(rest[|rest| - 1])
  {
    var rest := TrimStart(t);
    assert rest != [];
    assert rest[|rest| - 1] == t[|t| - 1];
  }

  /** Splitting a string without white space gives the string itself. */
  lemma SplitWsOfWord(w: string)
    requires NoSpace(w)
    ensures SplitWs(w) == [w]
  {
    var k := WordEnd(w);
    assert k == |w|;
  }

  /** WordEnd(s) is the first white-space position. */
  lemma WordEndAt(s: string, k: nat)
    requires k < |s| && NoSpace(s[..k]) && IsSpace(s[k])
    ensures WordEnd(s) == k
  {
    var e := WordEnd(s);
    assert forall i :: 0 <= i < k ==> s[..k][i] == s[i];
    assert forall i :: 0 <= i < e ==> s[..e][i] == s[i];
  }

  /** Words without white space joined by single spaces split back into those words. */
  lemma {:induction false} SplitWsJoin(ws: seq<string>)
    requires |ws| >= 1
    requires forall i :: 0 <= i < |ws| ==> ws[i] != [] && NoSpace(ws[i])
    ensures SplitWs(Join(ws, " ")) == ws
    decreases |ws|
  {
    if |ws| == 1 {
      SplitWsOfWord(ws[0]);
    } else {
      SplitWsJoin(ws[1..]);
      JoinStep(ws);
    }
  }

  /** The inductive step of SplitWsJoin: the first word, then the split of the rest. */
  lemma JoinStep(ws: seq<string>)
    requires |ws| >= 2 && NoSpace(ws[0]) && ws[1] != []
    requires SplitWs(Join(ws[1..], " ")) == ws[1..]
    ensures SplitWs(Join(ws, " ")) == ws
  {
    var j := Join(ws[1..], " ");
    assert Join(ws, " ") == ws[0] + " " + j;
    JoinStartsWith(ws[1..], " ");
    assert j[0] == ws[1][0];
    assert !IsSpace(j[0]) by { assert ws[1] in ws[1..]; }
    SplitWsWordGap(ws[0], " ", j);
    assert ws == [ws[0]] + ws[1..];
  }

  /** Words with the white-space gaps between them: `ws[0] + gaps[0] + ws[1] + … + ws[|ws| - 1]`. */
  function Interleave(ws: seq<string>, gaps: seq<string>): string
    requires |ws| >= 1 && |gaps| == |ws| - 1
    decreases |ws|
  {
    if |ws| == 1 then ws[0] else ws[0] + gaps[0] + Interleave(ws[1..], gaps[1..])
  }

  /** An interleaving begins with the first word and ends with the last. */
  lemma {:induction false} InterleaveEnds(ws: seq<string>, gaps: seq<string>)
    requires |ws| >= 1 && |gaps| == |ws| - 1
    ensures var r := Interleave(ws, gaps); |r| >= |ws[0]| && r[..|ws[0]|] == ws[0]
    ensures var r, w := Interleave(ws, gaps), ws[|ws| - 1]; |r| >= |w| && r[|r| - |w|..] == w
    decreases |ws|
  {
    if |ws| > 1 {
      var rest := Interleave(ws[1..], gaps[1..]);
      InterleaveEnds(ws[1..], gaps[1..]);
      var r := ws[0] + gaps[0] + rest;
      assert Interleave(ws, gaps) == r;
      assert r[|r| - |rest|..] == rest;
    }
  }

  /** Words separated by any non-empty runs of white space split back into those words. */
  lemma {:induction false} SplitWsInterleave(ws: seq<string>, gaps: seq<string>)
    requires |ws| >= 1 && |gaps| == |ws| - 1
    requires forall i :: 0 <= i < |ws| ==> ws[i] != [] && NoSpace(ws[i])
    requires forall i :: 0 <= i < |gaps| ==> gaps[i] != [] && AllSpace(gaps[i])
    ensures SplitWs(Interleave(ws, gaps)) == ws
    decreases |ws|
  {
    if |ws| == 1 {
      SplitWsOfWord(ws[0]);
    } else {
      SplitWsInterleave(ws[1..], gaps[1..]);
      InterleaveStep(ws, gaps);
    }
  }

  /** The inductive step of SplitWsInterleave: the first word, then the split of the rest. */
  lemma InterleaveStep(ws: seq<string>, gaps: seq<string>)
    requires |ws| >= 2 && |gaps| == |ws| - 1
    requires NoSpace(ws[0]) && gaps[0] != [] && AllSpace(gaps[0]) && ws[1] != [] && !IsSpace(ws[1][0])
    requires SplitWs(Interleave(ws[1..], gaps[1..])) == ws[1..]
    ensures SplitWs(Interleave(ws, gaps)) == ws
  {
    var j := Interleave(ws[1..], gaps[1..]);
    assert Interleave(ws, gaps) == ws[0] + gaps[0] + j;
    InterleaveEnds(ws[1..], gaps[1..]);
    assert j[0] == ws[1][0];
    SplitWsWordGap(ws[0], gaps[0], j);
    assert ws == [ws[0]] + ws[1..];
  }

  /** A word, a run of white space and a string starting with a word: the first piece is the word. */
  lemma SplitWsWordGap(w: string, g: string, j: string)
    requires NoSpace(w) && g != [] && AllSpace(g) && j != [] && !IsSpace(j[0])
    ensures SplitWs(w + g + j) == [w] + SplitWs(j)
  {
    var s := w + g + j;
    WordGapSteps(w, g, j);
    SplitWsUnfold(s);
  }

  /** Where the first word of `w + g + j` ends, and what follows the white space after it. */
  lemma WordGapSteps(w: string, g: string, j: string)
    requires NoSpace(w) && g != [] && AllSpace(g) && j != [] && !IsSpace(j[0])
    ensures var s := w + g + j; WordEnd(s) == |w| && s[..|w|] == w && TrimStart(s[|w|..]) == j
  {
    var s := w + g + j;
    assert s[..|w|] == w && s[|w|] == g[0];
    WordEndAt(s, |w|);
    assert s[|w|..] == g + j;
    TrimStartPadded(g, j);
    TrimStartOfTrimmed(j);
  }

  /** A join begins with its first piece. */
  lemma JoinStartsWith(ws: seq<string>, sep: string)
    requires |ws| >= 1
    ensures |Join(ws, sep)| >= |ws[0]| && Join(ws, sep)[..|ws[0]|] == ws[0]
  {
    if |ws| > 1 {
      assert Join(ws, sep) == ws[0] + (sep + Join(ws[1..], sep));
    }
  }

  /** Every character of a piece of SplitWs(s) is a character of `s`. */
  lemma SplitWsChars(s: string, p: string, c: char)
    requires p in SplitWs(s) && c in p
    ensures c in s
  {
    SplitWsLosesOnlySpace(s);
    FlattenHas(SplitWs(s), p, c);
  }

  /** The pieces of a lower-case string are lower case. */
  lemma SplitWsLowerCase(s: string)
    requires IsLowerCase(s)
    ensures forall p :: p in SplitWs(s) ==> IsLowerCase(p)
  {
    forall p | p in SplitWs(s)
      ensures IsLowerCase(p)
    {
      forall i | 0 <= i < |p|
        ensures !IsUpperLetter(p[i])
      {
        SplitWsChars(s, p, p[i]);
      }
    }
  }

  // ---------------------------------------------------------------- replace(/\s+/g, sep)

  /** `s.replace(/\s+/g, sep)`: every maximal run of white space becomes one `sep`. */
  function ReplaceSpaceRuns(s: string, sep: string): string
    decreases |s|
  {
    if s == [] then []
    else if IsSpace(s[0]) then
      var t := TrimStart(s);
      assert t == TrimStart(s[1..]);
      sep + ReplaceSpaceRuns(t, sep)
    else [s[0]] + ReplaceSpaceRuns(s[1..], sep)
  }

  /** No white space survives a replacement without white space, and nothing upper case appears. */
  lemma {:induction false} ReplaceSpaceRunsShape(s: string, sep: string)
    ensures NoSpace(sep) ==> NoSpace(ReplaceSpaceRuns(s, sep))
    ensures IsLowerCase(s) && IsLowerCase(sep) ==> IsLowerCase(ReplaceSpaceRuns(s, sep))
    decreases |s|
  {
    if s == [] {
    } else if IsSpace(s[0]) {
      var t := TrimStart(s);
      assert t == TrimStart(s[1..]);
      assert ReplaceSpaceRuns(s, sep) == sep + ReplaceSpaceRuns(t, sep);
      SuffixLowerCase(s, |s| - |t|);
      ReplaceSpaceRunsShape(t, sep);
      ConcatShape(sep, ReplaceSpaceRuns(t, sep));
    } else {
      assert ReplaceSpaceRuns(s, sep) == [s[0]] + ReplaceSpaceRuns(s[1..], sep);
      SuffixLowerCase(s, 1);
      ReplaceSpaceRunsShape(s[1..], sep);
      ConcatShape([s[0]], ReplaceSpaceRuns(s[1..], sep));
    }
  }

  lemma SuffixLowerCase(s: string, k: nat)
    requires k <= |s|
    ensures IsLowerCase(s) ==> IsLowerCase(s[k..])
  {
    if IsLowerCase(s) {
      forall i | 0 <= i < |s| - k ensures !IsUpperLetter(s[k..][i]) {
        assert s[k..][i] == s[k + i];
      }
    }
  }

  lemma ConcatShape(a: string, b: string)
    ensures NoSpace(a) && NoSpace(b) ==> NoSpace(a + b)
    ensures IsLowerCase(a) && IsLowerCase(b) ==> IsLowerCase(a + b)
  {
    forall i | 0 <= i < |a + b| ensures (a + b)[i] == if i < |a| then a[i] else b[i - |a|] {
    }
  }

  /** A word in front is copied unchanged. */
  lemma {:induction false} ReplaceSpaceRunsWord(w: string, rest: string, sep: string)
    requires NoSpace(w)
    ensures ReplaceSpaceRuns(w + rest, sep) == w + ReplaceSpaceRuns(rest, sep)
    decreases |w|
  {
    if w == [] {
      assert w + rest == rest;
    } else {
      var s := w + rest;
      assert s[0] == w[0] && !IsSpace(w[0]);
      assert s[1..] == w[1..] + rest;
      assert ReplaceSpaceRuns(s, sep) == [w[0]] + ReplaceSpaceRuns(s[1..], sep);
      ReplaceSpaceRunsWord(w[1..], rest, sep);
      assert w == [w[0]] + w[1..];
    }
  }

  /** A run of white space in front becomes one separator. */
  lemma ReplaceSpaceRunsGap(t: string, sep: string)
    requires t != [] && IsSpace(t[0])
    ensures ReplaceSpaceRuns(t, sep) == sep + ReplaceSpaceRuns(TrimStart(t), sep)
  {
  }

  /** Joining a piece in front of at least one more adds the piece and a separator. */
  lemma JoinCons(p: string, ps: seq<string>, sep: string)
    requires |ps| >= 1
    ensures Join([p] + ps, sep) == p + sep + Join(ps, sep)
  {
    assert ([p] + ps)[1..] == ps;
  }

  /** Replacing the runs is joining the pieces of `split(/\s+/)` with the replacement. */
  lemma {:induction false} ReplaceSpaceRunsIsJoin(s: string, sep: string)
    ensures ReplaceSpaceRuns(s, sep) == Join(SplitWs(s), sep)
    decreases |s|
  {
    if WordEnd(s) == |s| {
      ReplaceSpaceRunsOfWord(s, sep);
    } else {
      var rest := ReplaceSpaceRunsStep(s, sep);
      ReplaceSpaceRunsIsJoin(rest, sep);
    }
  }

  lemma ReplaceSpaceRunsOfWord(s: string, sep: string)
    requires WordEnd(s) == |s|
    ensures ReplaceSpaceRuns(s, sep) == Join(SplitWs(s), sep)
  {
    assert s[..|s|] == s;
    SplitWsOfWord(s);
    ReplaceSpaceRunsWord(s, [], sep);
    assert s + [] == s;
  }

  /** Both sides take the first word and one separator, and continue after the run of white space. */
  lemma ReplaceSpaceRunsStep(s: string, sep: string) returns (rest: string)
    requires WordEnd(s) < |s|
    ensures |rest| < |s|
    ensures ReplaceSpaceRuns(s, sep) == s[..WordEnd(s)] + sep + ReplaceSpaceRuns(rest, sep)
    ensures Join(SplitWs(s), sep) == s[..WordEnd(s)] + sep + Join(SplitWs(rest), sep)
  {
    var k := WordEnd(s);
    rest := TrimStart(s[k..]);
    ReplaceAfterWord(s, k, sep);
    SplitWsUnfold(s);
    JoinCons(s[..k], SplitWs(rest), sep);
  }

  lemma ReplaceAfterWord(s: string, k: nat, sep: string)
    requires k < |s| && NoSpace(s[..k]) && IsSpace(s[k])
    ensures ReplaceSpaceRuns(s, sep) == s[..k] + sep + ReplaceSpaceRuns(TrimStart(s[k..]), sep)
  {
    var w, t := s[..k], s[k..];
    assert s == w + t;
    ReplaceSpaceRunsWord(w, t, sep);
    assert t[0] == s[k];
    ReplaceSpaceRunsGap(t, sep);
  }

  // ---------------------------------------------------------------- split(sep), join(sep)

  /** Index of the first occurrence of `x` in `s`. */
  function IndexOf<T(==)>(s: seq<T>, x: T): (k: nat)
    requires x in s
    ensures k < |s| && s[k] == x
    ensures forall j :: 0 <= j < k ==> s[j] != x
  {
    if s[0] == x then 0 else 1 + IndexOf(s[1..], x)
  }

  /** `split(sep)` for a one-character separator; "" splits into [""]. */
  function SplitOn(s: string, sep: char): (parts: seq<string>)
    ensures |parts| >= 1
    ensures forall p :: p in parts ==> sep !in p
    decreases |s|
  {
    if sep !in s then [s]
    else
      var k := IndexOf(s, sep);
      [s[..k]] + SplitOn(s[k + 1..], sep)
  }

  /** The first occurrence is the only position that holds `x` with no `x` before it. */
  lemma IndexOfAt<T>(s: seq<T>, x: T, k: nat)
    requires k < |s| && s[k] == x && forall j :: 0 <= j < k ==> s[j] != x
    ensures IndexOf(s, x) == k
  {
  }

  /** `(a + sep + b).split(sep)` is `a.split(sep)` followed by `b.split(sep)`. */
  lemma {:induction false} SplitOnConcat(a: string, b: string, sep: char)
    ensures SplitOn(a + [sep] + b, sep) == SplitOn(a, sep) + SplitOn(b, sep)
    decreases |a|
  {
    if sep !in a {
      SplitOnFirstPiece(a, b, sep);
    } else {
      var k := IndexOf(a, sep);
      BeforeIndexOf(a, sep);
      SplitOnConcat(a[k + 1..], b, sep);
      SplitOnLaterPiece(a, b, sep, k);
    }
  }

  /** The base case of SplitOnConcat: `a` has no separator. */
  lemma SplitOnFirstPiece(a: string, b: string, sep: char)
    requires sep !in a
    ensures SplitOn(a + [sep] + b, sep) == SplitOn(a, sep) + SplitOn(b, sep)
  {
    var s := a + [sep] + b;
    assert s[..|a|] == a && s[|a| + 1..] == b;
    SplitOnAt(s, sep, |a|);
  }

  /** The step of SplitOnConcat: both splits start with the piece of `a` before its first separator. */
  lemma SplitOnLaterPiece(a: string, b: string, sep: char, k: nat)
    requires k < |a| && a[k] == sep && sep !in a[..k]
    requires SplitOn(a[k + 1..] + [sep] + b, sep) == SplitOn(a[k + 1..], sep) + SplitOn(b, sep)
    ensures SplitOn(a + [sep] + b, sep) == SplitOn(a, sep) + SplitOn(b, sep)
  {
    SplitOnAt(a, sep, k);
    SplitOnShift(a, b, sep, k);
    ConsChain(a[..k], SplitOn(a + [sep] + b, sep), SplitOn(a[k + 1..] + [sep] + b, sep),
              SplitOn(a, sep), SplitOn(a[k + 1..], sep), SplitOn(b, sep));
  }

  /** A sequence that agrees with `a` and then with `b`, position by position, is `a + b`. */
  lemma ConcatPointwise<T>(l: seq<T>, a: seq<T>, b: seq<T>)
    requires |l| == |a| + |b|
    requires forall i :: 0 <= i < |a| ==> l[i] == a[i]
    requires forall j :: 0 <= j < |b| ==> l[|a| + j] == b[j]
    ensures l == a + b
  {
    forall i | 0 <= i < |l| ensures l[i] == (a + b)[i] {
      if i >= |a| {
        assert l[|a| + (i - |a|)] == b[i - |a|];
      }
    }
  }

  lemma ConsChain<T>(x: T, whole: seq<T>, rest: seq<T>, left: seq<T>, p: seq<T>, q: seq<T>)
    requires whole == [x] + rest && rest == p + q && left == [x] + p
    ensures whole == left + q
  {
  }

  /** The first piece of `a + sep + b` is the first piece of `a`, when `a` holds a separator. */
  lemma SplitOnShift(a: string, b: string, sep: char, k: nat)
    requires k < |a| && a[k] == sep && sep !in a[..k]
    ensures SplitOn(a + [sep] + b, sep) == [a[..k]] + SplitOn(a[k + 1..] + [sep] + b, sep)
  {
    var s := a + [sep] + b;
    assert s[..k] == a[..k] && s[k] == sep;
    assert s[k + 1..] == a[k + 1..] + [sep] + b;
    SplitOnAt(s, sep, k);
  }

  lemma BeforeIndexOf(a: string, sep: char)
    requires sep in a
    ensures sep !in a[..IndexOf(a, sep)]
  {
    var k := IndexOf(a, sep);
    forall j | 0 <= j < k ensures a[..k][j] != sep {
      assert a[..k][j] == a[j];
    }
  }

  /** Splitting at the first separator, found at `k`. */
  lemma SplitOnAt(s: string, sep: char, k: nat)
    requires k < |s| && s[k] == sep && sep !in s[..k]
    ensures SplitOn(s, sep) == [s[..k]] + SplitOn(s[k + 1..], sep)
  {
    forall j | 0 <= j < k ensures s[j] != sep {
      assert s[..k][j] == s[j];
    }
    IndexOfAt(s, sep, k);
  }

  /** `parts.join(sep)`. */
  function Join(parts: seq<string>, sep: string): string
    decreases |parts|
  {
    if |parts| == 0 then ""
    else if |parts| == 1 then parts[0]
    else parts[0] + sep + Join(parts[1..], sep)
  }

  /** The partner of SplitOn: joining the pieces with the separator gives back the input. */
  lemma {:induction false} JoinSplitOn(s: string, sep: char)
    ensures Join(SplitOn(s, sep), [sep]) == s
    decreases |s|
  {
    if sep in s {
      var k := IndexOf(s, sep);
      var rest := SplitOn(s[k + 1..], sep);
      JoinSplitOn(s[k + 1..], sep);
      assert SplitOn(s, sep) == [s[..k]] + rest;
      assert ([s[..k]] + rest)[1..] == rest;
      assert s == s[..k] + [sep] + s[k + 1..];
    }
  }

  /** The first piece of `split(sep)`: everything before the first separator. */
  function BeforeFirst(s: string, sep: char): (r: string)
    ensures sep !in r
    ensures |r| <= |s| && r == s[..|r|]
    ensures |r| < |s| ==> s[|r|] == sep
  {
    if sep in s then
      var k := IndexOf(s, sep);
      assert SplitOn(s, sep)[0] == s[..k];
      SplitOn(s, sep)[0]
    else
      assert SplitOn(s, sep)[0] == s;
      SplitOn(s, sep)[0]
  }

  /** `substring(0, n)`. */
  function Prefix(s: string, n: nat): (r: string)
    ensures |r| <= n && |r| <= |s| && r == s[..|r|]
    ensures |s| <= n ==> r == s
    ensures n <= |s| ==> |r| == n
  {
    if |s| <= n then s else s[..n]
  }

  // ---------------------------------------------------------------- sequences

  function Flatten<T>(ss: seq<seq<T>>): seq<T>
    decreases |ss|
  {
    if ss == [] then [] else ss[0] + Flatten(ss[1..])
  }

  lemma FlattenCons<T>(h: seq<T>, t: seq<seq<T>>)
    ensures Flatten([h] + t) == h + Flatten(t)
  {
    assert ([h] + t)[1..] == t;
  }

  lemma {:induction false} FlattenHas<T>(ps: seq<seq<T>>, p: seq<T>, x: T)
    requires p in ps && x in p
    ensures x in Flatten(ps)
    decreases |ps|
  {
    if ps[0] != p {
      FlattenHas(ps[1..], p, x);
    }
  }

  /** `xs.filter(f)`. */
  function Filter<T(!new)>(f: T -> bool, s: seq<T>): (r: seq<T>)
    ensures |r| <= |s|
    ensures forall x :: x in r <==> x in s && f(x)
    decreases |s|
  {
    if s == [] then []
    else (if f(s[0]) then [s[0]] else []) + Filter(f, s[1..])
  }

  lemma {:induction false} FilterConcat<T(!new)>(f: T -> bool, a: seq<T>, b: seq<T>)
    ensures Filter(f, a + b) == Filter(f, a) + Filter(f, b)
    decreases |a|
  {
    if a != [] {
      assert (a + b)[0] == a[0];
      assert (a + b)[1..] == a[1..] + b;
      FilterConcat(f, a[1..], b);
      assert Filter(f, a + b) == (if f(a[0]) then [a[0]] else []) + (Filter(f, a[1..]) + Filter(f, b));
    } else {
      assert a + b == b;
    }
  }

  lemma {:induction false} FilterAll<T(!new)>(f: T -> bool, s: seq<T>)
    requires forall i :: 0 <= i < |s| ==> f(s[i])
    ensures Filter(f, s) == s
    decreases |s|
  {
    if s != [] {
      FilterAll(f, s[1..]);
    }
  }

  lemma {:induction false} FilterNone<T(!new)>(f: T -> bool, s: seq<T>)
    requires forall i :: 0 <= i < |s| ==> !f(s[i])
    ensures Filter(f, s) == []
    decreases |s|
  {
    if s != [] {
      FilterNone(f, s[1..]);
    }
  }

  lemma IndexOfCons<T>(h: T, t: seq<T>, x: T)
    requires x in t && h != x
    ensures IndexOf([h] + t, x) == 1 + IndexOf(t, x)
  {
    assert ([h] + t)[1..] == t;
  }

  /** Filtering keeps the relative order of the first occurrences it keeps. */
  lemma {:induction false} FilterKeepsOrder<T(!new)>(f: T -> bool, s: seq<T>, x: T, y: T)
    requires x in s && f(x) && y in s && f(y)
    ensures IndexOf(Filter(f, s), x) < IndexOf(Filter(f, s), y) <==> IndexOf(s, x) < IndexOf(s, y)
    decreases |s|
  {
    var r := Filter(f, s);
    var r' := Filter(f, s[1..]);
    if s[0] == x || s[0] == y {
      assert r == [s[0]] + r';
    } else {
      assert x in s[1..] && y in s[1..];
      FilterKeepsOrder(f, s[1..], x, y);
      if f(s[0]) {
        assert r == [s[0]] + r';
        IndexOfCons(s[0], r', x);
        IndexOfCons(s[0], r', y);
      } else {
        assert r == r';
      }
    }
  }

  lemma {:induction false} FilterNoDups<T(!new)>(f: T -> bool, s: seq<T>)
    requires NoDups(s)
    ensures NoDups(Filter(f, s))
    decreases |s|
  {
    if s != [] {
      FilterNoDups(f, s[1..]);
      assert s[0] !in s[1..];
    }
  }

  predicate NoDups<T(==)>(s: seq<T>) {
    forall i, j :: 0 <= i < j < |s| ==> s[i] != s[j]
  }

  /**
   * `[...new Set(xs)]`: every element once, at the place of its first
   * occurrence. Built from the back: the last element is kept when it has not
   * been seen before.
   */
  function Dedupe<T(==,!new)>(s: seq<T>): (r: seq<T>)
    ensures NoDups(r)
    ensures forall x :: x in r <==> x in s
    ensures |r| <= |s|
    decreases |s|
  {
    if s == [] then []
    else
      var init := s[..|s| - 1];
      var last := s[|s| - 1];
      assert s == init + [last];
      var p := Dedupe(init);
      if last in p then p else p + [last]
  }

  /** The elements of Dedupe(s) are listed in the order of their first occurrence in `s`. */
  lemma {:induction false} DedupeKeepsFirstOccurrenceOrder<T(!new)>(s: seq<T>, i: nat, j: nat)
    requires i < j < |Dedupe(s)|
    ensures IndexOf(s, Dedupe(s)[i]) < IndexOf(s, Dedupe(s)[j])
    decreases |s|
  {
    var init := s[..|s| - 1];
    var last := s[|s| - 1];
    assert s == init + [last];
    var p := Dedupe(init);
    var x, y := Dedupe(s)[i], Dedupe(s)[j];
    IndexOfPrefix(init, last, x);
    if j < |p| {
      assert Dedupe(s)[i] == p[i] && Dedupe(s)[j] == p[j];
      DedupeKeepsFirstOccurrenceOrder(init, i, j);
      IndexOfPrefix(init, last, y);
    } else {
      assert y == last && last !in p && last !in init;
      IndexOfUnique(s, y, |init|);
    }
  }

  lemma IndexOfPrefix<T>(init: seq<T>, last: T, x: T)
    requires x in init
    ensures IndexOf(init + [last], x) == IndexOf(init, x)
  {
    var k := IndexOf(init, x);
    IndexOfUnique(init + [last], x, k);
  }

  lemma IndexOfUnique<T>(s: seq<T>, x: T, k: nat)
    requires k < |s| && s[k] == x
    requires forall j :: 0 <= j < k ==> s[j] != x
    ensures IndexOf(s, x) == k
  {
  }

  /** A list without duplicates is left as it is. */
  lemma {:induction false} DedupeOfDistinct<T(!new)>(s: seq<T>)
    requires NoDups(s)
    ensures Dedupe(s) == s
    decreases |s|
  {
    if s != [] {
      var init := s[..|s| - 1];
      var last := s[|s| - 1];
      assert s == init + [last];
      DedupeOfDistinct(init);
      assert last !in init;
    }
  }

  // ---------------------------------------------------------------- default sort order

  /** JavaScript's default `sort()` order on strings: character by character. */
  predicate LexLe(a: string, b: string)
    decreases |a|
  {
    a == [] || (b != [] && (a[0] < b[0] || (a[0] == b[0] && LexLe(a[1..], b[1..]))))
  }

  lemma {:induction false} LexLeTotal(a: string, b: string)
    ensures LexLe(a, b) || LexLe(b, a)
    decreases |a|
  {
    if a != [] && b != [] && a[0] == b[0] {
      LexLeTotal(a[1..], b[1..]);
    }
  }

  lemma {:induction false} LexLeAntisymmetric(a: string, b: string)
    requires LexLe(a, b) && LexLe(b, a)
    ensures a == b
    decreases |a|
  {
    if a != [] {
      LexLeAntisymmetric(a[1..], b[1..]);
      assert a == [a[0]] + a[1..] && b == [b[0]] + b[1..];
    }
  }
}
