/** The avatar fallback text shown when a user has no photo (src/lib/utils.ts). */
module Utils {
  import opened Types
  import opened Strings

  /**
   * `getInitials`: "U" for a missing or blank name; otherwise the first
   * letters of the first and last words, or the first two characters of a
   * single word, upper-cased.
   */
  function GetInitials(name: Option<string>): (r: string)
    ensures |r| == 1 || |r| == 2
    ensures IsUpperCase(r)
    ensures name.None? || AllSpace(name.value) ==> r == "U"
  {
    if name.None? || Trim(name.value) == [] then "U"
    else
      var t := Trim(name.value);
      SplitWsOfTrimmed(t);
      InitialsOfParts(SplitWs(t))
  }

  /** The initials of the white-space separated parts of a trimmed, non-blank name. */
  function InitialsOfParts(parts: seq<string>): (r: string)
    requires |parts| >= 1
    requires forall p :: p in parts ==> p != []
    ensures |r| == 1 || |r| == 2
    ensures IsUpperCase(r)
  {
    assert parts[0] in parts && parts[|parts| - 1] in parts;
    if |parts| > 1 && parts[1] != [] then Upper([parts[0][0], parts[|parts| - 1][0]])
    else if |parts[0]| > 1 then Upper(Prefix(parts[0], 2))
    else Upper(parts[0])
  }

  /** Leading and trailing white space do not change the initials. */
  lemma GetInitialsIgnoresPadding(a: string, s: string, b: string)
    requires AllSpace(a) && AllSpace(b)
    ensures GetInitials(Some(a + s + b)) == GetInitials(Some(s))
  {
    TrimIgnoresPadding(a, s, b);
  }

  /**
   * A name of two or more words gives the first letters of the first and the
   * last word, whatever runs of white space separate them.
   */
  lemma GetInitialsOfWords(ws: seq<string>, gaps: seq<string>)
    requires |ws| >= 2 && |gaps| == |ws| - 1
    requires forall i :: 0 <= i < |ws| ==> ws[i] != [] && NoSpace(ws[i])
    requires forall i :: 0 <= i < |gaps| ==> gaps[i] != [] && AllSpace(gaps[i])
    ensures GetInitials(Some(Interleave(ws, gaps))) == [UpperChar(ws[0][0]), UpperChar(ws[|ws| - 1][0])]
  {
    var s := Interleave(ws, gaps);
    assert s != [] && Trim(s) == s by {
      TrimOfInterleave(ws, gaps);
    }
    assert SplitWs(s) == ws by { SplitWsInterleave(ws, gaps); }
    InitialsOfManyParts(ws);
  }

  lemma InitialsOfManyParts(ws: seq<string>)
    requires |ws| >= 2
    requires forall i :: 0 <= i < |ws| ==> ws[i] != []
    ensures InitialsOfParts(ws) == [UpperChar(ws[0][0]), UpperChar(ws[|ws| - 1][0])]
  {
    assert ws[0] in ws && ws[|ws| - 1] in ws && ws[1] in ws;
    var u := Upper([ws[0][0], ws[|ws| - 1][0]]);
    assert InitialsOfParts(ws) == u;
    assert |u| == 2 && u[0] == UpperChar(ws[0][0]) && u[1] == UpperChar(ws[|ws| - 1][0]);
  }

  /** Words joined by single spaces have nothing to trim. */
  lemma TrimOfInterleave(ws: seq<string>, gaps: seq<string>)
    requires |ws| >= 1 && |gaps| == |ws| - 1
    requires ws[0] != [] && !IsSpace(ws[0][0])
    requires var w := ws[|ws| - 1]; w != [] && !IsSpace(w[|w| - 1])
    ensures Trim(Interleave(ws, gaps)) == Interleave(ws, gaps)
  {
    var s := Interleave(ws, gaps);
    var last := ws[|ws| - 1];
    InterleaveEnds(ws, gaps);
    var head := s[..|ws[0]|];
    assert head[0] == s[0];
    var tail := s[|s| - |last|..];
    assert tail[|last| - 1] == s[|s| - 1];
    TrimStartOfTrimmed(s);
    TrimEndOfTrimmed(s);
  }

  /** A single word keeps its first two characters, or its only one. */
  lemma GetInitialsOfWord(w: string)
    requires w != [] && NoSpace(w)
    ensures |w| > 1 ==> GetInitials(Some(w)) == [UpperChar(w[0]), UpperChar(w[1])]
    ensures |w| == 1 ==> GetInitials(Some(w)) == [UpperChar(w[0])]
  {
    TrimStartOfTrimmed(w);
    TrimEndOfTrimmed(w);
    SplitWsOfWord(w);
  }
}
