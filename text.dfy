/** Python's string primitives that the core relies on: `str.find`, `in`
    on strings, `str.split` with an explicit separator, `str.join` (to state
    what `split` undoes) and `str.strip`. */
module Text {

  /** `pat` occurs in `s` starting at index `j`. */
  predicate OccursAt(s: string, pat: string, j: int)
  {
    0 <= j && j + |pat| <= |s| && s[j..j + |pat|] == pat
  }

  /** Python's `pat in s`. */
  predicate Contains(s: string, pat: string)
  {
    exists j | 0 <= j <= |s| - |pat| :: OccursAt(s, pat, j)
  }

  /** Python's `s.find(pat)`: the first index where `pat` occurs, or -1. */
  function Find(s: string, pat: string): (r: int)
    ensures -1 <= r <= |s|
    ensures r >= 0 ==> OccursAt(s, pat, r)
    ensures forall j :: 0 <= j && (r < 0 || j < r) ==> !OccursAt(s, pat, j)
    decreases |s|
  {
    if |pat| > |s| then -1
    else if s[..|pat|] == pat then 0
    else
      var r := Find(s[1..], pat);
      ShiftOccurrence(s, pat);
      assert s[0..|pat|] == s[..|pat|];
      if r < 0 then -1 else r + 1
  }

  /** An occurrence with none before it is what `find` returns. */
  lemma FindFirst(s: string, pat: string, k: int)
    requires OccursAt(s, pat, k)
    requires forall j :: 0 <= j < k ==> !OccursAt(s, pat, j)
    ensures Find(s, pat) == k
  {
  }

  /** Occurrences in `s[1..]` are the occurrences in `s` moved by one. */
  lemma ShiftOccurrence(s: string, pat: string)
    requires |s| > 0
    ensures forall j :: 1 <= j ==> (OccursAt(s, pat, j) <==> OccursAt(s[1..], pat, j - 1))
  {
    forall j | 1 <= j
      ensures OccursAt(s, pat, j) <==> OccursAt(s[1..], pat, j - 1)
    {
      if j + |pat| <= |s| {
        assert s[1..][j - 1..j - 1 + |pat|] == s[j..j + |pat|];
      }
    }
  }

  /** Python's `sep.join(parts)`. */
  function Join(parts: seq<string>, sep: string): string
  {
    if |parts| == 0 then ""
    else if |parts| == 1 then parts[0]
    else parts[0] + sep + Join(parts[1..], sep)
  }

  /** Python's `s.split(sep)` for a non-empty separator: the pieces between
      the leftmost non-overlapping occurrences of `sep`. */
  function Split(s: string, sep: string): (parts: seq<string>)
    requires |sep| > 0
    ensures |parts| >= 1
    ensures Join(parts, sep) == s
    ensures forall i :: 0 <= i < |parts| ==> !Contains(parts[i], sep)
    decreases |s|
  {
    var i := Find(s, sep);
    if i < 0 then [s]
    else
      var rest := Split(s[i + |sep|..], sep);
      NoOccurrenceBefore(s, sep, i);
      assert s == s[..i] + sep + s[i + |sep|..];
      [s[..i]] + rest
  }

  /** A prefix of `s` that ends before the first occurrence of `pat` does not contain it. */
  lemma NoOccurrenceBefore(s: string, pat: string, i: int)
    requires 0 <= i <= |s| && |pat| > 0
    requires forall j :: 0 <= j < i ==> !OccursAt(s, pat, j)
    ensures !Contains(s[..i], pat)
  {
    forall j | 0 <= j <= i - |pat|
      ensures !OccursAt(s[..i], pat, j)
    {
      assert s[..i][j..j + |pat|] == s[j..j + |pat|];
      assert !OccursAt(s, pat, j);
    }
  }

  /** A string that does not contain the first character of `sep` has no occurrence of `sep`. */
  lemma FirstCharAbsent(s: string, sep: string)
    requires |sep| > 0 && sep[0] !in s
    ensures !Contains(s, sep)
  {
    forall j | 0 <= j <= |s| - |sep|
      ensures !OccursAt(s, sep, j)
    {
      assert s[j..j + |sep|][0] == s[j];
    }
  }

  /** For a one-character separator, containing it is the same as holding that character. */
  lemma ContainsChar(s: string, c: char)
    ensures Contains(s, [c]) <==> c in s
  {
    if c in s {
      var j :| 0 <= j < |s| && s[j] == c;
      assert s[j..j + 1] == [c];
      assert OccursAt(s, [c], j);
    }
    if Contains(s, [c]) {
      var j :| 0 <= j <= |s| - 1 && OccursAt(s, [c], j);
      assert s[j..j + 1][0] == s[j];
    }
  }

  /** `split` undoes `join` when no part holds the separator's first character. */
  lemma {:induction false} SplitJoin(parts: seq<string>, sep: string)
    requires |sep| > 0 && |parts| >= 1
    requires forall i :: 0 <= i < |parts| ==> sep[0] !in parts[i]
    ensures Split(Join(parts, sep), sep) == parts
  {
    var s := Join(parts, sep);
    var p := parts[0];
    if |parts| == 1 {
      FirstCharAbsent(p, sep);
      assert Find(p, sep) < 0;
    } else {
      var rest := Join(parts[1..], sep);
      assert s == p + sep + rest;
      assert s[|p|..|p| + |sep|] == sep;
      assert OccursAt(s, sep, |p|);
      var r := Find(s, sep);
      assert r == |p|;
      assert s[..r] == p;
      assert s[r + |sep|..] == rest;
      SplitJoin(parts[1..], sep);
      assert parts == [p] + parts[1..];
    }
  }

  /** A character absent from every part and from the separator is absent from the join. */
  lemma {:induction false} JoinExcludes(parts: seq<string>, sep: string, c: char)
    requires c !in sep
    requires forall i :: 0 <= i < |parts| ==> c !in parts[i]
    ensures c !in Join(parts, sep)
  {
    if |parts| > 1 {
      JoinExcludes(parts[1..], sep, c);
    }
  }

  /** `[c]` occurs at `j` exactly when `s[j]` is `c`. */
  lemma OccursAtChar(s: string, c: char, j: int)
    ensures OccursAt(s, [c], j) <==> 0 <= j < |s| && s[j] == c
  {
    if 0 <= j < |s| {
      assert s[j..j + 1] == [s[j]];
    }
  }

  /** Splitting on a character yields one piece exactly when the character is absent. */
  lemma SplitSingle(s: string, c: char)
    ensures |Split(s, [c])| == 1 <==> c !in s
  {
    ContainsChar(s, c);
    var i := Find(s, [c]);
    if i >= 0 {
      assert Split(s, [c]) == [s[..i]] + Split(s[i + 1..], [c]);
    }
  }

  /** The first piece of a split is a prefix without the separator, followed by it or by nothing. */
  lemma SplitHeadChar(s: string, c: char)
    ensures var v := Split(s, [c])[0];
            |v| <= |s| && s[..|v|] == v && c !in v && (|v| == |s| || s[|v|] == c)
  {
    var parts := Split(s, [c]);
    var v := parts[0];
    ContainsChar(v, c);
    if |parts| > 1 {
      var rest := Join(parts[1..], [c]);
      assert s == v + [c] + rest;
      assert s[|v|] == c;
    }
  }

  /** Splitting at the first occurrence of a character. */
  lemma SplitAtFirst(s: string, c: char)
    requires c in s
    ensures var i := Find(s, [c]);
            && 0 <= i < |s| && s[i] == c && c !in s[..i]
            && Split(s, [c]) == [s[..i]] + Split(s[i + 1..], [c])
  {
    SplitSingle(s, c);
    var i := Find(s, [c]);
    OccursAtChar(s, c, i);
    SplitHeadChar(s, c);
  }

  /** When `c` occurs, the first piece of a split on it stops before the
      end, and the remaining pieces are the split of what follows that `c`. */
  lemma SplitRest(s: string, c: char)
    requires c in s
    ensures |Split(s, [c])[0]| < |s|
    ensures Split(s, [c]) == [Split(s, [c])[0]] + Split(s[|Split(s, [c])[0]| + 1..], [c])
  {
    SplitHeadChar(s, c);
    SplitAtFirst(s, c);
  }

  /** When `c` occurs, the first piece of a split on it is the text before
      the first `c`. */
  lemma SplitFirstPiece(s: string, c: char)
    requires c in s
    ensures |Split(s, [c])| >= 2
    ensures var k := |Split(s, [c])[0]|;
            k < |s| && s[k] == c && c !in Split(s, [c])[0] && Split(s, [c])[0] == s[..k]
  {
    SplitRest(s, c);
    SplitHeadChar(s, c);
  }

  /** When `c` occurs, the second piece of a split on it is the text after
      the first `c` up to the next `c` or the end. */
  lemma SplitSecondPiece(s: string, c: char)
    requires c in s
    ensures |Split(s, [c])| >= 2
    ensures var k := |Split(s, [c])[0]|;
            var v := Split(s, [c])[1];
            && k + 1 + |v| <= |s| && s[k + 1..k + 1 + |v|] == v && c !in v
            && (k + 1 + |v| == |s| || s[k + 1 + |v|] == c)
  {
    SplitRest(s, c);
    var k := |Split(s, [c])[0]|;
    SplitHeadChar(s[k + 1..], c);
    PieceAfter(s, c, k, Split(s, [c])[1]);
  }

  /** A piece read off `s[k + 1..]` as a prefix, stated about `s` itself. */
  lemma PieceAfter(s: string, c: char, k: nat, v: string)
    requires k < |s|
    requires var rest := s[k + 1..];
             |v| <= |rest| && rest[..|v|] == v && (|v| == |rest| || rest[|v|] == c)
    ensures k + 1 + |v| <= |s| && s[k + 1..k + 1 + |v|] == v
    ensures k + 1 + |v| == |s| || s[k + 1 + |v|] == c
  {
    assert s[k + 1..k + 1 + |v|] == s[k + 1..][..|v|];
  }

  /** Python's `str.isspace()` for one character. */
  predicate IsSpace(c: char)
  {
    c in {' ', '\t', '\n', '\r', '\U{000B}', '\U{000C}', '\U{001C}', '\U{001D}', '\U{001E}', '\U{001F}',
          '\U{0085}', '\U{00A0}', '\U{1680}', '\U{2000}', '\U{2001}', '\U{2002}', '\U{2003}', '\U{2004}',
          '\U{2005}', '\U{2006}', '\U{2007}', '\U{2008}', '\U{2009}', '\U{200A}', '\U{2028}', '\U{2029}',
          '\U{202F}', '\U{205F}', '\U{3000}'}
  }

  /** The number of whitespace characters `s` starts with. */
  function LeadingSpaces(s: string): (k: nat)
    ensures k <= |s|
    ensures forall i :: 0 <= i < k ==> IsSpace(s[i])
    ensures k < |s| ==> !IsSpace(s[k])
  {
    if |s| == 0 || !IsSpace(s[0]) then 0 else 1 + LeadingSpaces(s[1..])
  }

  /** The number of whitespace characters `s` ends with. */
  function TrailingSpaces(s: string): (k: nat)
    ensures k <= |s|
    ensures forall i :: |s| - k <= i < |s| ==> IsSpace(s[i])
    ensures k < |s| ==> !IsSpace(s[|s| - 1 - k])
  {
    if |s| == 0 || !IsSpace(s[|s| - 1]) then 0 else 1 + TrailingSpaces(s[..|s| - 1])
  }

  /** Python's `s.strip()`: `s` without its leading and trailing whitespace. */
  function Strip(s: string): (r: string)
    ensures r == [] <==> forall i :: 0 <= i < |s| ==> IsSpace(s[i])
    ensures r != [] ==> !IsSpace(r[0]) && !IsSpace(r[|r| - 1])
    ensures exists k :: StrippedAt(s, r, k)
  {
    var k := LeadingSpaces(s);
    if k == |s| then
      assert StrippedAt(s, [], |s|);
      []
    else
      var m := TrailingSpaces(s);
      assert !IsSpace(s[k]);
      assert m < |s| - k;
      var r := s[k..|s| - m];
      assert StrippedAt(s, r, k);
      r
  }

  /** `r` sits at index `k` of `s` with only whitespace around it. */
  ghost predicate StrippedAt(s: string, r: string, k: int)
  {
    && 0 <= k <= |s| - |r| && s[k..k + |r|] == r
    && (forall i :: 0 <= i < k ==> IsSpace(s[i]))
    && (forall i :: k + |r| <= i < |s| ==> IsSpace(s[i]))
  }
}
