/**
  The few `java.lang.String` operations the domain relies on: `compareTo`
  (as a strict order), `isBlank`, `trim`, `String.join` and `split` on a
  one-character separator.
*/
module JavaText {

  /** `a.compareTo(b) < 0`: the first differing character decides; when one
      string is a prefix of the other, the shorter one is smaller. */
  predicate Less(a: string, b: string)
    decreases |a|
  {
    if |a| == 0 then |b| > 0
    else if |b| == 0 then false
    else if a[0] != b[0] then a[0] < b[0]
    else Less(a[1..], b[1..])
  }

  lemma {:induction false} LessIrreflexive(a: string)
    ensures !Less(a, a)
    decreases |a|
  {
    if |a| > 0 {
      LessIrreflexive(a[1..]);
    }
  }

  lemma {:induction false} LessAsymmetric(a: string, b: string)
    ensures Less(a, b) ==> !Less(b, a)
    decreases |a|
  {
    if |a| > 0 && |b| > 0 && a[0] == b[0] {
      LessAsymmetric(a[1..], b[1..]);
    }
  }

  lemma {:induction false} LessTotal(a: string, b: string)
    ensures a != b ==> Less(a, b) || Less(b, a)
    decreases |a|
  {
    if |a| > 0 && |b| > 0 && a[0] == b[0] {
      LessTotal(a[1..], b[1..]);
      if a[1..] == b[1..] {
        assert a == [a[0]] + a[1..] && b == [b[0]] + b[1..];
      }
    }
  }

  lemma {:induction false} LessTransitive(a: string, b: string, c: string)
    ensures Less(a, b) && Less(b, c) ==> Less(a, c)
    decreases |a|
  {
    if |a| > 0 && |b| > 0 && |c| > 0 && a[0] == b[0] == c[0] {
      LessTransitive(a[1..], b[1..], c[1..]);
    }
  }

  /** `Character.isWhitespace`: the Unicode space, line and paragraph
      separators except the three no-break spaces, and the ASCII controls
      9-13 and 28-31. */
  predicate IsWhitespace(c: char) {
    c == ' ' || ('\t' <= c <= '\r') || ('\U{1C}' <= c <= '\U{1F}')
    || c == '\U{1680}' || ('\U{2000}' <= c <= '\U{2006}') || ('\U{2008}' <= c <= '\U{200A}')
    || c == '\U{2028}' || c == '\U{2029}' || c == '\U{205F}' || c == '\U{3000}'
  }

  /** `String.isBlank`: empty, or whitespace only. */
  predicate IsBlank(s: string) {
    forall i :: 0 <= i < |s| ==> IsWhitespace(s[i])
  }

  /** `String.trim` removes every leading and trailing character up to U+0020. */
  function Trim(s: string): (r: string)
    ensures |r| <= |s|
    ensures (forall i :: 0 <= i < |s| ==> s[i] > ' ') ==> r == s
    ensures |r| > 0 ==> r[0] > ' ' && r[|r| - 1] > ' '
  {
    TrimEnd(TrimStart(s))
  }

  /** Trim removes nothing else: its result is a middle slice of the input
      with only characters up to U+0020 on either side. */
  lemma TrimKeepsMiddle(s: string)
    ensures exists k :: Middle(s, Trim(s), k)
  {
    var t := TrimStart(s);
    TrimStartIsSuffix(s);
    TrimEndIsPrefix(t);
    SlicesMiddle(s, t, Trim(s));
  }

  /** `r` is the slice of `s` at `k`, with only characters up to U+0020
      before and after it. */
  predicate Middle(s: string, r: string, k: int) {
    0 <= k <= |s| - |r| && r == s[k..k + |r|]
    && (forall i :: 0 <= i < k ==> s[i] <= ' ') && (forall i :: k + |r| <= i < |s| ==> s[i] <= ' ')
  }

  lemma {:induction false} TrimStartIsSuffix(s: string)
    ensures TrimStart(s) == s[|s| - |TrimStart(s)|..]
    decreases |s|
  {
    if |s| > 0 && s[0] <= ' ' {
      TrimStartIsSuffix(s[1..]);
    }
  }

  lemma {:induction false} TrimEndIsPrefix(s: string)
    ensures TrimEnd(s) == s[..|TrimEnd(s)|]
    decreases |s|
  {
    if |s| > 0 && s[|s| - 1] <= ' ' {
      TrimEndIsPrefix(s[..|s| - 1]);
    }
  }

  /** A prefix of a suffix, each cut only at characters up to U+0020, is a
      middle slice. */
  lemma SlicesMiddle(s: string, t: string, r: string)
    requires |t| <= |s| && t == s[|s| - |t|..] && (forall i :: 0 <= i < |s| - |t| ==> s[i] <= ' ')
    requires |r| <= |t| && r == t[..|r|] && (forall i :: |r| <= i < |t| ==> t[i] <= ' ')
    ensures Middle(s, r, |s| - |t|)
  {
    var k := |s| - |t|;
    assert forall i :: k + |r| <= i < |s| ==> s[i] == t[i - k];
  }

  function TrimStart(s: string): (r: string)
    ensures |r| <= |s|
    ensures (forall i :: 0 <= i < |s| ==> s[i] > ' ') ==> r == s
    ensures |r| > 0 ==> r[0] > ' '
    ensures forall i :: 0 <= i < |r| ==> r[i] == s[|s| - |r| + i]
    ensures forall i :: 0 <= i < |s| - |r| ==> s[i] <= ' '
  {
    if |s| > 0 && s[0] <= ' ' then TrimStart(s[1..]) else s
  }

  function TrimEnd(s: string): (r: string)
    ensures |r| <= |s|
    ensures (forall i :: 0 <= i < |s| ==> s[i] > ' ') ==> r == s
    ensures |r| > 0 ==> r[|r| - 1] > ' '
    ensures forall i :: 0 <= i < |r| ==> r[i] == s[i]
    ensures forall i :: |r| <= i < |s| ==> s[i] <= ' '
  {
    if |s| > 0 && s[|s| - 1] <= ' ' then TrimEnd(s[..|s| - 1]) else s
  }

  /** `String.join(sep, parts)`. */
  function Join(parts: seq<string>, sep: char): string {
    if |parts| == 0 then ""
    else if |parts| == 1 then parts[0]
    else parts[0] + [sep] + Join(parts[1..], sep)
  }

  /** The pieces between separators, empty pieces included: one more piece
      than there are separators. */
  function Pieces(s: string, sep: char): (r: seq<string>)
    ensures |r| >= 1
  {
    if |s| == 0 then [""]
    else
      var rest := Pieces(s[1..], sep);
      if s[0] == sep then [""] + rest
      else [[s[0]] + rest[0]] + rest[1..]
  }

  /** Java's `split` drops every trailing empty piece. */
  function DropTrailingEmpty(r: seq<string>): (d: seq<string>)
    ensures |d| <= |r| && d == r[..|d|]
    ensures |d| > 0 ==> d[|d| - 1] != ""
  {
    if |r| > 0 && r[|r| - 1] == "" then DropTrailingEmpty(r[..|r| - 1]) else r
  }

  /** `s.split(sep)` for a separator that is not a regular-expression
      metacharacter: an input without separator comes back as it is (so ""
      gives [""]), otherwise the pieces without the trailing empty ones. */
  function Split(s: string, sep: char): seq<string> {
    if |s| == 0 then [""] else DropTrailingEmpty(Pieces(s, sep))
  }

  lemma {:induction false} PiecesWithoutSeparator(x: string, sep: char)
    requires sep !in x
    ensures Pieces(x, sep) == [x]
    decreases |x|
  {
    if |x| > 0 {
      PiecesWithoutSeparator(x[1..], sep);
      assert [x[0]] + x[1..] == x;
    }
  }

  lemma {:induction false} PiecesAfterSeparator(x: string, t: string, sep: char)
    requires sep !in x
    ensures Pieces(x + [sep] + t, sep) == [x] + Pieces(t, sep)
    decreases |x|
  {
    var s := x + [sep] + t;
    if |x| == 0 {
      assert s[1..] == t;
    } else {
      assert s[1..] == x[1..] + [sep] + t;
      PiecesAfterSeparator(x[1..], t, sep);
      assert [x[0]] + x[1..] == x;
    }
  }

  /** Splitting a join gives the parts back when no part holds the separator. */
  lemma {:induction false} PiecesOfJoin(parts: seq<string>, sep: char)
    requires |parts| >= 1
    requires forall i :: 0 <= i < |parts| ==> sep !in parts[i]
    ensures Pieces(Join(parts, sep), sep) == parts
    decreases |parts|
  {
    if |parts| == 1 {
      PiecesWithoutSeparator(parts[0], sep);
    } else {
      PiecesAfterSeparator(parts[0], Join(parts[1..], sep), sep);
      PiecesOfJoin(parts[1..], sep);
      assert [parts[0]] + parts[1..] == parts;
    }
  }

  /** `Join(parts).split(sep) == parts` when every part is non-empty and free
      of the separator, and there is at least one part. */
  lemma SplitJoin(parts: seq<string>, sep: char)
    requires |parts| >= 1
    requires forall i :: 0 <= i < |parts| ==> |parts[i]| > 0 && sep !in parts[i]
    ensures Split(Join(parts, sep), sep) == parts
  {
    PiecesOfJoin(parts, sep);
    JoinStartsWithFirst(parts, sep);
  }

  lemma {:induction false} JoinStartsWithFirst(parts: seq<string>, sep: char)
    requires |parts| >= 1
    ensures Join(parts, sep)[..|parts[0]|] == parts[0]
    ensures |parts| >= 2 ==> |Join(parts, sep)| > |parts[0]| && Join(parts, sep)[|parts[0]|] == sep
  {
  }

  /** A join of two or more parts holds a separator, so it is not blank when
      the separator is not whitespace; a join of one part is that part. */
  lemma JoinBlank(parts: seq<string>, sep: char)
    requires !IsWhitespace(sep)
    ensures |parts| == 0 ==> IsBlank(Join(parts, sep))
    ensures |parts| == 1 ==> Join(parts, sep) == parts[0]
    ensures |parts| >= 2 ==> !IsBlank(Join(parts, sep))
  {
    if |parts| >= 2 {
      JoinStartsWithFirst(parts, sep);
    }
  }
}
