/** The .NET string operations the leaderboard relies on, over `string` as a
    sequence of Unicode scalar values (one `char` per code point): `char.IsWhiteSpace`, `string.IsNullOrWhiteSpace`,
    `string.Trim`, `string.Equals(..., OrdinalIgnoreCase)`, and the ordinal
    order in which player ids break ties in the ranking. */
module Text {

  /** `char.IsWhiteSpace`: the Unicode space separators, the line and paragraph
      separators, and U+0009..U+000D, U+0085, U+00A0. */
  predicate IsWhiteSpace(c: char) {
    c == ' ' || ('\t' <= c <= '\r') || c == '\U{85}' || c == '\U{A0}' || c == '\U{1680}'
    || ('\U{2000}' <= c <= '\U{200A}') || c == '\U{2028}' || c == '\U{2029}'
    || c == '\U{202F}' || c == '\U{205F}' || c == '\U{3000}'
  }

  /** `string.IsNullOrWhiteSpace` on a non-null string: empty, or only white space. */
  predicate IsNullOrWhiteSpace(s: string) {
    forall i :: 0 <= i < |s| ==> IsWhiteSpace(s[i])
  }

  /** `string.TrimStart()`: drops the leading white space and nothing else. */
  function TrimStart(s: string): (r: string)
    ensures |r| <= |s| && r == s[|s| - |r|..]
    ensures r == [] || !IsWhiteSpace(r[0])
    ensures forall i :: 0 <= i < |s| - |r| ==> IsWhiteSpace(s[i])
  {
    if s != [] && IsWhiteSpace(s[0]) then TrimStart(s[1..]) else s
  }

  /** `string.TrimEnd()`: drops the trailing white space and nothing else. */
  function TrimEnd(s: string): (r: string)
    ensures |r| <= |s| && r == s[..|r|]
    ensures r == [] || !IsWhiteSpace(r[|r| - 1])
    ensures forall i :: |r| <= i < |s| ==> IsWhiteSpace(s[i])
  {
    if s != [] && IsWhiteSpace(s[|s| - 1]) then TrimEnd(s[..|s| - 1]) else s
  }

  /** `string.Trim()`: a contiguous slice of `s` that neither starts nor ends
      with white space, everything cut off on either side being white space. */
  function Trim(s: string): (r: string)
    ensures |r| <= |s|
    ensures r == [] || (!IsWhiteSpace(r[0]) && !IsWhiteSpace(r[|r| - 1]))
    ensures var i := |s| - |TrimStart(s)|;
            i + |r| <= |s| && r == s[i..i + |r|]
            && forall k :: 0 <= k < |s| && (k < i || i + |r| <= k) ==> IsWhiteSpace(s[k])
  {
    TrimEnd(TrimStart(s))
  }

  /** Trimming leaves nothing exactly when the string was empty or all white space,
      so `Trim(s).Length == 0` and `IsNullOrWhiteSpace(s)` are the same test. */
  lemma TrimEmptyIffWhiteSpace(s: string)
    ensures Trim(s) == [] <==> IsNullOrWhiteSpace(s)
  {
    var t := TrimStart(s);
    if Trim(s) == [] {
      forall i | 0 <= i < |s| ensures IsWhiteSpace(s[i]) {
        if i >= |s| - |t| {
          assert IsWhiteSpace(t[i - (|s| - |t|)]);
        }
      }
    }
  }

  /** Trimming twice is trimming once: a trimmed id passes through the service's
      own `Trim` unchanged. */
  lemma TrimIdempotent(s: string)
    ensures Trim(Trim(s)) == Trim(s)
  {
    var r := Trim(s);
    assert TrimStart(r) == r;
    assert TrimEnd(r) == r;
  }

  /** Upper-casing of ASCII letters; other characters map to themselves. */
  function ToUpperAscii(c: char): char {
    if 'a' <= c <= 'z' then (c as int - 32) as char else c
  }

  /** `string.Equals(a, b, StringComparison.OrdinalIgnoreCase)`, with case
      folding restricted to ASCII letters. */
  predicate EqualsIgnoreCase(a: string, b: string) {
    |a| == |b| && forall i :: 0 <= i < |a| ==> ToUpperAscii(a[i]) == ToUpperAscii(b[i])
  }

  /** Ordinal (character by character) string order, with a proper prefix first:
      the order `ORDER BY ..., PlayerId` breaks ties in. */
  predicate OrdinalLess(a: string, b: string)
    decreases |a|
  {
    if a == [] then b != []
    else if b == [] then false
    else if a[0] != b[0] then a[0] < b[0]
    else OrdinalLess(a[1..], b[1..])
  }

  lemma {:induction false} OrdinalLessIrreflexive(a: string)
    ensures !OrdinalLess(a, a)
    decreases |a|
  {
    if a != [] {
      OrdinalLessIrreflexive(a[1..]);
    }
  }

  lemma {:induction false} OrdinalLessTransitive(a: string, b: string, c: string)
    requires OrdinalLess(a, b) && OrdinalLess(b, c)
    ensures OrdinalLess(a, c)
    decreases |a|
  {
    if a != [] && a[0] == b[0] && b[0] == c[0] {
      OrdinalLessTransitive(a[1..], b[1..], c[1..]);
    }
  }

  lemma {:induction false} OrdinalLessTotal(a: string, b: string)
    requires a != b
    ensures OrdinalLess(a, b) || OrdinalLess(b, a)
    decreases |a|
  {
    if a != [] && b != [] && a[0] == b[0] {
      OrdinalLessTotal(a[1..], b[1..]);
    }
  }
}
