/** The free-text search filter: LIKE patterns built from user input match it literally. */
module SearchPattern {

  const ESCAPE: char := '\\'
  const ANY_TEXT: char := '%'
  const ANY_CHAR: char := '_'

  predicate IsMeta(c: char) {
    c == ESCAPE || c == ANY_TEXT || c == ANY_CHAR
  }

  /** A single pass that puts the escape character before every metacharacter. */
  function Escaped(s: string): string {
    if s == "" then ""
    else (if IsMeta(s[0]) then [ESCAPE, s[0]] else [s[0]]) + Escaped(s[1..])
  }

  function Pattern(search: string): string {
    if search == "" then "" else [ANY_TEXT] + Escaped(search) + [ANY_TEXT]
  }

  /** LIKE with backslash as escape character (section 8.5 of ISO/IEC 9075-2); literal characters
      are compared up to `fold`, which is case folding for ILIKE. A dangling escape matches nothing. */
  ghost predicate Like(p: string, t: string, fold: char -> char) {
    if p == "" then t == ""
    else if p[0] == ANY_TEXT then exists k :: 0 <= k <= |t| && Like(p[1..], t[k..], fold)
    else if p[0] == ANY_CHAR then t != "" && Like(p[1..], t[1..], fold)
    else if p[0] == ESCAPE then |p| > 1 && t != "" && fold(t[0]) == fold(p[1]) && Like(p[2..], t[1..], fold)
    else t != "" && fold(t[0]) == fold(p[0]) && Like(p[1..], t[1..], fold)
  }

  /** The column filter as the query states it: an empty pattern means no filter. */
  ghost predicate Accepts(search: string, column: string, fold: char -> char) {
    Pattern(search) == "" || Like(Pattern(search), column, fold)
  }

  predicate SameText(a: string, b: string, fold: char -> char) {
    |a| == |b| && forall i :: 0 <= i < |a| ==> fold(a[i]) == fold(b[i])
  }

  /** The text s occurs in t as a contiguous piece starting at position i. */
  predicate OccursAt(s: string, t: string, i: nat, fold: char -> char) {
    i + |s| <= |t| && SameText(s, t[i..i + |s|], fold)
  }

  /** An escaped text consumes exactly itself, whatever the rest of the pattern is. */
  lemma {:induction false} EscapedIsLiteral(s: string, q: string, t: string, fold: char -> char)
    ensures Like(Escaped(s) + q, t, fold)
       <==> |s| <= |t| && SameText(s, t[..|s|], fold) && Like(q, t[|s|..], fold)
  {
    if s == "" {
      assert Escaped(s) + q == q && t[0..] == t;
    } else {
      var p := Escaped(s) + q;
      var rest := Escaped(s[1..]) + q;
      if IsMeta(s[0]) {
        assert p == [ESCAPE, s[0]] + rest && p[2..] == rest;
      } else {
        assert p == [s[0]] + rest && p[1..] == rest;
      }
      if t != "" {
        EscapedIsLiteral(s[1..], q, t[1..], fold);
        if |s| <= |t| {
          assert t[1..][..|s| - 1] == t[1..|s|] && t[1..][|s| - 1..] == t[|s|..];
          assert SameText(s, t[..|s|], fold) <==>
                 fold(s[0]) == fold(t[0]) && SameText(s[1..], t[1..|s|], fold)
          by {
            assert forall i :: 1 <= i < |s| ==> s[i] == s[1..][i - 1] && t[..|s|][i] == t[1..|s|][i - 1];
          }
        }
      }
    }
  }

  lemma TrailingAnyMatches(t: string, fold: char -> char)
    ensures Like([ANY_TEXT], t, fold)
  {
    assert [ANY_TEXT][1..] == "" && t[|t|..] == "";
    assert Like([ANY_TEXT][1..], t[|t|..], fold);
  }

  lemma LikeFromHere(search: string, column: string, k: nat, fold: char -> char)
    requires k <= |column|
    ensures Like(Escaped(search) + [ANY_TEXT], column[k..], fold) <==> OccursAt(search, column, k, fold)
  {
    var rest := column[k..];
    EscapedIsLiteral(search, [ANY_TEXT], rest, fold);
    if |search| <= |rest| {
      TrailingAnyMatches(rest[|search|..], fold);
      assert rest[..|search|] == column[k..k + |search|];
    }
  }

  lemma LeadingAny(q: string, t: string, fold: char -> char)
    ensures Like([ANY_TEXT] + q, t, fold) <==> exists k: nat :: k <= |t| && Like(q, t[k..], fold)
  {
  }

  /** A column passes the filter exactly when the search text occurs in it, metacharacters included. */
  lemma SearchIsSubstring(search: string, column: string, fold: char -> char)
    ensures Accepts(search, column, fold) <==> exists i :: OccursAt(search, column, i, fold)
  {
    if search == "" {
      assert OccursAt(search, column, 0, fold);
    } else {
      var inner := Escaped(search) + [ANY_TEXT];
      assert Pattern(search) == [ANY_TEXT] + inner;
      LeadingAny(inner, column, fold);
      forall k: nat | k <= |column|
        ensures Like(inner, column[k..], fold) <==> OccursAt(search, column, k, fold)
      {
        LikeFromHere(search, column, k, fold);
      }
    }
  }
}
