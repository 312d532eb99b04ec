/**
 * Coordinates from a point-geometry cell: `extract_latitude` and
 * `extract_longitude`. Both search the cell's text for the pattern
 * `POINT \(([^ ]+) ([^)]+)\)` and convert one capture group with `float`;
 * group 1 is the longitude, group 2 the latitude.
 */
module Geometry {
  import opened Wrappers
  import opened Cells

  /** The two capture groups of a match. */
  datatype Groups = Groups(lonText: string, latText: string)

  /** A match of the pattern: where it starts and what it captured. */
  datatype Match = Match(start: nat, groups: Groups)

  /** The literal text of the pattern ahead of group 1. */
  const OPENING: string := "POINT ("

  /** No character of t is c. */
  predicate Avoids(t: string, c: char) {
    forall k :: 0 <= k < |t| ==> t[k] != c
  }

  /** What the regular expression means: the pattern matches s at index i
      with group 1 = lon and group 2 = lat, for some split of the text. */
  ghost predicate MatchesAt(s: string, i: nat, lon: string, lat: string) {
    && i <= |s|
    && |lon| > 0 && Avoids(lon, ' ')
    && |lat| > 0 && Avoids(lat, ')')
    && OPENING + lon + " " + lat + ")" <= s[i..]
  }

  ghost predicate HasMatchAt(s: string, i: nat) {
    exists lon, lat :: MatchesAt(s, i, lon, lat)
  }

  /** Index of the first c in s at or after k, or |s| when there is none. */
  function NextIndexOf(s: string, k: nat, c: char): (e: nat)
    requires k <= |s|
    ensures k <= e <= |s|
    ensures forall j :: k <= j < e ==> s[j] != c
    ensures e < |s| ==> s[e] == c
    decreases |s| - k
  {
    if k == |s| || s[k] == c then k else NextIndexOf(s, k + 1, c)
  }

  /** The matcher at one start index. `[^ ]+` followed by a space can only end
      at the first space, and `[^)]+` followed by `)` only at the first `)`,
      so backtracking never finds another split. */
  function MatchAt(s: string, i: nat): Option<Groups>
    requires i <= |s|
  {
    var a := i + |OPENING|;
    if a > |s| || s[i..a] != OPENING then None
    else
      var b := NextIndexOf(s, a, ' ');
      if b == a || b == |s| then None
      else
        var c := NextIndexOf(s, b + 1, ')');
        if c == b + 1 || c == |s| then None
        else Some(Groups(s[a..b], s[b + 1..c]))
  }

  /** Whatever the matcher returns is a match of the regular expression. */
  lemma MatchAtSound(s: string, i: nat)
    requires i <= |s|
    ensures MatchAt(s, i).Some? ==> MatchesAt(s, i, MatchAt(s, i).value.lonText, MatchAt(s, i).value.latText)
  {
    if MatchAt(s, i).Some? {
      var a := i + |OPENING|;
      var b := NextIndexOf(s, a, ' ');
      var c := NextIndexOf(s, b + 1, ')');
      var lon, lat := s[a..b], s[b + 1..c];
      assert MatchAt(s, i) == Some(Groups(lon, lat));
      assert s[i..c + 1] == s[i..a] + s[a..b] + s[b..b + 1] + s[b + 1..c] + s[c..c + 1];
      assert OPENING + lon + " " + lat + ")" == s[i..c + 1];
    }
  }

  /** Every match of the regular expression is the one the matcher returns:
      the split of the text into the two groups is unique. */
  lemma MatchAtComplete(s: string, i: nat, lon: string, lat: string)
    requires MatchesAt(s, i, lon, lat)
    ensures MatchAt(s, i) == Some(Groups(lon, lat))
  {
    var w := OPENING + lon + " " + lat + ")";
    var a := i + |OPENING|;
    var b := a + |lon|;
    var c := b + 1 + |lat|;
    assert w == s[i..i + |w|];
    assert s[i..a] == w[..|OPENING|] == OPENING;
    assert s[a..b] == w[|OPENING|..|OPENING| + |lon|] == lon;
    assert s[b] == w[|OPENING| + |lon|] == ' ';
    assert s[b + 1..c] == w[|OPENING| + |lon| + 1..|w| - 1] == lat;
    assert s[c] == w[|w| - 1] == ')';
    forall j | a <= j < b ensures s[j] != ' ' {
      assert s[j] == lon[j - a];
    }
    forall j | b + 1 <= j < c ensures s[j] != ')' {
      assert s[j] == lat[j - b - 1];
    }
    assert NextIndexOf(s, a, ' ') == b;
    assert NextIndexOf(s, b + 1, ')') == c;
  }

  /** The matcher finds exactly the matches the regular expression allows. */
  lemma MatchAtMeaning(s: string, i: nat, lon: string, lat: string)
    requires i <= |s|
    ensures MatchAt(s, i) == Some(Groups(lon, lat)) <==> MatchesAt(s, i, lon, lat)
  {
    MatchAtSound(s, i);
    if MatchesAt(s, i, lon, lat) {
      MatchAtComplete(s, i, lon, lat);
    }
  }

  lemma MatchAtFindsAMatch(s: string, i: nat)
    requires i <= |s|
    ensures MatchAt(s, i).Some? <==> HasMatchAt(s, i)
  {
    if MatchAt(s, i).Some? {
      var g := MatchAt(s, i).value;
      MatchAtMeaning(s, i, g.lonText, g.latText);
    }
    if HasMatchAt(s, i) {
      var lon, lat :| MatchesAt(s, i, lon, lat);
      MatchAtMeaning(s, i, lon, lat);
    }
  }

  /** `re.search` from index i on: the first start index at which the
      pattern matches. */
  function SearchFrom(s: string, i: nat): (r: Option<Match>)
    requires i <= |s|
    ensures r.None? ==> forall j :: i <= j <= |s| ==> MatchAt(s, j).None?
    ensures r.Some? ==>
      && i <= r.value.start <= |s|
      && MatchAt(s, r.value.start) == Some(r.value.groups)
      && forall j :: i <= j < r.value.start ==> MatchAt(s, j).None?
    decreases |s| - i
  {
    match MatchAt(s, i)
    case Some(g) => Some(Match(i, g))
    case None => if i == |s| then None else SearchFrom(s, i + 1)
  }

  function Search(s: string): Option<Match> {
    SearchFrom(s, 0)
  }

  /** The search succeeds exactly with the leftmost match of the pattern. */
  lemma SearchFindsLeftmostMatch(s: string, i: nat, lon: string, lat: string)
    ensures Search(s) == Some(Match(i, Groups(lon, lat))) <==>
      MatchesAt(s, i, lon, lat) && forall j: nat :: j < i ==> !HasMatchAt(s, j)
  {
    if Search(s) == Some(Match(i, Groups(lon, lat))) {
      MatchAtMeaning(s, i, lon, lat);
      forall j: nat | j < i ensures !HasMatchAt(s, j) {
        MatchAtFindsAMatch(s, j);
      }
    }
    if MatchesAt(s, i, lon, lat) && forall j: nat :: j < i ==> !HasMatchAt(s, j) {
      MatchAtMeaning(s, i, lon, lat);
      var m := Search(s);
      if m.Some? && m.value.start < i {
        MatchAtFindsAMatch(s, m.value.start);
      }
    }
  }

  /** The search fails exactly when the pattern matches nowhere. */
  lemma SearchFailsWithoutMatch(s: string)
    ensures Search(s).None? <==> forall i: nat :: !HasMatchAt(s, i)
  {
    if Search(s).None? {
      forall i: nat ensures !HasMatchAt(s, i) {
        if i <= |s| {
          MatchAtFindsAMatch(s, i);
        }
      }
    } else {
      MatchAtFindsAMatch(s, Search(s).value.start);
    }
  }

  /** Python's `t in s` for strings. */
  function Contains(s: string, t: string): bool
    decreases |s|
  {
    t <= s || (|s| > 0 && Contains(s[1..], t))
  }

  lemma {:induction false} ContainsAt(s: string, t: string, k: nat)
    requires k <= |s| && t <= s[k..]
    ensures Contains(s, t)
  {
    if k > 0 {
      assert s[1..][k - 1..] == s[k..];
      ContainsAt(s[1..], t, k - 1);
    }
  }

  /** Text the pattern matches always contains "POINT", so the extractors'
      `"POINT" in geometry` test never changes their result. */
  lemma MatchedTextContainsPoint(s: string)
    ensures Search(s).Some? ==> Contains(s, "POINT")
  {
    if Search(s).Some? {
      var i := Search(s).value.start;
      assert s[i..i + |OPENING|] == OPENING;
      assert "POINT" <= s[i..];
      ContainsAt(s, "POINT", i);
    }
  }

  /** `extract_latitude`: group 2 of the leftmost match, converted. A
      non-string cell or a text without "POINT" gives None; so does a failed
      search (`.group` on None raises AttributeError) and a token `float`
      rejects (ValueError). */
  function ExtractLatitude(geometry: Cell, parseFloat: string -> Option<real>): (r: Option<real>)
    ensures !geometry.Text? ==> r.None?
    ensures geometry.Text? && !Contains(geometry.text, "POINT") ==> r.None?
    ensures geometry.Text? && Search(geometry.text).None? ==> r.None?
    ensures geometry.Text? && Search(geometry.text).Some? ==>
      r == parseFloat(Search(geometry.text).value.groups.latText)
  {
    if geometry.Text? && Contains(geometry.text, "POINT") then
      match Search(geometry.text)
      case None => None
      case Some(m) => parseFloat(m.groups.latText)
    else if geometry.Text? then
      MatchedTextContainsPoint(geometry.text); None
    else None
  }

  /** `extract_longitude`: the same search, group 1 converted. */
  function ExtractLongitude(geometry: Cell, parseFloat: string -> Option<real>): (r: Option<real>)
    ensures !geometry.Text? ==> r.None?
    ensures geometry.Text? && !Contains(geometry.text, "POINT") ==> r.None?
    ensures geometry.Text? && Search(geometry.text).None? ==> r.None?
    ensures geometry.Text? && Search(geometry.text).Some? ==>
      r == parseFloat(Search(geometry.text).value.groups.lonText)
  {
    if geometry.Text? && Contains(geometry.text, "POINT") then
      match Search(geometry.text)
      case None => None
      case Some(m) => parseFloat(m.groups.lonText)
    else if geometry.Text? then
      MatchedTextContainsPoint(geometry.text); None
    else None
  }

  /** The extractors in the terms of the regular expression: with a leftmost
      match, longitude is its group 1 and latitude its group 2, converted. */
  lemma ExtractFromLeftmostMatch(s: string, i: nat, lon: string, lat: string, parseFloat: string -> Option<real>)
    requires MatchesAt(s, i, lon, lat)
    requires forall j: nat :: j < i ==> !HasMatchAt(s, j)
    ensures ExtractLongitude(Text(s), parseFloat) == parseFloat(lon)
    ensures ExtractLatitude(Text(s), parseFloat) == parseFloat(lat)
  {
    SearchFindsLeftmostMatch(s, i, lon, lat);
  }

  /** Without any match both extractors give None, whatever `float` does. */
  lemma ExtractWithoutMatch(s: string, parseFloat: string -> Option<real>)
    requires forall i: nat :: !HasMatchAt(s, i)
    ensures ExtractLongitude(Text(s), parseFloat).None?
    ensures ExtractLatitude(Text(s), parseFloat).None?
  {
    SearchFailsWithoutMatch(s);
  }

  /** "POINT (4.9 52.3)": longitude from "4.9", latitude from "52.3". */
  lemma WellFormedPoint(parseFloat: string -> Option<real>)
    ensures ExtractLongitude(Text("POINT (4.9 52.3)"), parseFloat) == parseFloat("4.9")
    ensures ExtractLatitude(Text("POINT (4.9 52.3)"), parseFloat) == parseFloat("52.3")
  {
    var s := "POINT (4.9 52.3)";
    assert OPENING + "4.9" + " " + "52.3" + ")" == s[0..];
    ExtractFromLeftmostMatch(s, 0, "4.9", "52.3", parseFloat);
  }

  /** Group 2 runs up to the `)`, spaces included: a third ordinate ends up
      in the latitude token. */
  lemma ThirdOrdinateJoinsLatitude(parseFloat: string -> Option<real>)
    ensures ExtractLatitude(Text("POINT (4.9 52.3 7)"), parseFloat) == parseFloat("52.3 7")
  {
    var s := "POINT (4.9 52.3 7)";
    assert OPENING + "4.9" + " " + "52.3 7" + ")" == s[0..];
    ExtractFromLeftmostMatch(s, 0, "4.9", "52.3 7", parseFloat);
  }

  /** The two coordinates are converted separately: one bad token loses only
      its own coordinate, so a row can have a latitude and no longitude. */
  lemma CoordinatesConvertSeparately(parseFloat: string -> Option<real>)
    requires parseFloat("x").None? && parseFloat("52.3").Some?
    ensures ExtractLongitude(Text("POINT (x 52.3)"), parseFloat).None?
    ensures ExtractLatitude(Text("POINT (x 52.3)"), parseFloat).Some?
  {
    var s := "POINT (x 52.3)";
    assert OPENING + "x" + " " + "52.3" + ")" == s[0..];
    ExtractFromLeftmostMatch(s, 0, "x", "52.3", parseFloat);
  }
}
