/** Highlighting of the search keyword in the comments of the keyword search results. */
module Highlight {
  import opened Wrappers
  import opened Sequences
  import opened Text

  /** The Markdown bold form of the keyword. */
  function Bold(keyword: string): (b: string)
    ensures |b| == |keyword| + 4
  {
    "**" + keyword + "**"
  }

  /** A comment cell after highlighting: when it holds text that contains the keyword ignoring
      case, every exact-case occurrence of the keyword is put in bold; anything else is left as
      it is. */
  function HighlightComment(comment: Option<string>, keyword: string): Option<string>
    requires |keyword| > 0
  {
    if comment.Some? && ContainsIgnoreCase(comment.value, keyword)
    then Some(ReplaceAll(comment.value, keyword, Bold(keyword)))
    else comment
  }

  /** A comment changes exactly when it contains the keyword with the same case; in particular
      it is untouched when it does not contain the keyword even ignoring case. */
  lemma HighlightChangesIff(comment: Option<string>, keyword: string)
    requires |keyword| > 0
    ensures HighlightComment(comment, keyword) != comment
            <==> comment.Some? && Contains(comment.value, keyword)
    ensures comment.None? || !ContainsIgnoreCase(comment.value, keyword)
            ==> HighlightComment(comment, keyword) == comment
  {
    if comment.Some? {
      var s := comment.value;
      ReplaceLengthens(s, keyword, Bold(keyword));
      if Contains(s, keyword) {
        ContainsImpliesIgnoreCase(s, keyword);
      } else {
        ReplaceAbsent(s, keyword, Bold(keyword));
      }
    }
  }

  predicate IsNotMarker(c: char) {
    c != '*'
  }

  /** The text with every `*` removed. */
  function RemoveMarkers(s: string): (r: string)
    ensures forall i :: 0 <= i < |r| ==> r[i] != '*'
  {
    Filter(s, IsNotMarker)
  }

  predicate HasNoMarker(s: string) {
    forall i :: 0 <= i < |s| ==> s[i] != '*'
  }

  /** Removing the markers from the bold keyword gives the keyword. */
  lemma RemoveMarkersOfBold(keyword: string)
    requires HasNoMarker(keyword)
    ensures RemoveMarkers(Bold(keyword)) == keyword
  {
    FilterConcat("**" + keyword, "**", IsNotMarker);
    FilterConcat("**", keyword, IsNotMarker);
    FilterAll(keyword, IsNotMarker);
  }

  /** Highlighting only inserts markers: removing them gives back the comment. */
  lemma {:induction false} HighlightOnlyAddsMarkers(s: string, keyword: string)
    requires |keyword| > 0 && HasNoMarker(s) && HasNoMarker(keyword)
    ensures RemoveMarkers(ReplaceAll(s, keyword, Bold(keyword))) == s
    decreases |s|
  {
    var b := Bold(keyword);
    if StartsWith(s, keyword) {
      var rest := s[|keyword|..];
      HighlightOnlyAddsMarkers(rest, keyword);
      FilterConcat(b, ReplaceAll(rest, keyword, b), IsNotMarker);
      RemoveMarkersOfBold(keyword);
      assert s == keyword + rest;
    } else if s != [] {
      HighlightOnlyAddsMarkers(s[1..], keyword);
      FilterConcat([s[0]], ReplaceAll(s[1..], keyword, b), IsNotMarker);
      assert s == [s[0]] + s[1..];
    }
  }

  /** Replacing each bold keyword of a highlighted text by the keyword gives the text back:
      every occurrence that was replaced became exactly `**keyword**`, and nothing else changed. */
  lemma {:induction false} UnboldRoundTrip(s: string, keyword: string)
    requires |keyword| > 0 && HasNoMarker(s) && HasNoMarker(keyword)
    ensures ReplaceAll(ReplaceAll(s, keyword, Bold(keyword)), Bold(keyword), keyword) == s
    decreases |s|
  {
    var b := Bold(keyword);
    var r := ReplaceAll(s, keyword, b);
    if StartsWith(s, keyword) {
      var rest := s[|keyword|..];
      UnboldRoundTrip(rest, keyword);
      assert r == b + ReplaceAll(rest, keyword, b);
      assert StartsWith(r, b);
      assert r[|b|..] == ReplaceAll(rest, keyword, b);
      assert s == keyword + rest;
    } else if s != [] {
      UnboldRoundTrip(s[1..], keyword);
      assert r == [s[0]] + ReplaceAll(s[1..], keyword, b);
      assert r[0] != b[0];
      assert r[1..] == ReplaceAll(s[1..], keyword, b);
      assert s == [s[0]] + s[1..];
    }
  }

  /** A highlighted comment without `*` is recovered by turning each `**keyword**` back into
      the keyword, whether or not the highlight changed it. */
  lemma UnboldHighlightedComment(comment: string, keyword: string)
    requires |keyword| > 0 && HasNoMarker(comment) && HasNoMarker(keyword)
    ensures ReplaceAll(HighlightComment(Some(comment), keyword).value, Bold(keyword), keyword) == comment
  {
    UnboldRoundTrip(comment, keyword);
    if !ContainsIgnoreCase(comment, keyword) {
      BoldAbsent(comment, keyword);
      ReplaceAbsent(comment, Bold(keyword), keyword);
    }
  }

  /** Text without `*` does not contain the bold keyword. */
  lemma {:induction false} BoldAbsent(s: string, keyword: string)
    requires HasNoMarker(s)
    ensures !Contains(s, Bold(keyword))
    decreases |s|
  {
    if s != [] {
      assert s[0] != Bold(keyword)[0];
      BoldAbsent(s[1..], keyword);
    }
  }

  /** Every exact-case occurrence of a keyword without `*` in a highlighted comment is a bold
      one, enclosed in `**` on both sides, whatever the comment holds: no occurrence escapes the
      replacement. */
  lemma {:induction false} EveryOccurrenceIsBold(s: string, keyword: string, i: int)
    requires |keyword| > 0 && HasNoMarker(keyword)
    requires SliceAt(ReplaceAll(s, keyword, Bold(keyword)), keyword, i)
    ensures IsBoldAt(ReplaceAll(s, keyword, Bold(keyword)), keyword, i)
    decreases |s|, 1
  {
    if StartsWith(s, keyword) {
      BoldAfterBold(s, keyword, i);
    } else if s != [] {
      BoldAfterCharacter(s, keyword, i);
    }
  }

  /** For a keyword without `*`, every exact-case occurrence of it in a highlighted comment is
      enclosed in `**`: the replacement reaches all occurrences, not just the first. */
  lemma HighlightBoldsEveryOccurrence(comment: string, keyword: string)
    requires |keyword| > 0 && HasNoMarker(keyword)
    requires ContainsIgnoreCase(comment, keyword)
    ensures var h := HighlightComment(Some(comment), keyword).value;
            forall i :: SliceAt(h, keyword, i) ==> IsBoldAt(h, keyword, i)
  {
    var h := HighlightComment(Some(comment), keyword).value;
    forall i | SliceAt(h, keyword, i) ensures IsBoldAt(h, keyword, i) {
      EveryOccurrenceIsBold(comment, keyword, i);
    }
  }

  /** The occurrence of the keyword at `i` is enclosed in `**`. */
  predicate IsBoldAt(r: string, keyword: string, i: int) {
    && 2 <= i && i + |keyword| + 2 <= |r|
    && r[i - 2] == '*' && r[i - 1] == '*' && r[i + |keyword|] == '*' && r[i + |keyword| + 1] == '*'
  }

  lemma {:induction false} BoldAfterBold(s: string, keyword: string, i: int)
    requires |keyword| > 0 && HasNoMarker(keyword) && StartsWith(s, keyword)
    requires SliceAt(ReplaceAll(s, keyword, Bold(keyword)), keyword, i)
    ensures IsBoldAt(ReplaceAll(s, keyword, Bold(keyword)), keyword, i)
    decreases |s|, 0
  {
    var k := keyword;
    var r := ReplaceAll(s, k, Bold(k));
    var rest := ReplaceAll(s[|k|..], k, Bold(k));
    assert r == Bold(k) + rest;
    OccurrenceAfterBold(r, k, rest, i);
    if i != 2 {
      var j := i - |k| - 4;
      EveryOccurrenceIsBold(s[|k|..], k, j);
      assert r[i - 2] == rest[j - 2] && r[i - 1] == rest[j - 1];
      assert r[i + |k|] == rest[j + |k|] && r[i + |k| + 1] == rest[j + |k| + 1];
    }
  }

  lemma {:induction false} BoldAfterCharacter(s: string, keyword: string, i: int)
    requires |keyword| > 0 && HasNoMarker(keyword)
    requires !StartsWith(s, keyword) && s != []
    requires SliceAt(ReplaceAll(s, keyword, Bold(keyword)), keyword, i)
    ensures IsBoldAt(ReplaceAll(s, keyword, Bold(keyword)), keyword, i)
    decreases |s|, 0
  {
    var k := keyword;
    var r := ReplaceAll(s, k, Bold(k));
    var rest := ReplaceAll(s[1..], k, Bold(k));
    assert r == [s[0]] + rest;
    if i == 0 {
      forall j | 0 <= j < |k|
        ensures r[j] != '*'
      {
        assert r[j] == r[..|k|][j];
      }
      UnmarkedPrefix(s, k, |k|);
      assert false;
    }
    assert r[i..i + |k|] == rest[i - 1..i - 1 + |k|];
    EveryOccurrenceIsBold(s[1..], k, i - 1);
  }

  /** In a text that starts with the bold keyword, an occurrence of the keyword is either the
      bold one or lies in the rest. */
  lemma OccurrenceAfterBold(r: string, keyword: string, rest: string, i: int)
    requires |keyword| > 0 && HasNoMarker(keyword) && r == Bold(keyword) + rest && SliceAt(r, keyword, i)
    ensures i == 2 || (i >= |keyword| + 4 && SliceAt(rest, keyword, i - |keyword| - 4))
    ensures i == 2 ==> IsBoldAt(r, keyword, i)
  {
    var k := keyword;
    assert r[0] == '*' && r[1] == '*' && r[|k| + 2] == '*' && r[|k| + 3] == '*';
    MarkerOutside(r, k, i, 0);
    MarkerOutside(r, k, i, 1);
    MarkerOutside(r, k, i, |k| + 2);
    MarkerOutside(r, k, i, |k| + 3);
    if i != 2 {
      var j := i - |k| - 4;
      assert r[i..i + |k|] == rest[j..j + |k|];
    }
  }

  /** A `*` of a text lies outside every occurrence in it of a keyword without `*`. */
  lemma MarkerOutside(r: string, keyword: string, i: int, p: int)
    requires SliceAt(r, keyword, i) && HasNoMarker(keyword) && 0 <= p < |r| && r[p] == '*'
    ensures p < i || i + |keyword| <= p
  {
    CharOfOccurrence(r, keyword, i, p - i);
  }

  /** The characters of an occurrence are those of the keyword. */
  lemma CharOfOccurrence(r: string, keyword: string, i: int, q: int)
    requires SliceAt(r, keyword, i)
    ensures 0 <= q < |keyword| ==> r[i + q] == keyword[q]
  {
    if 0 <= q < |keyword| {
      assert r[i..i + |keyword|][q] == r[i + q];
    }
  }

  /** Up to its first `*`, a highlighted text is the comment it came from. */
  lemma {:induction false} UnmarkedPrefix(s: string, keyword: string, m: nat)
    requires |keyword| > 0
    requires m <= |ReplaceAll(s, keyword, Bold(keyword))|
    requires forall j :: 0 <= j < m ==> ReplaceAll(s, keyword, Bold(keyword))[j] != '*'
    ensures m <= |s| && ReplaceAll(s, keyword, Bold(keyword))[..m] == s[..m]
    decreases |s|
  {
    var b := Bold(keyword);
    var r := ReplaceAll(s, keyword, b);
    if StartsWith(s, keyword) {
      assert r[0] == '*';
    } else if s != [] && m > 0 {
      var rest := ReplaceAll(s[1..], keyword, b);
      assert r == [s[0]] + rest;
      forall j | 0 <= j < m - 1
        ensures rest[j] != '*'
      {
        assert rest[j] == r[j + 1];
      }
      UnmarkedPrefix(s[1..], keyword, m - 1);
      assert r[..m] == [s[0]] + rest[..m - 1];
      assert s[..m] == [s[0]] + s[1..][..m - 1];
    }
  }
}
