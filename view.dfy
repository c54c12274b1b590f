/** The filtered view the dashboard shows, and the counts of its summary panel. */
module View {
  import opened Wrappers
  import opened Sequences
  import opened Text
  import opened Records
  import opened Sentiment
  import opened Frame
  import opened Loader
  import opened Highlight

  /** `df['sentiment_label'].isin(labels)`; `None` in `labels` selects missing labels. */
  function LabelIn(labels: set<Option<string>>): Row -> bool {
    (r: Row) => r.sentiment in labels
  }

  /** `df['domain'].isin(domains)`. */
  function DomainIn(domains: set<Option<string>>): Row -> bool {
    (r: Row) => r.domain in domains
  }

  /** The label-and-domain mask of the sidebar multiselects. */
  function InSelection(labels: set<Option<string>>, domains: set<Option<string>>): Row -> bool {
    (r: Row) => r.sentiment in labels && r.domain in domains
  }

  /** `df['comment'].str.contains(keyword, case=False, na=False)`, with the keyword read as
      literal text. */
  function MatchesKeyword(keyword: string): Row -> bool {
    (r: Row) => r.comment.Some? && ContainsIgnoreCase(r.comment.value, keyword)
  }

  /** The filtered view: rows whose label and domain are selected, and, when a keyword is
      given, whose comment contains it ignoring case. */
  function SelectView(table: seq<Row>, labels: set<Option<string>>, domains: set<Option<string>>,
                      keyword: string): seq<Row>
  {
    var selected := Filter(table, InSelection(labels, domains));
    if keyword != "" then Filter(selected, MatchesKeyword(keyword)) else selected
  }

  /** The filter as the page runs it, on a loaded table whose comment column is or is not
      text: with a keyword, `.str.contains` raises on a comment column that does not hold text
      and nothing catches it (`None`); otherwise the page goes on with the view. */
  function FilteredView(table: seq<Row>, commentIsText: bool, labels: set<Option<string>>,
                        domains: set<Option<string>>, keyword: string): (r: Option<seq<Row>>)
    ensures r.None? <==> keyword != "" && !commentIsText
    ensures r.Some? ==> r.value == SelectView(table, labels, domains, keyword)
  {
    if keyword != "" && !commentIsText then None else Some(SelectView(table, labels, domains, keyword))
  }

  /** Whether a row belongs to the view. */
  predicate Shown(r: Row, labels: set<Option<string>>, domains: set<Option<string>>, keyword: string) {
    && r.sentiment in labels
    && r.domain in domains
    && (keyword != "" ==> r.comment.Some? && ContainsIgnoreCase(r.comment.value, keyword))
  }

  function ShownIn(labels: set<Option<string>>, domains: set<Option<string>>, keyword: string): Row -> bool {
    r => Shown(r, labels, domains, keyword)
  }

  /** The view is the single mask `Shown` applied to the table. */
  lemma SelectViewIsOneMask(table: seq<Row>, labels: set<Option<string>>, domains: set<Option<string>>,
                            keyword: string)
    ensures SelectView(table, labels, domains, keyword) == Filter(table, ShownIn(labels, domains, keyword))
  {
    var sel := InSelection(labels, domains);
    if keyword != "" {
      FilterFuse(table, sel, MatchesKeyword(keyword), ShownIn(labels, domains, keyword));
    } else {
      FilterAgree(table, sel, ShownIn(labels, domains, keyword));
    }
  }

  /** The view is an order-preserving subsequence of the table; every row in it meets the label,
      domain and keyword conditions, and every row of the table that meets them is in it. */
  lemma ViewIsExactSelection(table: seq<Row>, labels: set<Option<string>>, domains: set<Option<string>>,
                             keyword: string)
    ensures var view := SelectView(table, labels, domains, keyword);
            && IsSubsequence(view, table)
            && (forall i :: 0 <= i < |view| ==> Shown(view[i], labels, domains, keyword))
            && (forall i :: 0 <= i < |table| && Shown(table[i], labels, domains, keyword) ==> table[i] in view)
  {
    var p := ShownIn(labels, domains, keyword);
    SelectViewIsOneMask(table, labels, domains, keyword);
    FilterIsSubsequence(table, p);
    forall i | 0 <= i < |table| && Shown(table[i], labels, domains, keyword)
      ensures table[i] in Filter(table, p)
    {
      FilterKeeps(table, p, i);
    }
  }

  /** The label condition and the domain condition can be applied in either order. */
  lemma LabelAndDomainCommute(table: seq<Row>, labels: set<Option<string>>, domains: set<Option<string>>)
    ensures Filter(Filter(table, LabelIn(labels)), DomainIn(domains)) == Filter(table, InSelection(labels, domains))
    ensures Filter(Filter(table, DomainIn(domains)), LabelIn(labels)) == Filter(table, InSelection(labels, domains))
  {
    FilterFuse(table, LabelIn(labels), DomainIn(domains), InSelection(labels, domains));
    FilterFuse(table, DomainIn(domains), LabelIn(labels), InSelection(labels, domains));
  }

  /** The keyword condition can be applied first. */
  lemma KeywordFirstGivesSameView(table: seq<Row>, labels: set<Option<string>>, domains: set<Option<string>>,
                                  keyword: string)
    requires keyword != ""
    ensures Filter(Filter(table, MatchesKeyword(keyword)), InSelection(labels, domains))
            == SelectView(table, labels, domains, keyword)
  {
    FilterCommute(table, MatchesKeyword(keyword), InSelection(labels, domains));
  }

  /** Filtering a view again with the same choices changes nothing. */
  lemma ViewIdempotent(table: seq<Row>, labels: set<Option<string>>, domains: set<Option<string>>,
                       keyword: string)
    ensures SelectView(SelectView(table, labels, domains, keyword), labels, domains, keyword)
            == SelectView(table, labels, domains, keyword)
  {
    var view := SelectView(table, labels, domains, keyword);
    SelectViewIsOneMask(table, labels, domains, keyword);
    SelectViewIsOneMask(view, labels, domains, keyword);
    FilterIdempotent(table, ShownIn(labels, domains, keyword));
  }

  /** In the keyword search results every comment contains the keyword ignoring case, so the
      highlighting puts each exact-case occurrence of the keyword in bold and changes nothing
      else in the row. */
  lemma KeywordResultsAreHighlighted(table: seq<Row>, labels: set<Option<string>>,
                                     domains: set<Option<string>>, keyword: string)
    requires keyword != ""
    ensures var view := SelectView(table, labels, domains, keyword);
            var shown := WithHighlights(view, keyword);
            && |shown| == |view|
            && forall i :: 0 <= i < |view| ==>
                 && view[i].comment.Some?
                 && shown[i] == view[i].(comment := Some(ReplaceAll(view[i].comment.value, keyword, Bold(keyword))))
  {
    ViewIsExactSelection(table, labels, domains, keyword);
  }

  /** The keyword search results: the comment column of the view is overwritten, in place, by
      its highlighted form. The view is wrapped in a frame of its own: a loaded table always has
      all three named columns, and the column types this frame records from the view are not
      those of the loaded frame but are not consulted by the highlighting, which reads and
      writes the comment cells only. */
  method KeywordResults(view: seq<Row>, keyword: string) returns (shown: seq<Row>)
    requires keyword != ""
    ensures shown == WithHighlights(view, keyword)
  {
    var df := new DataFrame(Table(Columns(true, true, true), view));
    df.HighlightComments(keyword);
    shown := df.rows;
  }

  // ---------------------------------------------------------------------------------------
  // Summary counts

  /** The number of rows whose label is `l` (`len(df[df['sentiment_label'] == l])`). */
  function CountLabel(rows: seq<Row>, l: string): (n: nat)
    ensures n <= |rows|
  {
    if rows == [] then 0
    else (if rows[0].sentiment == Some(l) then 1 else 0) + CountLabel(rows[1..], l)
  }

  /** The mask `df['sentiment_label'] == l`; a missing label equals no string. */
  function LabelIs(l: string): Row -> bool {
    (r: Row) => r.sentiment == Some(l)
  }

  /** A label count is the length of the table the label mask selects. */
  lemma {:induction false} CountLabelIsMaskLength(rows: seq<Row>, l: string)
    ensures CountLabel(rows, l) == |Filter(rows, LabelIs(l))|
  {
    if rows != [] {
      CountLabelIsMaskLength(rows[1..], l);
    }
  }

  /** The number of rows whose label is missing or not one of the three sentiments. */
  function CountOther(rows: seq<Row>): (n: nat)
    ensures n <= |rows|
  {
    if rows == [] then 0
    else (if rows[0].sentiment.Some? && IsSentiment(rows[0].sentiment.value) then 0 else 1)
         + CountOther(rows[1..])
  }

  /** Every row is counted exactly once: as positive, negative, neutral or other. */
  lemma {:induction false} CountsPartition(rows: seq<Row>)
    ensures CountLabel(rows, Positive) + CountLabel(rows, Negative) + CountLabel(rows, Neutral)
            + CountOther(rows) == |rows|
    ensures CountOther(rows) == 0 <==> AllSentiments(rows)
  {
    if rows != [] {
      CountsPartition(rows[1..]);
      if AllSentiments(rows[1..]) && rows[0].sentiment.Some? && IsSentiment(rows[0].sentiment.value) {
        assert AllSentiments(rows);
      }
    }
  }

  datatype Summary = Summary(total: nat, positive: nat, negative: nat, neutral: nat)

  /** The summary panel: the three sentiment counts never exceed the total, and add up to it
      exactly when every label is one of the three sentiments. */
  function Summarize(view: seq<Row>): (s: Summary)
    ensures s.total == |view|
    ensures s.positive + s.negative + s.neutral <= s.total
    ensures s.positive + s.negative + s.neutral == s.total <==> AllSentiments(view)
  {
    CountsPartition(view);
    Summary(|view|, CountLabel(view, Positive), CountLabel(view, Negative), CountLabel(view, Neutral))
  }

  /** `count / total * 100 if total > 0 else 0`. */
  function Percentage(count: nat, total: nat): (p: real)
    ensures total == 0 ==> p == 0.0
    ensures count <= total ==> 0.0 <= p <= 100.0
    ensures 0 < total && count == total ==> p == 100.0
  {
    if total > 0 then count as real / total as real * 100.0 else 0.0
  }

  /** When every label is a sentiment, the three percentages of a non-empty view add up to 100. */
  lemma PercentagesAddUp(view: seq<Row>)
    requires |view| > 0 && AllSentiments(view)
    ensures var s := Summarize(view);
            Percentage(s.positive, s.total) + Percentage(s.negative, s.total)
            + Percentage(s.neutral, s.total) == 100.0
  {
    var s := Summarize(view);
    SharesAddUp(s.positive as real, s.negative as real, s.neutral as real, s.total as real);
  }

  lemma SharesAddUp(a: real, b: real, c: real, t: real)
    requires t > 0.0 && a + b + c == t
    ensures a / t * 100.0 + b / t * 100.0 + c / t * 100.0 == 100.0
  {
    var inv := 1.0 / t;
    assert a / t == a * inv && b / t == b * inv && c / t == c * inv;
    assert a * inv + b * inv + c * inv == (a + b + c) * inv;
    assert t * inv == 1.0;
  }

  /** Any selection from a table whose labels are all sentiments has only sentiments too. */
  lemma SelectionKeepsSentiments(table: seq<Row>, labels: set<Option<string>>,
                                 domains: set<Option<string>>, keyword: string)
    requires AllSentiments(table)
    ensures AllSentiments(SelectView(table, labels, domains, keyword))
  {
    var view := SelectView(table, labels, domains, keyword);
    ViewIsExactSelection(table, labels, domains, keyword);
    forall i | 0 <= i < |view|
      ensures view[i].sentiment.Some? && IsSentiment(view[i].sentiment.value)
    {
      var j :| 0 <= j < |table| && table[j] == view[i];
    }
  }

  /** The three counts of the summary panel are the sizes of the views the label masks select. */
  lemma SummaryCountsMasks(view: seq<Row>)
    ensures var s := Summarize(view);
            && s.positive == |Filter(view, LabelIs(Positive))|
            && s.negative == |Filter(view, LabelIs(Negative))|
            && s.neutral == |Filter(view, LabelIs(Neutral))|
  {
    CountLabelIsMaskLength(view, Positive);
    CountLabelIsMaskLength(view, Negative);
    CountLabelIsMaskLength(view, Neutral);
  }

  /** A view of an upload without a `sentiment_label` column has only the three sentiments, so
      its counts add up to the total. */
  lemma DerivedViewCountsAddUp(t: Table, scorer: Scorer, labels: set<Option<string>>,
                               domains: set<Option<string>>, keyword: string)
    requires UploadedData(Some(t), scorer).Some? && !t.columns.sentiment
    ensures var s := Summarize(SelectView(UploadedData(Some(t), scorer).value, labels, domains, keyword));
            s.positive + s.negative + s.neutral == s.total
  {
    UploadDerivesSentiments(t, scorer);
    SelectionKeepsSentiments(UploadedData(Some(t), scorer).value, labels, domains, keyword);
  }

  // ---------------------------------------------------------------------------------------
  // A keyword search on a table without comments

  /** A keyword search of an upload fails exactly when the file has rows but not one comment;
      the uploaded table is then empty, so every search of a non-empty upload goes through. */
  lemma UploadSearchFails(t: Table, scorer: Scorer, labels: set<Option<string>>,
                          domains: set<Option<string>>, keyword: string)
    requires UploadedData(Some(t), scorer).Some?
    ensures var table := UploadedData(Some(t), scorer).value;
            && (FilteredView(table, ReadDtypes(t.rows).comment, labels, domains, keyword).None?
                <==> keyword != "" && t.rows != [] && forall i :: 0 <= i < |t.rows| ==> t.rows[i].comment.None?)
            && (!ReadDtypes(t.rows).comment ==> table == [])
  {
    TextColumns(t.rows);
    if !ReadDtypes(t.rows).comment {
      FilterNone(t.rows, Commented());
    }
  }

  /** The same holds of the default data set: a keyword search fails exactly when the file has
      rows but not one comment, and the default table is then empty. */
  lemma DefaultSearchFails(t: Table, scorer: Scorer, labels: set<Option<string>>,
                           domains: set<Option<string>>, keyword: string)
    requires DefaultData(Success(t), scorer).Success?
    ensures var table := DefaultData(Success(t), scorer).value;
            && (FilteredView(table, ReadDtypes(t.rows).comment, labels, domains, keyword).None?
                <==> keyword != "" && t.rows != [] && forall i :: 0 <= i < |t.rows| ==> t.rows[i].comment.None?)
            && (!ReadDtypes(t.rows).comment ==> table == [])
  {
    TextColumns(t.rows);
    if !ReadDtypes(t.rows).comment {
      FilterNone(t.rows, CompleteIn(t.columns));
    }
  }
}
