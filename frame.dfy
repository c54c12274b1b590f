/** The table the dashboard edits in place, column by column, and the value each column
    assignment produces. */
module Frame {
  import opened Wrappers
  import opened Sequences
  import opened Text
  import opened Records
  import opened Sentiment
  import opened Highlight

  /** The mask of `dropna()` for a table with the given columns. */
  function CompleteIn(columns: Columns): Row -> bool {
    r => IsComplete(columns, r)
  }

  /** The mask of `dropna(subset=['comment'])`. */
  function Commented(): Row -> bool {
    r => HasComment(r)
  }

  predicate AllCommented(rows: seq<Row>) {
    forall i :: 0 <= i < |rows| ==> rows[i].comment.Some?
  }

  /** `df.dropna()`: the rows with no missing cell, in order. */
  function DropIncomplete(columns: Columns, rows: seq<Row>): seq<Row> {
    Filter(rows, CompleteIn(columns))
  }

  /** `df.dropna(subset=['comment'])`: the rows that have a comment, in order. */
  function DropMissingComment(rows: seq<Row>): (r: seq<Row>)
    ensures AllCommented(r)
  {
    Filter(rows, Commented())
  }

  /** `df['vader_score'] = df['comment'].apply(...)`: only the score of each row changes. */
  function WithScores(rows: seq<Row>, scorer: Scorer): (r: seq<Row>)
    requires AllCommented(rows)
    ensures |r| == |rows|
  {
    seq(|rows|, i requires 0 <= i < |rows| => rows[i].(score := Some(scorer(rows[i].comment.value))))
  }

  /** `df['sentiment_label'] = df['vader_score'].apply(...)`: only the label of each row
      changes, to the label of its score. */
  function WithDerivedSentiments(rows: seq<Row>): (r: seq<Row>)
    ensures |r| == |rows|
  {
    seq(|rows|, i requires 0 <= i < |rows| => rows[i].(sentiment := Some(CellLabel(rows[i].score))))
  }

  /** `df['domain'] = value`: only the domain of each row changes. */
  function WithDomain(rows: seq<Row>, value: string): (r: seq<Row>)
    ensures |r| == |rows|
  {
    seq(|rows|, i requires 0 <= i < |rows| => rows[i].(domain := Some(value)))
  }

  /** `df['sentiment_label'] = df['sentiment_label'].str.lower().str.strip()`: only the label
      of each row changes; a missing label stays missing. */
  function WithNormalizedSentiments(rows: seq<Row>): (r: seq<Row>)
    ensures |r| == |rows|
  {
    seq(|rows|, i requires 0 <= i < |rows| => rows[i].(sentiment := MapOption(rows[i].sentiment, Normalize)))
  }

  /** `df['domain'] = df['domain'].str.lower().str.strip()`: only the domain of each row
      changes; a missing domain stays missing. */
  function WithNormalizedDomains(rows: seq<Row>): (r: seq<Row>)
    ensures |r| == |rows|
  {
    seq(|rows|, i requires 0 <= i < |rows| => rows[i].(domain := MapOption(rows[i].domain, Normalize)))
  }

  /** `df['comment'] = df['comment'].apply(<highlight keyword>)`: only the comment of each row
      changes. */
  function WithHighlights(rows: seq<Row>, keyword: string): (r: seq<Row>)
    requires |keyword| > 0
    ensures |r| == |rows|
  {
    seq(|rows|, i requires 0 <= i < |rows| => rows[i].(comment := HighlightComment(rows[i].comment, keyword)))
  }

  /** A pandas DataFrame over the comment columns; each method is one in-place column
      assignment or row drop of the source. */
  class DataFrame {
    var columns: Columns
    /** Which named columns have the text dtype; a row drop keeps the dtypes. */
    var text: Dtypes
    var rows: seq<Row>

    /** `pd.read_csv`: the table as parsed, with the dtypes it infers. */
    constructor (t: Table)
      ensures columns == t.columns && text == ReadDtypes(t.rows) && rows == t.rows
    {
      columns := t.columns;
      text := ReadDtypes(t.rows);
      rows := t.rows;
    }

    method DropNa()
      modifies this
      ensures columns == old(columns) && text == old(text)
      ensures rows == DropIncomplete(old(columns), old(rows))
    {
      rows := DropIncomplete(columns, rows);
    }

    method DropNaComment()
      modifies this
      ensures columns == old(columns) && text == old(text)
      ensures rows == DropMissingComment(old(rows))
      ensures AllCommented(rows)
    {
      rows := DropMissingComment(rows);
    }

    method AssignScores(scorer: Scorer)
      requires AllCommented(rows)
      modifies this
      ensures columns == old(columns) && text == old(text)
      ensures rows == WithScores(old(rows), scorer)
    {
      rows := WithScores(rows, scorer);
    }

    /** The new label column holds text when there is at least one row; on no rows `apply`
        keeps the dtype of the score column, which kept that of the comment column. */
    method DeriveSentiments()
      modifies this
      ensures columns == old(columns).(sentiment := true)
      ensures text == old(text).(sentiment := |old(rows)| > 0 || old(text).comment)
      ensures rows == WithDerivedSentiments(old(rows))
    {
      columns := columns.(sentiment := true);
      text := text.(sentiment := |rows| > 0 || text.comment);
      rows := WithDerivedSentiments(rows);
    }

    /** Assigning a string makes a text column, even on no rows. */
    method FillDomain(value: string)
      modifies this
      ensures columns == old(columns).(domain := true)
      ensures text == old(text).(domain := true)
      ensures rows == WithDomain(old(rows), value)
    {
      columns := columns.(domain := true);
      text := text.(domain := true);
      rows := WithDomain(rows, value);
    }

    /** `.str` is available only on a text column. */
    method NormalizeSentiments()
      requires text.sentiment
      modifies this
      ensures columns == old(columns) && text == old(text)
      ensures rows == WithNormalizedSentiments(old(rows))
    {
      rows := WithNormalizedSentiments(rows);
    }

    method NormalizeDomains()
      requires text.domain
      modifies this
      ensures columns == old(columns) && text == old(text)
      ensures rows == WithNormalizedDomains(old(rows))
    {
      rows := WithNormalizedDomains(rows);
    }

    method HighlightComments(keyword: string)
      requires |keyword| > 0
      modifies this
      ensures columns == old(columns) && text == old(text)
      ensures rows == WithHighlights(old(rows), keyword)
    {
      rows := WithHighlights(rows, keyword);
    }
  }
}
