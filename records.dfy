/** The working table: one row per comment, with pandas' missing values as `None`. */
module Records {
  import opened Wrappers
  import opened Sequences
  import opened Sentiment

  /** One row of the table; `sentiment` is the `sentiment_label` column and `score` the
      `vader_score` column. `extra` holds the cells of every other column of the CSV file
      (for instance `comment_id`), which are carried along unchanged. */
  datatype Row = Row(
    comment: Option<string>,
    sentiment: Option<string>,
    domain: Option<string>,
    score: Option<real>,
    extra: seq<Option<string>>)

  /** Which of the named columns the table has. */
  datatype Columns = Columns(comment: bool, sentiment: bool, domain: bool)

  /** A table as read from a CSV file. */
  datatype Table = Table(columns: Columns, rows: seq<Row>)

  predicate HasComment(r: Row) {
    r.comment.Some?
  }

  /** No cell of a column the table has is missing: the rows `DataFrame.dropna()` keeps. */
  predicate IsComplete(columns: Columns, r: Row) {
    && (columns.comment ==> r.comment.Some?)
    && (columns.sentiment ==> r.sentiment.Some?)
    && (columns.domain ==> r.domain.Some?)
    && (forall k :: 0 <= k < |r.extra| ==> r.extra[k].Some?)
  }

  /** The `comment` column as a series. */
  function Comments(rows: seq<Row>): seq<Option<string>> {
    Map(rows, (r: Row) => r.comment)
  }

  /** The `sentiment_label` column as a series. */
  function Sentiments(rows: seq<Row>): seq<Option<string>> {
    Map(rows, (r: Row) => r.sentiment)
  }

  /** The `domain` column as a series. */
  function Domains(rows: seq<Row>): seq<Option<string>> {
    Map(rows, (r: Row) => r.domain)
  }

  /** Whether `read_csv` gives a column with these cells the text dtype (`object`), on which the
      `.str` accessor works. A file with rows whose column is empty in every row gives the
      column dtype `float64` (all NaN) instead, and `.str` on it raises `AttributeError`; a file
      with no rows at all gives every column dtype `object`. */
  predicate ReadsAsText(cells: seq<Option<string>>) {
    cells == [] || exists i :: 0 <= i < |cells| && cells[i].Some?
  }

  /** For each named column, whether its dtype is text. */
  datatype Dtypes = Dtypes(comment: bool, sentiment: bool, domain: bool)

  /** The dtypes `read_csv` gives the named columns of a file with these rows. */
  function ReadDtypes(rows: seq<Row>): Dtypes {
    Dtypes(ReadsAsText(Comments(rows)), ReadsAsText(Sentiments(rows)), ReadsAsText(Domains(rows)))
  }

  /** Every row carries one of the three sentiment labels. */
  predicate AllSentiments(rows: seq<Row>) {
    forall i :: 0 <= i < |rows| ==> rows[i].sentiment.Some? && IsSentiment(rows[i].sentiment.value)
  }
}
