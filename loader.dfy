/** Loading the working table: the curated default data set (`load_default_data`) and a
    user upload (`process_uploaded_data`). */
module Loader {
  import opened Wrappers
  import opened Sequences
  import opened Text
  import opened Records
  import opened Sentiment
  import opened Frame

  /** Why reading a CSV file fails: there is no such file, or its text is not a CSV table
      (`read_csv` raises `EmptyDataError` or `ParserError`). */
  datatype ReadError = NoSuchFile | Malformed

  /** `FileNotFound`: the default CSV file is absent (the source reports it and returns None).
      The other errors are exceptions that nothing in `load_default_data` catches:
      `Unreadable`, the file cannot be parsed; `MissingColumn`, a column it reads is absent
      (`KeyError`); `NotText`, a column it normalizes has a numeric dtype (`AttributeError`). */
  datatype LoadError = FileNotFound | Unreadable | MissingColumn(name: string) | NotText(name: string)

  const General: string := "general"

  /** `load_default_data` on the outcome of reading the default file. */
  function DefaultData(file: Result<Table, ReadError>, scorer: Scorer): (r: Result<seq<Row>, LoadError>)
    ensures file == Failure(NoSuchFile) ==> r == Failure(FileNotFound)
    ensures file == Failure(Malformed) ==> r == Failure(Unreadable)
    ensures file.Success? && !file.value.columns.sentiment ==> r == Failure(MissingColumn("sentiment_label"))
    ensures file.Success? && file.value.columns.sentiment && !ReadDtypes(file.value.rows).sentiment
            ==> r == Failure(NotText("sentiment_label"))
    ensures file.Success? && file.value.columns.sentiment && ReadDtypes(file.value.rows).sentiment
            && !file.value.columns.domain
            ==> r == Failure(MissingColumn("domain"))
    ensures r.Success? <==> && file.Success? && file.value.columns == Columns(true, true, true)
                            && ReadDtypes(file.value.rows).sentiment && ReadDtypes(file.value.rows).domain
  {
    match file
    case Failure(NoSuchFile) => Failure(FileNotFound)
    case Failure(Malformed) => Failure(Unreadable)
    case Success(t) =>
      var text := ReadDtypes(t.rows);
      var kept := DropIncomplete(t.columns, t.rows);
      if !t.columns.sentiment then Failure(MissingColumn("sentiment_label"))
      else if !text.sentiment then Failure(NotText("sentiment_label"))
      else if !t.columns.domain then Failure(MissingColumn("domain"))
      else if !text.domain then Failure(NotText("domain"))
      else if !t.columns.comment then Failure(MissingColumn("comment"))
      else
        CompleteRowsAreCommented(t.columns, t.rows);
        Success(WithScores(WithNormalizedDomains(WithNormalizedSentiments(kept)), scorer))
  }

  lemma CompleteRowsAreCommented(columns: Columns, rows: seq<Row>)
    requires columns.comment
    ensures AllCommented(WithNormalizedDomains(WithNormalizedSentiments(DropIncomplete(columns, rows))))
  {
    var kept := DropIncomplete(columns, rows);
    assert forall i :: 0 <= i < |kept| ==> CompleteIn(columns)(kept[i]);
  }

  /** Whether the `.str` normalization of an upload finds text columns: the supplied label
      column, or else the derived one, which is text unless the comment column is not; and the
      supplied domain column, when there is one ("general" is text). */
  predicate UploadColumnsAreText(t: Table) {
    var text := ReadDtypes(t.rows);
    && (if t.columns.sentiment then text.sentiment else text.comment)
    && (t.columns.domain ==> text.domain)
  }

  /** `process_uploaded_data` on the parsed file (`None` when parsing fails). Every exception is
      caught and gives `None`. */
  function UploadedData(file: Option<Table>, scorer: Scorer): (r: Option<seq<Row>>)
    ensures r.None? <==> file.None? || !file.value.columns.comment || !UploadColumnsAreText(file.value)
  {
    if file.None? || !file.value.columns.comment || !UploadColumnsAreText(file.value) then None
    else Some(ClassifyUpload(file.value.columns, scorer, DropMissingComment(file.value.rows)))
  }

  /** The steps of an upload after the rows without a comment are dropped. */
  function ClassifyUpload(columns: Columns, scorer: Scorer, kept: seq<Row>): seq<Row>
    requires AllCommented(kept)
  {
    WithNormalizedDomains(WithNormalizedSentiments(Placed(columns, scorer, kept)))
  }

  /** The scoring, the label derivation when the table has no labels, and the default domain
      when it has no domains. */
  function Placed(columns: Columns, scorer: Scorer, kept: seq<Row>): seq<Row>
    requires AllCommented(kept)
  {
    var scored := WithScores(kept, scorer);
    var labelled := if columns.sentiment then scored else WithDerivedSentiments(scored);
    if columns.domain then labelled else WithDomain(labelled, General)
  }

  /** `load_default_data`, run on a DataFrame. Besides the table it gives whether the table's
      comment column is text, which the keyword filter depends on: no step touches that column's
      type, so it is the one `read_csv` gave it. */
  method LoadDefaultData(file: Result<Table, ReadError>, scorer: Scorer)
    returns (r: Result<seq<Row>, LoadError>, commentIsText: bool)
    ensures r == DefaultData(file, scorer)
    ensures r.Success? ==> commentIsText == ReadDtypes(file.value.rows).comment
  {
    if file == Failure(NoSuchFile) {
      return Failure(FileNotFound), false;
    } else if file.Failure? {
      return Failure(Unreadable), false;
    }
    var df := new DataFrame(file.value);
    df.DropNa();
    if !df.columns.sentiment {
      return Failure(MissingColumn("sentiment_label")), false;
    } else if !df.text.sentiment {
      return Failure(NotText("sentiment_label")), false;
    }
    df.NormalizeSentiments();
    if !df.columns.domain {
      return Failure(MissingColumn("domain")), false;
    } else if !df.text.domain {
      return Failure(NotText("domain")), false;
    }
    df.NormalizeDomains();
    if !df.columns.comment {
      return Failure(MissingColumn("comment")), false;
    }
    CompleteRowsAreCommented(file.value.columns, file.value.rows);
    df.AssignScores(scorer);
    r := Success(df.rows);
    commentIsText := df.text.comment;
  }

  /** `process_uploaded_data`, run on a DataFrame; like `LoadDefaultData`, it also gives whether
      the comment column is text. */
  method ProcessUploadedData(file: Option<Table>, scorer: Scorer) returns (r: Option<seq<Row>>, commentIsText: bool)
    ensures r == UploadedData(file, scorer)
    ensures r.Some? ==> commentIsText == ReadDtypes(file.value.rows).comment
  {
    if file.None? {
      return None, false;
    }
    var df := new DataFrame(file.value);
    if !df.columns.comment {
      return None, false;
    }
    ghost var t := file.value;
    ghost var text := ReadDtypes(t.rows);
    ghost var kept := DropMissingComment(t.rows);
    ghost var scored := WithScores(kept, scorer);
    ghost var labelled := if t.columns.sentiment then scored else WithDerivedSentiments(scored);
    ghost var placed := if t.columns.domain then labelled else WithDomain(labelled, General);
    df.DropNaComment();
    df.AssignScores(scorer);
    assert df.rows == scored;
    if !df.columns.sentiment {
      DerivedLabelsAreText(t.rows);
      df.DeriveSentiments();
    }
    assert df.rows == labelled;
    if !df.columns.domain {
      df.FillDomain(General);
    }
    assert df.rows == Placed(t.columns, scorer, kept);
    assert df.columns.sentiment && df.columns.domain;
    assert df.text.sentiment == (if t.columns.sentiment then text.sentiment else text.comment);
    assert df.text.domain == (t.columns.domain ==> text.domain);
    if !df.text.sentiment {
      return None, false;
    }
    df.NormalizeSentiments();
    if !df.text.domain {
      return None, false;
    }
    df.NormalizeDomains();
    assert df.rows == ClassifyUpload(t.columns, scorer, kept);
    r := Some(df.rows);
    commentIsText := df.text.comment;
  }

  /** The label column derived from the scores of the commented rows is text exactly when the
      comment column is: the derived column has text whenever some row has a comment, and
      otherwise keeps the dtype of the comment column. */
  lemma DerivedLabelsAreText(rows: seq<Row>)
    ensures (|DropMissingComment(rows)| > 0 || ReadDtypes(rows).comment) == ReadDtypes(rows).comment
  {
    var kept := DropMissingComment(rows);
    if |kept| > 0 {
      assert kept[0] in rows;
      var j :| 0 <= j < |rows| && rows[j] == kept[0];
      assert rows[j].comment.Some?;
    }
  }

  // ---------------------------------------------------------------------------------------
  // What a loaded row is, row by row

  /** The uploaded row `out` made from the raw row `raw` of a table with the given columns. */
  predicate IsUploadedRow(columns: Columns, scorer: Scorer, raw: Row, out: Row) {
    && raw.comment.Some?
    && out.comment == raw.comment
    && out.score == Some(scorer(raw.comment.value))
    && out.sentiment == (if columns.sentiment then MapOption(raw.sentiment, Normalize)
                         else Some(DeriveLabel(scorer(raw.comment.value))))
    && out.domain == (if columns.domain then MapOption(raw.domain, Normalize) else Some(General))
    && out.extra == raw.extra
  }

  /** The default-set row `out` made from the complete raw row `raw`. */
  predicate IsDefaultRow(scorer: Scorer, raw: Row, out: Row) {
    && raw.comment.Some? && raw.sentiment.Some? && raw.domain.Some?
    && out.comment == raw.comment
    && out.score == Some(scorer(raw.comment.value))
    && out.sentiment == Some(Normalize(raw.sentiment.value))
    && out.domain == Some(Normalize(raw.domain.value))
    && out.extra == raw.extra
  }

  /** A derived label is already in normal form. */
  lemma DerivedLabelIsNormal(x: real)
    ensures Normalize(DeriveLabel(x)) == DeriveLabel(x)
  {
    var l := DeriveLabel(x);
    assert IsNormal(l) by {
      assert IsLowerCase(Positive) && IsLowerCase(Negative) && IsLowerCase(Neutral);
    }
    NormalizeFixesNormal(l);
  }

  /** An upload keeps exactly the rows that have a comment, in order, and turns each into its
      uploaded row. */
  lemma UploadedRows(t: Table, scorer: Scorer)
    requires UploadedData(Some(t), scorer).Some?
    ensures var out := UploadedData(Some(t), scorer).value;
            var kept := DropMissingComment(t.rows);
            |out| == |kept| && forall i :: 0 <= i < |out| ==> IsUploadedRow(t.columns, scorer, kept[i], out[i])
  {
    var kept := DropMissingComment(t.rows);
    var out := ClassifyUpload(t.columns, scorer, kept);
    forall i | 0 <= i < |out|
      ensures IsUploadedRow(t.columns, scorer, kept[i], out[i])
    {
      ClassifiedRow(t.columns, scorer, kept, i);
    }
  }

  lemma ClassifiedRow(columns: Columns, scorer: Scorer, kept: seq<Row>, i: nat)
    requires AllCommented(kept) && i < |kept|
    ensures |ClassifyUpload(columns, scorer, kept)| == |kept|
    ensures IsUploadedRow(columns, scorer, kept[i], ClassifyUpload(columns, scorer, kept)[i])
  {
    var x := scorer(kept[i].comment.value);
    PlacedRow(columns, scorer, kept, i);
    var before := Placed(columns, scorer, kept)[i];
    NormalizedRow(Placed(columns, scorer, kept), i);
    var after := ClassifyUpload(columns, scorer, kept)[i];
    assert after == before.(sentiment := MapOption(before.sentiment, Normalize),
                            domain := MapOption(before.domain, Normalize));
    if !columns.sentiment {
      DerivedLabelIsNormal(x);
      assert after.sentiment == Some(DeriveLabel(x));
    }
    if !columns.domain {
      GeneralIsNormal();
      assert after.domain == Some(General);
    }
  }

  /** Before normalization a row has its score, its supplied or derived label and its supplied
      or default domain. */
  lemma PlacedRow(columns: Columns, scorer: Scorer, kept: seq<Row>, i: nat)
    requires AllCommented(kept) && i < |kept|
    ensures var raw := kept[i];
            var x := scorer(raw.comment.value);
            && |Placed(columns, scorer, kept)| == |kept|
            && Placed(columns, scorer, kept)[i]
               == raw.(score := Some(x),
                       sentiment := if columns.sentiment then raw.sentiment else Some(DeriveLabel(x)),
                       domain := if columns.domain then raw.domain else Some(General))
  {
    var raw := kept[i];
    var x := scorer(raw.comment.value);
    var scored := WithScores(kept, scorer);
    assert scored[i] == raw.(score := Some(x));
  }

  /** The two normalization steps change only the label and the domain of a row. */
  lemma NormalizedRow(rows: seq<Row>, i: nat)
    requires i < |rows|
    ensures var out := WithNormalizedDomains(WithNormalizedSentiments(rows));
            && |out| == |rows|
            && out[i] == rows[i].(sentiment := MapOption(rows[i].sentiment, Normalize),
                                  domain := MapOption(rows[i].domain, Normalize))
  {
  }

  /** The default loader keeps exactly the complete rows, in order, and turns each into its
      default-set row: the supplied label is kept, only normalized, whatever the score. */
  lemma DefaultRows(t: Table, scorer: Scorer)
    requires DefaultData(Success(t), scorer).Success?
    ensures var out := DefaultData(Success(t), scorer).value;
            var kept := DropIncomplete(t.columns, t.rows);
            |out| == |kept| && forall i :: 0 <= i < |out| ==> IsDefaultRow(scorer, kept[i], out[i])
  {
    var kept := DropIncomplete(t.columns, t.rows);
    assert forall i :: 0 <= i < |kept| ==> CompleteIn(t.columns)(kept[i]);
  }

  // ---------------------------------------------------------------------------------------
  // Properties of the loaded table

  /** No row of an upload lacks a comment, and the comments are those of the raw rows that
      had one, in their original order. */
  lemma UploadKeepsCommentedRowsInOrder(t: Table, scorer: Scorer)
    requires UploadedData(Some(t), scorer).Some?
    ensures var out := UploadedData(Some(t), scorer).value;
            && AllCommented(out)
            && Comments(out) == Comments(Filter(t.rows, Commented()))
            && IsSubsequence(Comments(out), Comments(t.rows))
  {
    var out := UploadedData(Some(t), scorer).value;
    UploadedRows(t, scorer);
    FilterIsSubsequence(t.rows, Commented());
    MapSubsequence(Filter(t.rows, Commented()), t.rows, (r: Row) => r.comment);
  }

  /** Every raw row with a comment survives the upload, as its uploaded form. */
  lemma UploadKeepsEveryCommentedRow(t: Table, scorer: Scorer, i: nat)
    requires UploadedData(Some(t), scorer).Some? && i < |t.rows| && t.rows[i].comment.Some?
    ensures var out := UploadedData(Some(t), scorer).value;
            exists k :: 0 <= k < |out| && IsUploadedRow(t.columns, scorer, t.rows[i], out[k])
    ensures t.rows[i].comment in Comments(UploadedData(Some(t), scorer).value)
  {
    var out := UploadedData(Some(t), scorer).value;
    var kept := DropMissingComment(t.rows);
    UploadedRows(t, scorer);
    FilterKeeps(t.rows, Commented(), i);
    var k :| 0 <= k < |kept| && kept[k] == t.rows[i];
    assert IsUploadedRow(t.columns, scorer, kept[k], out[k]);
    assert Comments(out)[k] == t.rows[i].comment;
  }

  /** Without a `sentiment_label` column every label is derived from the stored score:
      positive exactly above 0.05, negative exactly below -0.05, neutral otherwise. */
  lemma UploadDerivesLabelsFromScores(t: Table, scorer: Scorer)
    requires UploadedData(Some(t), scorer).Some? && !t.columns.sentiment
    ensures var out := UploadedData(Some(t), scorer).value;
            forall i :: 0 <= i < |out| ==>
              && out[i].score.Some? && out[i].sentiment.Some?
              && IsSentiment(out[i].sentiment.value)
              && (out[i].sentiment.value == Positive <==> out[i].score.value > PositiveThreshold)
              && (out[i].sentiment.value == Negative <==> out[i].score.value < NegativeThreshold)
              && (out[i].sentiment.value == Neutral
                  <==> NegativeThreshold <= out[i].score.value <= PositiveThreshold)
  {
    var out := UploadedData(Some(t), scorer).value;
    var kept := DropMissingComment(t.rows);
    UploadedRows(t, scorer);
    forall i | 0 <= i < |out|
      ensures out[i].score.Some? && out[i].sentiment == Some(DeriveLabel(out[i].score.value))
    {
      DerivedRowLabel(t.columns, scorer, kept[i], out[i]);
    }
  }

  lemma DerivedRowLabel(columns: Columns, scorer: Scorer, raw: Row, out: Row)
    requires !columns.sentiment && IsUploadedRow(columns, scorer, raw, out)
    ensures out.score.Some? && out.sentiment == Some(DeriveLabel(out.score.value))
  {
  }

  /** Without a `sentiment_label` column every label is one of the three sentiments. */
  lemma UploadDerivesSentiments(t: Table, scorer: Scorer)
    requires UploadedData(Some(t), scorer).Some? && !t.columns.sentiment
    ensures AllSentiments(UploadedData(Some(t), scorer).value)
  {
    UploadedRows(t, scorer);
  }

  /** With a `sentiment_label` column each label is the supplied one, only lower-cased and
      trimmed, and it does not depend on the scores at all. */
  lemma UploadKeepsSuppliedLabels(t: Table, scorer: Scorer, other: Scorer)
    requires UploadedData(Some(t), scorer).Some? && t.columns.sentiment
    ensures var out := UploadedData(Some(t), scorer).value;
            var kept := DropMissingComment(t.rows);
            && (forall i :: 0 <= i < |out| ==> out[i].sentiment == MapOption(kept[i].sentiment, Normalize))
            && Sentiments(out) == Sentiments(UploadedData(Some(t), other).value)
  {
    UploadedRows(t, scorer);
    UploadedRows(t, other);
  }

  /** Without a `domain` column every row is in the domain "general". */
  lemma UploadDefaultsDomain(t: Table, scorer: Scorer)
    requires UploadedData(Some(t), scorer).Some? && !t.columns.domain
    ensures var out := UploadedData(Some(t), scorer).value;
            forall i :: 0 <= i < |out| ==> out[i].domain == Some(General)
  {
    UploadedRows(t, scorer);
  }

  /** Every label and domain of a loaded table is in normal form. */
  predicate IsNormalized(rows: seq<Row>) {
    forall i :: 0 <= i < |rows| ==>
      && (rows[i].sentiment.Some? ==> IsNormal(rows[i].sentiment.value))
      && (rows[i].domain.Some? ==> IsNormal(rows[i].domain.value))
  }

  /** On a normalized table, normalizing labels and domains again changes nothing. */
  lemma RenormalizingChangesNothing(rows: seq<Row>)
    requires IsNormalized(rows)
    ensures WithNormalizedDomains(WithNormalizedSentiments(rows)) == rows
  {
    forall i | 0 <= i < |rows|
      ensures MapOption(rows[i].sentiment, Normalize) == rows[i].sentiment
      ensures MapOption(rows[i].domain, Normalize) == rows[i].domain
    {
      if rows[i].sentiment.Some? { NormalizeFixesNormal(rows[i].sentiment.value); }
      if rows[i].domain.Some? { NormalizeFixesNormal(rows[i].domain.value); }
    }
  }

  lemma UploadIsNormalized(t: Table, scorer: Scorer)
    requires UploadedData(Some(t), scorer).Some?
    ensures IsNormalized(UploadedData(Some(t), scorer).value)
  {
    var out := UploadedData(Some(t), scorer).value;
    var kept := DropMissingComment(t.rows);
    UploadedRows(t, scorer);
    forall i | 0 <= i < |out|
      ensures out[i].sentiment.Some? ==> IsNormal(out[i].sentiment.value)
      ensures out[i].domain.Some? ==> IsNormal(out[i].domain.value)
    {
      UploadedRowIsNormal(t.columns, scorer, kept[i], out[i]);
    }
  }

  lemma UploadedRowIsNormal(columns: Columns, scorer: Scorer, raw: Row, row: Row)
    requires IsUploadedRow(columns, scorer, raw, row)
    ensures row.sentiment.Some? ==> IsNormal(row.sentiment.value)
    ensures row.domain.Some? ==> IsNormal(row.domain.value)
  {
    GeneralIsNormal();
    assert IsNormal(Normalize(General));
    DerivedLabelIsNormal(scorer(raw.comment.value));
  }

  /** The default domain is already in normal form. */
  lemma GeneralIsNormal()
    ensures Normalize(General) == General
  {
    assert IsNormal(General);
    NormalizeFixesNormal(General);
  }

  /** The default set keeps exactly its complete rows, in order: every kept row has a comment,
      a label, a domain, a score and all its other cells, and labels and domains are normal. */
  lemma DefaultKeepsCompleteRowsInOrder(t: Table, scorer: Scorer)
    requires DefaultData(Success(t), scorer).Success?
    ensures var out := DefaultData(Success(t), scorer).value;
            && (forall i :: 0 <= i < |out| ==>
                  && IsComplete(t.columns, out[i]) && out[i].score.Some?)
            && IsNormalized(out)
            && Comments(out) == Comments(Filter(t.rows, CompleteIn(t.columns)))
            && IsSubsequence(Comments(out), Comments(t.rows))
  {
    DefaultRowsAreComplete(t, scorer);
    DefaultIsNormalized(t, scorer);
    DefaultKeepsComments(t, scorer);
  }

  lemma DefaultRowsAreComplete(t: Table, scorer: Scorer)
    requires DefaultData(Success(t), scorer).Success?
    ensures var out := DefaultData(Success(t), scorer).value;
            forall i :: 0 <= i < |out| ==> IsComplete(t.columns, out[i]) && out[i].score.Some?
  {
    var out := DefaultData(Success(t), scorer).value;
    var kept := DropIncomplete(t.columns, t.rows);
    DefaultRows(t, scorer);
    forall i | 0 <= i < |out|
      ensures IsComplete(t.columns, out[i]) && out[i].score.Some?
    {
      assert IsDefaultRow(scorer, kept[i], out[i]);
      assert CompleteIn(t.columns)(kept[i]);
    }
  }

  lemma DefaultIsNormalized(t: Table, scorer: Scorer)
    requires DefaultData(Success(t), scorer).Success?
    ensures IsNormalized(DefaultData(Success(t), scorer).value)
  {
    var out := DefaultData(Success(t), scorer).value;
    var kept := DropIncomplete(t.columns, t.rows);
    DefaultRows(t, scorer);
    forall i | 0 <= i < |out|
      ensures && (out[i].sentiment.Some? ==> IsNormal(out[i].sentiment.value))
              && (out[i].domain.Some? ==> IsNormal(out[i].domain.value))
    {
      assert IsDefaultRow(scorer, kept[i], out[i]);
    }
  }

  lemma DefaultKeepsComments(t: Table, scorer: Scorer)
    requires DefaultData(Success(t), scorer).Success?
    ensures var out := DefaultData(Success(t), scorer).value;
            && Comments(out) == Comments(Filter(t.rows, CompleteIn(t.columns)))
            && IsSubsequence(Comments(out), Comments(t.rows))
  {
    var out := DefaultData(Success(t), scorer).value;
    var kept := DropIncomplete(t.columns, t.rows);
    DefaultRows(t, scorer);
    assert Comments(out) == Comments(kept) by {
      forall i | 0 <= i < |out| ensures Comments(out)[i] == Comments(kept)[i] {
        assert IsDefaultRow(scorer, kept[i], out[i]);
      }
    }
    FilterIsSubsequence(t.rows, CompleteIn(t.columns));
    MapSubsequence(kept, t.rows, (r: Row) => r.comment);
  }

  // ---------------------------------------------------------------------------------------
  // When loading fails

  /** A named column has the text dtype when the file has no rows or the column has a cell. */
  lemma TextColumns(rows: seq<Row>)
    ensures ReadDtypes(rows).comment <==> rows == [] || exists i :: 0 <= i < |rows| && rows[i].comment.Some?
    ensures ReadDtypes(rows).sentiment <==> rows == [] || exists i :: 0 <= i < |rows| && rows[i].sentiment.Some?
    ensures ReadDtypes(rows).domain <==> rows == [] || exists i :: 0 <= i < |rows| && rows[i].domain.Some?
  {
    assert forall i :: 0 <= i < |rows| ==> Comments(rows)[i] == rows[i].comment;
    assert forall i :: 0 <= i < |rows| ==> Sentiments(rows)[i] == rows[i].sentiment;
    assert forall i :: 0 <= i < |rows| ==> Domains(rows)[i] == rows[i].domain;
  }

  /** An upload with a `comment` column gives no table exactly when the file has rows and one
      of the columns the upload lower-cases is empty in every row: the supplied label column,
      the comment column when the labels are derived from it, or the supplied domain column. */
  lemma UploadFailsOnEmptyColumn(t: Table, scorer: Scorer)
    requires t.columns.comment
    ensures UploadedData(Some(t), scorer).None?
            <==> && t.rows != []
                 && ((t.columns.sentiment && forall i :: 0 <= i < |t.rows| ==> t.rows[i].sentiment.None?)
                     || (!t.columns.sentiment && forall i :: 0 <= i < |t.rows| ==> t.rows[i].comment.None?)
                     || (t.columns.domain && forall i :: 0 <= i < |t.rows| ==> t.rows[i].domain.None?))
  {
  }

  /** The default loader raises on a label or domain column that is empty in every row, and
      then `dropna` has already removed every row. */
  lemma DefaultFailsOnEmptyColumn(t: Table, scorer: Scorer)
    requires t.columns.sentiment && t.columns.domain
    ensures var r := DefaultData(Success(t), scorer);
            && (r == Failure(NotText("sentiment_label"))
                <==> t.rows != [] && forall i :: 0 <= i < |t.rows| ==> t.rows[i].sentiment.None?)
            && (r == Failure(NotText("domain"))
                <==> && t.rows != []
                     && (exists i :: 0 <= i < |t.rows| && t.rows[i].sentiment.Some?)
                     && (forall i :: 0 <= i < |t.rows| ==> t.rows[i].domain.None?))
            && (r.Failure? && r.error.NotText? ==> DropIncomplete(t.columns, t.rows) == [])
  {
    var r := DefaultData(Success(t), scorer);
    TextColumns(t.rows);
    if r.Failure? && r.error.NotText? {
      FilterNone(t.rows, CompleteIn(t.columns));
    }
  }
}
