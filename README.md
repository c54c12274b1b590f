# E-Consult feedback dashboard: the comment-table pipeline

The dashboard (`app.py`) loads a table of feedback comments, labels each comment positive,
negative or neutral, and shows filtered views of the table. This project models the table
logic under the UI:

- **Loading the table.** The curated default data set and a user upload are both covered.
  The loaders drop incomplete rows, compute a VADER compound score per comment, and derive
  labels from the score when no `sentiment_label` column exists. An absent `domain` becomes
  `"general"`. Labels and domains are normalized (lower-cased and trimmed).
- **The filtered view.** Rows are selected by label, by domain and by a case-insensitive
  keyword.
- **The summary counts** of the view.
- **The per-domain recommendation loop.**
- **Keyword highlighting** in the search results.

A row (`Records.Row`) is a pandas row. Each cell is an `Option`, and `None` stands for a
missing value (NaN). The row has `comment`, `sentiment` (the `sentiment_label` column),
`domain`, `score` (the `vader_score` column) and `extra`, which holds the cells of every other
column, such as `comment_id`. A `Records.Table` records which of the named columns the CSV
file has.

The source changes its DataFrame in place, one column assignment at a time. The class
`Frame.DataFrame` models this. It has one method per assignment or row drop, and each method
says what its column becomes, through a step function such as `WithScores` or
`WithDerivedSentiments`. `Loader.LoadDefaultData` and `Loader.ProcessUploadedData` run these
methods in the source's order. Each is proved equal to a pure specification
(`Loader.DefaultData`, `Loader.UploadedData`). The lemmas about those specifications state
what the source promises. The rest (view filter, counts, highlight test) is expressions in the
source and is modelled as functions. The recommendation loop is a method with a `for` loop.

The VADER scorer is a foreign lexicon-based function. It is a parameter `scorer: string -> real`
of the loaders. File reading is not modelled either. The default loader takes the outcome of
reading its file as a `Result<Table, ReadError>`, which tells a missing file (`NoSuchFile`,
caught) from a file that is not a CSV table (`Malformed`, which the source does not catch).
The upload takes an `Option<Table>`, with `None` for a file that cannot be parsed; its catch-all
handler turns every failure into `None`.

Column types matter because `.str.lower()` raises on a column that is not text. When pandas
reads a file that has rows, a column in which every cell is empty comes back as a float column
of NaN; otherwise a named column is text. `Records.ReadDtypes` records this per named column, and
`Frame.DataFrame` carries it through its steps. Dropping rows keeps a column's type. The derived
label column is text unless the upload has no rows left and its comment column was not text.
`df['domain'] = 'general'` is text. The comment column's type is never changed by the loaders, and the
keyword filter's `.str.contains` raises on it when it is not text, which happens only on a loaded table
with no rows (`View.FilteredView`).

Thresholds: the source compares the score with the double `0.05`. The model uses the exact
value of that double, 0.05000000000000000277555756156289135105907917022705078125. So both the
decimal 0.05 and the double 0.05 fall into the neutral band, as they do in the source.

## Model

| member | source | states |
|---|---|---|
| `Records.ReadDtypes` | app.py:24 | `read_csv` types a named column as text when the file has no rows or some cell of the column is present (the facts are stated by `Loader.TextColumns`) |
| `Loader.TextColumns` | app.py:24 | each named column is read as text iff the file has no rows or some row has that cell |
| `Loader.DefaultData` | app.py:22-33 | a missing file gives `FileNotFound`; an unparsable file gives `Unreadable`; a missing `sentiment_label` or `domain` column gives `MissingColumn`; one of them not read as text gives `NotText`, checked in the source's order; it succeeds iff the file parses, all three named columns exist and the label and domain columns are text |
| `Loader.LoadDefaultData` | app.py:22-33 | building a DataFrame and running dropna, the label and domain normalization and the scoring, in the source's order, yields exactly `DefaultData`, error cases included; on success it also gives whether the table's comment column is text, which is the type `read_csv` gave it |
| `Loader.DefaultRows` | app.py:25-29 | the default table has one row per complete raw row; each row keeps its comment and other cells, its supplied label and domain are only normalized whatever the score, and its score is the scorer's value for its comment |
| `Loader.DefaultKeepsCompleteRowsInOrder` | app.py:25-27 | no surviving row has a missing cell; the comments are those of the complete raw rows, in order, so they are a subsequence of the raw comments; labels and domains are in normal form |
| `Loader.DefaultRowsAreComplete` | app.py:25-29 | every row of the default table has all its cells and a score |
| `Loader.DefaultIsNormalized` | app.py:26-27 | every label and domain of the default table is in normal form |
| `Loader.DefaultKeepsComments` | app.py:25 | the default table's comments are those of the complete raw rows, in order, a subsequence of the raw comments |
| `Loader.DefaultFailsOnEmptyColumn` | app.py:24-27 | with both columns present, the default loader raises on the label column iff the file has rows and every label is empty, and on the domain column iff it has rows, some label and no domain; in both cases `dropna` has already removed every row |
| `Loader.UploadedData` | app.py:36-58 | an upload gives no table iff the file cannot be parsed, has no `comment` column, or a column `.str.lower()` is applied to is not text: the supplied label column, or else the derived one, and the supplied domain column |
| `Loader.ClassifyUpload` | app.py:44-54 | the steps after the comment dropna: scoring, the conditional label and domain columns, then the normalization of both (its rows are described by `Loader.ClassifiedRow`) |
| `Loader.Placed` | app.py:44-52 | scoring, then the label column derived from the scores when absent, then "general" as domain when absent (its rows are described by `Loader.PlacedRow`) |
| `Loader.PlacedRow` | app.py:44-52 | each row of `Placed` keeps its comment and cells, gets its score, the derived label when the column is absent, and "general" when the domain is absent |
| `Loader.ClassifiedRow` | app.py:44-54 | each row of `ClassifyUpload` is its raw row with the score set and the label and domain placed and normalized, the derived label and "general" unchanged by the normalization |
| `Loader.DerivedLabelsAreText` | app.py:47-49 | the derived label column is text iff the comment column was read as text |
| `Loader.UploadFailsOnEmptyColumn` | app.py:38-58 | with a `comment` column, an upload gives no table iff the file has rows and every cell is empty in the supplied label column, in the comment column when labels are derived, or in the supplied domain column |
| `Loader.ProcessUploadedData` | app.py:36-58 | the schema check, dropna on comment, scoring, conditional label derivation, conditional domain default and normalization, run on a DataFrame in the source's order, yield exactly `UploadedData`, the caught failures included; on success it also gives whether the comment column is text, the type `read_csv` gave it |
| `Loader.UploadedRows` | app.py:42-54 | the upload has one row per raw row with a comment. Each row keeps its comment and other cells and gets the scorer's score. Its label is the normalized supplied one, or the derived one when the column is absent. Its domain is the normalized supplied one, or "general" when the column is absent |
| `Loader.UploadKeepsCommentedRowsInOrder` | app.py:42 | no uploaded row lacks a comment; the comments are exactly those of the raw rows that had one, in order, a subsequence of the raw comments |
| `Loader.UploadKeepsEveryCommentedRow` | app.py:42-54 | every raw row that has a comment survives the upload: some uploaded row is its uploaded form (`IsUploadedRow`), so its comment is among the upload's comments |
| `Loader.UploadDerivesLabelsFromScores` | app.py:46-49 | without a label column every row has a score and a label; the label is positive iff the score is above 0.05, negative iff below -0.05, neutral iff within the band, bounds included |
| `Loader.DerivedRowLabel` | app.py:46-49 | an uploaded row of a table without labels carries the label of its score, one of the three |
| `Loader.UploadDerivesSentiments` | app.py:46-49 | without a label column every label is one of the three sentiments |
| `Loader.UploadKeepsSuppliedLabels` | app.py:44-53 | with a label column each label is the supplied one, merely lower-cased and trimmed, and two different scorers give the same labels |
| `Loader.UploadDefaultsDomain` | app.py:51-52 | without a domain column every row's domain is "general" |
| `Loader.UploadIsNormalized` | app.py:53-54 | every label and domain of an upload is lower case with no whitespace at either end |
| `Loader.RenormalizingChangesNothing` | app.py:53-54 | normalizing the labels and domains of a loaded table again leaves it unchanged |
| `Loader.DerivedLabelIsNormal` | app.py:48-53 | a derived label is unchanged by the normalization that follows it |
| `Loader.GeneralIsNormal` | app.py:52-54 | the default domain "general" is unchanged by normalization |
| `Sentiment.DeriveLabel` | app.py:48 | the label is one of the three; positive iff score > 0.05, negative iff score < -0.05, neutral iff -0.05 <= score <= 0.05 |
| `Sentiment.CellLabel` | app.py:47-49 | a present score is labelled by `DeriveLabel`; a missing score (NaN) fails both comparisons and is neutral |
| `Sentiment.DeadBandEdgesAreNeutral` | app.py:48 | 0.05 and -0.05, as decimals and as the doubles, are neutral |
| `Text.Lower` | app.py:26 | `str.lower()` keeps the length and lower-cases each character |
| `Text.Strip` | app.py:26 | `str.strip()` returns a slice of its input with only whitespace outside it, and no whitespace at either end |
| `Text.Normalize` | app.py:26-27 | `.str.lower().str.strip()` yields a lower-case string with no whitespace at either end |
| `Text.NormalizeFixesNormal` | app.py:26-27 | a string already in normal form is left unchanged |
| `Text.NormalizeIdempotent` | app.py:26-27 | normalizing twice equals normalizing once |
| `Text.LowerOfLowerCase` | app.py:26 | lower-casing a lower-case string changes nothing |
| `Text.StripOfStripped` | app.py:26 | stripping a string with no whitespace at either end changes nothing |
| `Text.Contains` | app.py:203 | Python's `p in s`: `p` is a prefix of `s` or of a suffix of it (characterised by `Text.ContainsAt`) |
| `Text.ContainsAt` | app.py:203 | `p in s` holds iff `p` occurs in `s` at some position |
| `Text.ContainsIgnoreCase` | app.py:203 | `p.lower() in s.lower()`, the test of `str.contains(case=False)` and of the highlight guard |
| `Text.ContainsImpliesIgnoreCase` | app.py:203 | an exact-case occurrence is also an occurrence ignoring case |
| `Text.ReplaceAll` | app.py:203 | `str.replace`: each occurrence, scanning left to right without overlaps, is replaced. The lemmas `Text.ReplaceAbsent` and `Text.ReplaceLengthens` state when it changes the text; `Highlight.HighlightOnlyAddsMarkers` that nothing is lost; `Highlight.UnboldRoundTrip` that each replaced occurrence became exactly the replacement, since turning every `**keyword**` back into the keyword restores the text; and `Highlight.EveryOccurrenceIsBold` that no occurrence is left outside bold; which of two overlapping occurrences is replaced (the leftmost) rests on the definition alone |
| `Text.ReplaceAbsent` | app.py:203 | `str.replace` of a pattern that does not occur returns the string unchanged |
| `Text.ReplaceLengthens` | app.py:203 | with a replacement longer than the pattern, `str.replace` never shortens the string, and lengthens it iff the pattern occurs |
| `Highlight.HighlightComment` | app.py:203 | a text cell containing the keyword ignoring case gets every exact-case occurrence in bold; a missing cell or one without the keyword is returned as it is (by `Highlight.HighlightChangesIff`, `Highlight.UnboldHighlightedComment` and `Highlight.HighlightBoldsEveryOccurrence`, within the `*` limits named under Left out) |
| `Highlight.HighlightChangesIff` | app.py:202-204 | a comment is changed iff it holds text containing the keyword in exact case; one without the keyword, ignoring case, is untouched |
| `Highlight.HighlightOnlyAddsMarkers` | app.py:203 | for text and keyword without `*`, removing the `*` markers from the highlighted comment gives back the comment |
| `Highlight.UnboldRoundTrip` | app.py:203 | for text and keyword without `*`, replacing every `**keyword**` of the highlighted text by the keyword gives the text back, so each occurrence was replaced by exactly `**keyword**` and nothing else changed |
| `Highlight.UnboldHighlightedComment` | app.py:202-204 | for a comment and keyword without `*`, un-bolding the highlighted comment gives the comment back, whether the guard took the replace branch or not |
| `Highlight.EveryOccurrenceIsBold` | app.py:203 | for a keyword without `*` and any text, every occurrence of the keyword in `str.replace`'s result is enclosed in `**` on both sides, so no occurrence escapes the replacement |
| `Highlight.HighlightBoldsEveryOccurrence` | app.py:202-204 | for a keyword without `*`, every exact-case occurrence of it in any highlighted comment is in bold |
| `Frame.DropIncomplete` | app.py:25 | `dropna()`: the rows with every cell present, in order (as stated by `Loader.DefaultKeepsCompleteRowsInOrder`) |
| `Frame.DropMissingComment` | app.py:42 | after `dropna(subset=['comment'])` every row has a comment |
| `Frame.WithScores` | app.py:44 | `df['vader_score'] = ...`: one row per input row with its score set to the scorer's value for its comment and every other cell kept (the resulting rows are described by `Loader.PlacedRow` and `Loader.DefaultRows`) |
| `Frame.WithDerivedSentiments` | app.py:47-49 | one row per input row carrying the label of its score, every other cell kept (described by `Loader.PlacedRow`; the thresholds by `Loader.UploadDerivesLabelsFromScores`) |
| `Frame.WithDomain` | app.py:52 | one row per input row with "general" as domain, every other cell kept (described by `Loader.PlacedRow` and `Loader.UploadDefaultsDomain`) |
| `Frame.WithNormalizedSentiments` | app.py:53 | one row per input row with a present label normalized and a missing one kept missing (described by `Loader.ClassifiedRow` and `Loader.DefaultRows`) |
| `Frame.WithNormalizedDomains` | app.py:54 | one row per input row with a present domain normalized and a missing one kept missing (described by `Loader.ClassifiedRow` and `Loader.DefaultRows`) |
| `Frame.WithHighlights` | app.py:202-204 | one row per input row with its comment highlighted, every other cell kept (described by `View.KeywordResultsAreHighlighted`) |
| `Frame.DataFrame.constructor` | app.py:38 | the frame holds the parsed table, its columns, and the column types `read_csv` gives them |
| `Frame.DataFrame.DropNa` | app.py:25 | the rows become the complete rows, in order; the columns and their types are unchanged |
| `Frame.DataFrame.DropNaComment` | app.py:42 | the rows become those with a comment, in order; the columns and their types are unchanged |
| `Frame.DataFrame.AssignScores` | app.py:44 | each row's score becomes the scorer's value for its comment |
| `Frame.DataFrame.DeriveSentiments` | app.py:47-49 | the label column is created from the scores; it is text iff the frame has rows or its comments are text |
| `Frame.DataFrame.FillDomain` | app.py:52 | the domain column is created, of type text, with one value for every row |
| `Frame.DataFrame.NormalizeSentiments` | app.py:53 | on a text label column, every present label is normalized, missing ones stay missing |
| `Frame.DataFrame.NormalizeDomains` | app.py:54 | on a text domain column, every present domain is normalized, missing ones stay missing |
| `Frame.DataFrame.HighlightComments` | app.py:202-204 | every comment is replaced by its highlighted form, in place |
| `View.InSelection` | app.py:97-100 | the label-and-domain mask: the label is among the chosen labels and the domain among the chosen domains, `isin` with missing values matching a chosen missing value |
| `View.MatchesKeyword` | app.py:102 | `str.contains(case=False, na=False)`: the comment is present and contains the keyword ignoring case |
| `View.SelectView` | app.py:97-102 | the label and domain filter, then the keyword filter when a keyword is given (characterised by the lemmas below); the case where the keyword filter raises is `View.FilteredView` |
| `View.FilteredView` | app.py:97-102 | with a keyword, the filter fails (the uncaught `AttributeError` of `.str.contains`) iff the comment column is not text; otherwise it gives `SelectView`'s view |
| `View.SelectViewIsOneMask` | app.py:97-102 | the two-stage filter equals one mask: label selected, domain selected, and (keyword given) comment contains the keyword ignoring case |
| `View.ViewIsExactSelection` | app.py:97-102 | the view is an order-preserving subsequence of the table; every shown row meets all conditions; every row meeting all conditions is shown |
| `View.LabelAndDomainCommute` | app.py:97-100 | filtering by label then domain, or domain then label, gives the combined mask's result |
| `View.KeywordFirstGivesSameView` | app.py:97-102 | applying the keyword condition before the label and domain conditions gives the same view |
| `View.ViewIdempotent` | app.py:97-102 | filtering the view again with the same choices changes nothing |
| `View.SelectionKeepsSentiments` | app.py:97-102 | a view of a table whose labels are all sentiments has only sentiments |
| `View.UploadSearchFails` | app.py:102 | a keyword search of an upload fails iff the file has rows but no comment at all; the uploaded table is then empty, so a search of a non-empty upload never fails |
| `View.DefaultSearchFails` | app.py:102 | a keyword search of the default data fails iff the file has rows but no comment at all; the default table is then empty |
| `View.KeywordResults` | app.py:202-204 | the in-place comment assignment on the view's DataFrame yields `WithHighlights` of the view |
| `View.KeywordResultsAreHighlighted` | app.py:195-204 | in the keyword results every comment is present and is replaced by its exact-case bold form, all other cells unchanged |
| `View.CountLabel` | app.py:110-112 | a label count never exceeds the number of rows (what it counts is stated by `View.CountLabelIsMaskLength`) |
| `View.CountLabelIsMaskLength` | app.py:110-112 | a label count is `len(df[df['sentiment_label'] == l])`, the length of the rows the label mask selects, as in the summary and in the loop at app.py:230-231 |
| `View.CountsPartition` | app.py:109-112 | positive + negative + neutral + other counts equal the total; the other count is zero iff every label is a sentiment |
| `View.Summarize` | app.py:109-112 | the total is the view's size; the three counts sum to at most the total, with equality iff every label is one of the three |
| `View.SummaryCountsMasks` | app.py:110-112 | the positive, negative and neutral counts of the summary are the lengths of the three label-masked views |
| `View.Percentage` | app.py:113-115 | zero when the total is zero; between 0 and 100 when the count is at most the total; 100 when the count is the total |
| `View.PercentagesAddUp` | app.py:113-115 | for a non-empty view with only sentiment labels the three percentages sum to 100 |
| `View.DerivedViewCountsAddUp` | app.py:109-112 | for any view of a successful upload without a label column the three counts sum to the total |
| `Sequences.Unique` | app.py:228 | `unique()` lists each element of the input exactly once and nothing else |
| `Sequences.UniqueFirstAppearance` | app.py:228 | `unique()` lists the values in the order of their first occurrence |
| `Recommendations.Decide` | app.py:232-237 | "address" iff negatives outnumber positives, "leverage" iff positives outnumber negatives, "balance" iff they tie |
| `Recommendations.Advice` | app.py:229-237 | the recommendation for one domain, decided on the negative and positive counts of the view's rows in that domain (computed by `Recommendations.AdviseDomain`) |
| `Recommendations.Recommend` | app.py:228-237 | one recommendation per distinct domain of the view, in `unique()` order, each deciding from that domain's negative and positive counts; no domain twice; every domain of the view covered |
| `Recommendations.AdviseDomain` | app.py:229-237 | one pass of the loop: the action chosen from the domain's rows equals `Advice`, the decision on that domain's negative and positive counts |
| `Recommendations.OnePerDomain` | app.py:228 | recommendations made one per `unique()` domain never repeat a domain and cover every domain of the view |
| `Recommendations.RecommendationsInFirstAppearanceOrder` | app.py:228 | the recommendations follow the first appearance of their domains in the view |
| `Recommendations.MissingDomainIsBalanced` | app.py:229-237 | a missing (NaN) domain matches no row under pandas `==`, so both counts are zero and the decision takes the else branch ("balance") |

## Left out

- Streamlit UI: page set-up, sidebar widgets, `st.stop`, and all messages (`st.error`, `st.warning`, `st.write`, `st.markdown`). They are presentation only.
- Choosing the data source (app.py:62-77) and the multiselect option lists (app.py:81-90). These are widget wiring. The chosen label and domain sets are parameters of `View.SelectView`.
- Plotly charts, the word clouds and the domain-sentiment groupby/melt (app.py:124-192). These are foreign rendering calls.
- The average scores per label, the `head(10)` samples and the display columns (app.py:198-200, 209-222, 243-254). These are display only.
- VADER internals (app.py:12, 29, 44). The scorer is the parameter `scorer`, a total function from text to a real number.
- File I/O: `pd.read_csv` appears as the parsed table input. The CSV report and download button (app.py:256-274) are left out.
- Caching (`@st.cache_data`). It is a memoisation only.
- Number formatting (`.1f`) and float rounding. `View.Percentage` computes in exact reals.
- `Records.ReadDtypes`: cells are modelled as text, so `read_csv`'s inference of numeric or boolean columns from cells that look like numbers is not modelled. The only non-text column the model knows is one whose cells are all empty. The failures that a numeric comment, label or domain column causes in the source (the scorer or `.str` raising) are therefore not modelled. The same holds for a cell of another type inside a text column.
- `Recommendations.Recommend` and `Recommendations.MissingDomainIsBalanced`: the message text, including `domain.capitalize()`, is not modelled; the model stops at the chosen `Action`. For a missing (NaN) domain the source raises on `capitalize()` before the message is appended, and nothing catches it, so the page shows no recommendations at all. The model instead gives that domain `Balance`.
- `Highlight.HighlightComment`: the round trips (`Highlight.HighlightOnlyAddsMarkers`, `Highlight.UnboldRoundTrip`, `Highlight.UnboldHighlightedComment`) are proved only for a comment and a keyword without `*`, and the every-occurrence property (`Highlight.EveryOccurrenceIsBold`, `Highlight.HighlightBoldsEveryOccurrence`) only for a keyword without `*`. The proofs tell the added `**` apart from the keyword's own characters by the `*` alone. When occurrences of the keyword overlap (`aa` in `aaa`), which one is replaced (the leftmost) rests on the definition of `Text.ReplaceAll` alone.
- `View.MatchesKeyword`: the source's `str.contains` reads the keyword as a regular expression. The model reads it as literal text.
- `Text.Lower`: lower-cases ASCII letters only. Python's `str.lower()` also maps other Unicode letters.
- `Frame.DataFrame.DeriveSentiments`, `Frame.DataFrame.FillDomain` and the other `DataFrame` methods track the named columns only. A `vader_score` column already present in an upload would be overwritten by the source. The model does not track such a column.
- Two behaviours of the code worth noting:
  - A supplied label is kept whatever it is, so a table can hold labels outside the three sentiments, or missing labels in an upload. `View.Summarize` accounts for these.
  - A comment made only of whitespace is not dropped. Only missing comments are.
