/** The actionable recommendations: one per distinct domain of the view. */
module Recommendations {
  import opened Wrappers
  import opened Sequences
  import opened Records
  import opened Sentiment
  import opened View

  /** Address negative feedback, leverage positive feedback, or balance mixed feedback. */
  datatype Action = Address | Leverage | Balance

  datatype Recommendation = Recommendation(domain: Option<string>, action: Action)

  /** The outcome for a domain with the given negative and positive counts. */
  function Decide(negatives: nat, positives: nat): (a: Action)
    ensures a == Address <==> negatives > positives
    ensures a == Leverage <==> positives > negatives
    ensures a == Balance <==> negatives == positives
  {
    if negatives > positives then Address
    else if positives > negatives then Leverage
    else Balance
  }

  /** The mask `df['domain'] == d`; like pandas, a missing value is equal to nothing, not even
      to another missing value. */
  function InDomain(d: Option<string>): Row -> bool {
    (r: Row) => r.domain.Some? && r.domain == d
  }

  /** The recommendation for the domain `d` of the view. */
  function Advice(view: seq<Row>, d: Option<string>): Recommendation {
    var rows := Filter(view, InDomain(d));
    Recommendation(d, Decide(CountLabel(rows, Negative), CountLabel(rows, Positive)))
  }

  /** The recommendation loop: for every distinct domain of the view, in the order in which the
      domains first occur, compare its negative and positive counts. */
  method Recommend(view: seq<Row>) returns (recs: seq<Recommendation>)
    ensures |recs| == |Unique(Domains(view))|
    ensures forall i :: 0 <= i < |recs| ==> recs[i] == Advice(view, Unique(Domains(view))[i])
    ensures forall i, j :: 0 <= i < j < |recs| ==> recs[i].domain != recs[j].domain
    ensures forall k :: 0 <= k < |view| ==> exists i :: 0 <= i < |recs| && recs[i].domain == view[k].domain
  {
    var domains := Unique(Domains(view));
    recs := [];
    for i := 0 to |domains|
      invariant |recs| == i
      invariant forall k :: 0 <= k < i ==> recs[k] == Advice(view, domains[k])
    {
      var rec := AdviseDomain(view, domains[i]);
      recs := recs + [rec];
    }
    OnePerDomain(view, recs);
  }

  /** One pass of the loop body: select the rows of the domain, count their negative and
      positive labels and choose the action. */
  method AdviseDomain(view: seq<Row>, d: Option<string>) returns (rec: Recommendation)
    ensures rec == Advice(view, d)
  {
    var inDomain := Filter(view, InDomain(d));
    var negatives := CountLabel(inDomain, Negative);
    var positives := CountLabel(inDomain, Positive);
    var action: Action;
    if negatives > positives {
      action := Address;
    } else if positives > negatives {
      action := Leverage;
    } else {
      action := Balance;
    }
    rec := Recommendation(d, action);
  }

  /** Recommendations made one per `unique()` domain name each domain exactly once and cover
      every domain of the view. */
  lemma OnePerDomain(view: seq<Row>, recs: seq<Recommendation>)
    requires |recs| == |Unique(Domains(view))|
    requires forall i :: 0 <= i < |recs| ==> recs[i] == Advice(view, Unique(Domains(view))[i])
    ensures forall i, j :: 0 <= i < j < |recs| ==> recs[i].domain != recs[j].domain
    ensures forall k :: 0 <= k < |view| ==> exists i :: 0 <= i < |recs| && recs[i].domain == view[k].domain
  {
    var domains := Unique(Domains(view));
    forall k | 0 <= k < |view|
      ensures exists i :: 0 <= i < |recs| && recs[i].domain == view[k].domain
    {
      assert Domains(view)[k] in domains;
      var i :| 0 <= i < |domains| && domains[i] == Domains(view)[k];
      assert recs[i].domain == view[k].domain;
    }
  }

  /** The recommendations follow the order in which the domains first appear in the view. */
  lemma RecommendationsInFirstAppearanceOrder(view: seq<Row>, i: nat, j: nat)
    requires i < j < |Unique(Domains(view))|
    ensures FirstIndex(Domains(view), Advice(view, Unique(Domains(view))[i]).domain)
            < FirstIndex(Domains(view), Advice(view, Unique(Domains(view))[j]).domain)
  {
    UniqueFirstAppearance(Domains(view), i, j);
  }

  /** A missing domain matches no row, so its counts are both zero and the decision takes the
      else branch, `Balance`. */
  lemma MissingDomainIsBalanced(view: seq<Row>)
    ensures Advice(view, None).action == Balance
  {
    FilterNone(view, InDomain(None));
  }
}
