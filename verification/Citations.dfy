/**
 The sources of one turn: collected from its tool results under consistent identities,
 and listed below an answer that cites none of them.
 */
module Citations {
  import opened Outcomes
  import opened Text

  datatype Citation = Citation(id: string, title: string, url: string)
  /** A tool result as far as citations go. */
  datatype CitedResult = CitedResult(success: bool, citations: seq<Citation>)

  const MAX_TURN_CITATIONS: nat := 128
  const MAX_FINAL_ANSWER_CHARACTERS: nat := 200_000

  /** The citations that successful results offer, in order. */
  function Offered(results: seq<CitedResult>): seq<Citation> {
    if results == [] then []
    else Offered(results[..|results| - 1]) + OfferedBy(results[|results| - 1])
  }

  function OfferedBy(result: CitedResult): seq<Citation> {
    if result.success then result.citations else []
  }

  predicate HasId(citations: seq<Citation>, id: string) {
    exists c :: c in citations && c.id == id
  }

  /** The first citation under each identity. */
  function Firsts(offered: seq<Citation>): seq<Citation> {
    if offered == [] then []
    else
      var earlier, last := Firsts(offered[..|offered| - 1]), offered[|offered| - 1];
      if HasId(earlier, last.id) then earlier else earlier + [last]
  }

  /** Every source was offered, and every offered identity has a source. */
  lemma {:induction false} FirstsCover(offered: seq<Citation>)
    ensures forall c :: c in Firsts(offered) ==> c in offered
    ensures forall c :: c in offered ==> HasId(Firsts(offered), c.id)
  {
    if offered != [] {
      var earlier, last := offered[..|offered| - 1], offered[|offered| - 1];
      FirstsCover(earlier);
      assert offered == earlier + [last];
      assert forall c :: c in Firsts(earlier) ==> c in Firsts(offered);
      assert !HasId(Firsts(earlier), last.id) ==> last in Firsts(offered);
    }
  }

  /** One identity always names one citation, and one URL always has one identity. */
  predicate Consistent(offered: seq<Citation>) {
    forall c, d :: c in offered && d in offered ==>
      (c.id == d.id ==> c == d) && (c.url == d.url ==> c.id == d.id)
  }

  function ExpectedId(index: nat): string {
    "S" + Decimal(index + 1)
  }

  predicate Contiguous(citations: seq<Citation>) {
    forall k :: 0 <= k < |citations| ==> citations[k].id == ExpectedId(k)
  }

  predicate Acceptable(offered: seq<Citation>) {
    Consistent(offered) && |Firsts(offered)| <= MAX_TURN_CITATIONS && Contiguous(Firsts(offered))
  }

  /** The two dictionaries hold exactly the citations offered so far. */
  ghost predicate Indexed(offered: seq<Citation>, byId: map<string, Citation>, byUrl: map<string, Citation>) {
    && (forall c :: c in offered ==> c.id in byId && byId[c.id] == c && c.url in byUrl && byUrl[c.url] == c)
    && (forall id :: id in byId ==> byId[id] in offered && byId[id].id == id)
    && (forall url :: url in byUrl ==> byUrl[url] in offered && byUrl[url].url == url)
  }

  /** What the collecting loop knows after the citations offered so far. */
  ghost predicate Collected(
    offered: seq<Citation>, ordered: seq<Citation>, byId: map<string, Citation>, byUrl: map<string, Citation>)
  {
    && Consistent(offered) && ordered == Firsts(offered) && |ordered| <= MAX_TURN_CITATIONS
    && Indexed(offered, byId, byUrl)
  }

  /** Why a citation is refused. */
  predicate Refusable(offered: seq<Citation>) {
    !Consistent(offered) || |Firsts(offered)| > MAX_TURN_CITATIONS
  }

  /** Citations offered later only add sources behind the earlier ones. */
  lemma {:induction false} FirstsGrow(offered: seq<Citation>, all: seq<Citation>)
    requires offered <= all
    ensures Firsts(offered) <= Firsts(all)
    decreases |all|
  {
    if |offered| < |all| {
      FirstsGrow(offered, all[..|all| - 1]);
    } else {
      assert offered == all;
    }
  }

  /** Citations that are acceptable were acceptable at every earlier point. */
  lemma EarlierIsAcceptable(offered: seq<Citation>, all: seq<Citation>)
    requires offered <= all && Acceptable(all)
    ensures Acceptable(offered) && Firsts(offered) <= Firsts(all)
  {
    FirstsGrow(offered, all);
    assert forall c :: c in offered ==> c in all;
    forall k | 0 <= k < |Firsts(offered)|
      ensures Firsts(offered)[k].id == ExpectedId(k)
    {
      assert Firsts(offered)[k] == Firsts(all)[k];
    }
  }

  lemma FirstsStep(offered: seq<Citation>, c: Citation)
    ensures Firsts(offered + [c]) == if HasId(Firsts(offered), c.id) then Firsts(offered) else Firsts(offered) + [c]
  {
    assert (offered + [c])[..|offered + [c]| - 1] == offered;
  }

  lemma ConsistentStep(offered: seq<Citation>, c: Citation)
    requires Consistent(offered)
    ensures Consistent(offered + [c]) <==>
              forall d :: d in offered ==> (d.id == c.id ==> d == c) && (d.url == c.url ==> d.id == c.id)
  {
    assert forall d :: d in offered + [c] <==> d in offered || d == c;
  }

  /** A known identity must name the same citation; then nothing changes. */
  lemma CollectKnown(
    offered: seq<Citation>, c: Citation, ordered: seq<Citation>,
    byId: map<string, Citation>, byUrl: map<string, Citation>)
    requires Collected(offered, ordered, byId, byUrl) && c.id in byId
    ensures if byId[c.id] == c then Collected(offered + [c], ordered, byId, byUrl) else !Consistent(offered + [c])
  {
    ConsistentStep(offered, c);
    FirstsCover(offered);
    if byId[c.id] == c {
      FirstsStep(offered, c);
      assert forall d :: d in offered + [c] <==> d in offered;
    }
  }

  lemma IndexOne(offered: seq<Citation>, c: Citation, byId: map<string, Citation>, byUrl: map<string, Citation>)
    requires Indexed(offered, byId, byUrl) && c.id !in byId && c.url !in byUrl
    ensures Indexed(offered + [c], byId[c.id := c], byUrl[c.url := c])
  {
    assert forall d :: d in offered + [c] <==> d in offered || d == c;
  }

  /** A new identity needs a new URL; then the citation is the next source. */
  lemma CollectNew(
    offered: seq<Citation>, c: Citation, ordered: seq<Citation>,
    byId: map<string, Citation>, byUrl: map<string, Citation>)
    requires Collected(offered, ordered, byId, byUrl) && c.id !in byId
    ensures c.url in byUrl ==> byUrl[c.url].id != c.id && !Consistent(offered + [c])
    ensures Firsts(offered + [c]) == ordered + [c]
    ensures c.url !in byUrl && |ordered| < MAX_TURN_CITATIONS ==>
              Collected(offered + [c], ordered + [c], byId[c.id := c], byUrl[c.url := c])
  {
    ConsistentStep(offered, c);
    FirstsStep(offered, c);
    FirstsCover(offered);
    assert !HasId(Firsts(offered), c.id);
    if c.url in byUrl {
      assert byUrl[c.url] in offered;
    } else {
      IndexOne(offered, c, byId, byUrl);
    }
  }

  /** The inner loop's body: take one citation, or refuse it. */
  method TakeCitation(
    ghost offered: seq<Citation>, c: Citation, ordered: seq<Citation>,
    byId: map<string, Citation>, byUrl: map<string, Citation>)
    returns (refused: bool, ordered': seq<Citation>, byId': map<string, Citation>, byUrl': map<string, Citation>)
    requires Collected(offered, ordered, byId, byUrl)
    ensures !refused ==> Collected(offered + [c], ordered', byId', byUrl')
    ensures refused ==> Refusable(offered + [c])
  {
    refused, ordered', byId', byUrl' := false, ordered, byId, byUrl;
    if c.id !in byId {
      CollectNew(offered, c, ordered, byId, byUrl);
      if (c.url in byUrl && byUrl[c.url].id != c.id) || |ordered| >= MAX_TURN_CITATIONS {
        refused := true;
        return;
      }
      byId' := byId[c.id := c];
      byUrl' := byUrl[c.url := c];
      ordered' := ordered + [c];
    } else {
      CollectKnown(offered, c, ordered, byId, byUrl);
      refused := byId[c.id] != c;
    }
  }

  /** The inner loop: take the citations of one result in order, up to the first that is refused. */
  method TakeCitations(
    ghost offered: seq<Citation>, citations: seq<Citation>, ordered: seq<Citation>,
    byId: map<string, Citation>, byUrl: map<string, Citation>)
    returns (
      refused: bool, ordered': seq<Citation>, byId': map<string, Citation>, byUrl': map<string, Citation>,
      ghost taken: seq<Citation>)
    requires Collected(offered, ordered, byId, byUrl)
    ensures taken <= offered + citations
    ensures if refused then Refusable(taken)
            else taken == offered + citations && Collected(taken, ordered', byId', byUrl')
  {
    hide Collected, Refusable, Firsts;
    refused, ordered', byId', byUrl', taken := false, ordered, byId, byUrl, offered;
    var i := 0;
    while i < |citations|
      invariant i <= |citations| && taken == (offered + citations)[..|offered| + i]
      invariant Collected(taken, ordered', byId', byUrl') && !refused
    {
      refused, ordered', byId', byUrl' := TakeCitation(taken, citations[i], ordered', byId', byUrl');
      i := i + 1;
      taken := taken + [citations[i - 1]];
      assert taken == (offered + citations)[..|offered| + i];
      if refused {
        return;
      }
    }
  }

  lemma WhenAcceptable(
    offered: seq<Citation>, ordered: seq<Citation>, byId: map<string, Citation>, byUrl: map<string, Citation>)
    requires Collected(offered, ordered, byId, byUrl)
    ensures ordered == Firsts(offered) && (Acceptable(offered) <==> Contiguous(ordered))
  {
  }

  lemma OfferedNext(results: seq<CitedResult>, at: nat)
    requires at < |results|
    ensures Offered(results[..at + 1])
         == if results[at].success then Offered(results[..at]) + results[at].citations else Offered(results[..at])
  {
    assert results[..at + 1][..at] == results[..at];
  }

  lemma {:induction false} OfferedGrows(results: seq<CitedResult>, at: nat)
    requires at <= |results|
    ensures Offered(results[..at]) <= Offered(results)
    decreases |results|
  {
    if at == |results| {
      assert results[..at] == results;
    } else {
      OfferedGrows(results[..|results| - 1], at);
      assert results[..|results| - 1][..at] == results[..at];
    }
  }

  /** A citation refused anywhere makes the whole turn unacceptable. */
  lemma RefusedHere(results: seq<CitedResult>, at: nat, taken: seq<Citation>)
    requires at <= |results| && taken <= Offered(results[..at]) && Refusable(taken)
    ensures !Acceptable(Offered(results))
  {
    OfferedGrows(results, at);
    if Acceptable(Offered(results)) {
      EarlierIsAcceptable(taken, Offered(results));
    }
  }

  /** The sources are S1, S2 and so on. */
  predicate Numbered(citations: seq<Citation>) {
    forall k :: 0 <= k < |citations| ==> citations[k].id == "S" + Decimal(k + 1)
  }

  lemma ContiguousIsNumbered(citations: seq<Citation>)
    requires Contiguous(citations)
    ensures Numbered(citations)
  {
    hide Decimal;
  }

  /** The ordered sources of a turn, or an error when identities conflict, run over or leave a gap. */
  method CollectToolCitations(results: seq<CitedResult>) returns (collected: Option<seq<Citation>>)
    ensures collected == if Acceptable(Offered(results)) then Some(Firsts(Offered(results))) else None
    ensures collected.Some? ==> Numbered(collected.value)
  {
    var ordered: seq<Citation> := [];
    var byId: map<string, Citation> := map[];
    var byUrl: map<string, Citation> := map[];
    ghost var offered: seq<Citation> := [];
    assert Collected(offered, ordered, byId, byUrl) && offered == Offered(results[..0]);
    hide Collected, Refusable, Acceptable, Contiguous, Firsts, Offered, Numbered;
    var r := 0;
    while r < |results|
      invariant r <= |results| && offered == Offered(results[..r])
      invariant Collected(offered, ordered, byId, byUrl)
    {
      OfferedNext(results, r);
      if results[r].success {
        var refused;
        refused, ordered, byId, byUrl, offered :=
          TakeCitations(offered, results[r].citations, ordered, byId, byUrl);
        if refused {
          RefusedHere(results, r + 1, offered);
          return None;
        }
      }
      r := r + 1;
    }
    assert results[..r] == results;
    WhenAcceptable(offered, ordered, byId, byUrl);
    if !Contiguous(ordered) {
      return None;
    }
    ContiguousIsNumbered(ordered);
    return Some(ordered);
  }

  /**
   In an accepted turn the sources are the offered citations without repeats: every
   offered citation is listed, identities and URLs determine each other, and the k-th
   source is Sk.
   */
  lemma {:induction false} SourcesAreIdentified(offered: seq<Citation>)
    requires Consistent(offered)
    ensures forall c :: c in offered <==> c in Firsts(offered)
    ensures forall i, j :: 0 <= i < j < |Firsts(offered)| ==>
              Firsts(offered)[i].id != Firsts(offered)[j].id && Firsts(offered)[i].url != Firsts(offered)[j].url
  {
    if offered != [] {
      var earlier, last := offered[..|offered| - 1], offered[|offered| - 1];
      assert offered == earlier + [last];
      assert Consistent(earlier) by {
        assert forall c :: c in earlier ==> c in offered;
      }
      SourcesAreIdentified(earlier);
      FirstsCover(earlier);
      if !HasId(Firsts(earlier), last.id) {
        forall i | 0 <= i < |Firsts(earlier)|
          ensures Firsts(earlier)[i].id != last.id && Firsts(earlier)[i].url != last.url
        {
          assert Firsts(earlier)[i] in Firsts(earlier);
          assert Firsts(earlier)[i] in offered && last in offered;
        }
      }
    }
  }

  /** A turn whose results are accepted accepted every earlier list of results, with a prefix of its sources. */
  lemma EarlierResultsAreAccepted(results: seq<CitedResult>, at: nat)
    requires at <= |results| && Acceptable(Offered(results))
    ensures Acceptable(Offered(results[..at]))
    ensures Firsts(Offered(results[..at])) <= Firsts(Offered(results))
  {
    OfferedGrows(results, at);
    EarlierIsAcceptable(Offered(results[..at]), Offered(results));
  }

  /** Sources numbered S1, S2 and so on under different URLs are accepted as they are, if there are not too many. */
  lemma {:induction false} NumberedSourcesAreAccepted(citations: seq<Citation>)
    requires |citations| <= 128 && Numbered(citations)
    requires forall i, j :: 0 <= i < j < |citations| ==> citations[i].url != citations[j].url
    ensures Acceptable(citations) && Firsts(citations) == citations
    ensures Offered([CitedResult(true, citations)]) == citations
  {
    NumberedIdsDiffer(citations);
    DifferentIdsAreFirsts(citations);
    assert Consistent(citations) by {
      hide Decimal;
    }
    assert Contiguous(citations) by {
      hide Decimal;
    }
    hide Contiguous, Numbered, Consistent, DifferentIds;
    assert [CitedResult(true, citations)][..0] == [];
  }

  lemma NumberedIdsDiffer(citations: seq<Citation>)
    requires Numbered(citations)
    ensures DifferentIds(citations)
  {
    hide Decimal;
    forall i, j | 0 <= i < j < |citations|
      ensures citations[i].id != citations[j].id
    {
      if citations[i].id == citations[j].id {
        assert citations[i].id[1..] == Decimal(i + 1) && citations[j].id[1..] == Decimal(j + 1);
        DecimalInjective(i + 1, j + 1);
      }
    }
  }

  predicate DifferentIds(citations: seq<Citation>) {
    forall i, j :: 0 <= i < j < |citations| ==> citations[i].id != citations[j].id
  }

  lemma {:induction false} DifferentIdsAreFirsts(citations: seq<Citation>)
    requires DifferentIds(citations)
    ensures Firsts(citations) == citations
  {
    if citations != [] {
      var earlier, last := citations[..|citations| - 1], citations[|citations| - 1];
      assert citations == earlier + [last];
      LastIdIsNew(citations);
      hide DifferentIds, HasId;
      DifferentIdsAreFirsts(earlier);
    }
  }

  lemma LastIdIsNew(citations: seq<Citation>)
    requires citations != [] && DifferentIds(citations)
    ensures var earlier := citations[..|citations| - 1];
            DifferentIds(earlier) && !HasId(earlier, citations[|citations| - 1].id)
  {
  }

  /** A single source is accepted exactly if it is S1. */
  lemma FirstSourceIsS1(c: Citation)
    ensures Acceptable(Offered([CitedResult(true, [c])])) <==> c.id == "S1"
  {
    assert [CitedResult(true, [c])][..0] == [] && [c][..0] == [];
    assert Offered([CitedResult(true, [c])]) == [c];
    assert Firsts([c]) == [c];
    assert Decimal(1) == "1" && "S" + "1" == "S1";
  }
}
