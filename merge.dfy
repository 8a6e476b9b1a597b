/**
 * `mergeBuildingData` (app/lib/ai/mergeBuildingData.ts): the fragments parsed
 * from each document kind are merged into one building record with at most
 * three keys, `OCInformation`, `InsuranceInformation` and `Lots`.
 */
module Merge {
  import opened Wrappers
  import opened Schemas

  // ---------------------------------------------------------------------------
  // Input and output

  /** `ParsedBundleArrays`: every array may be missing, and a missing one counts as `[]`. */
  datatype Bundle = Bundle(
    planOfSubDivision: Option<seq<PlanOfSubdivision>>,
    letterOfAcquisition: Option<seq<LetterOfAcquisition>>,
    managingAuthorityForm: Option<seq<ManagingAuthorityForm>>,
    insuranceInvoice: Option<seq<InsuranceDoc>>,
    insuranceCoC: Option<seq<InsuranceDoc>>,
    insuranceValuationReport: Option<seq<InsuranceDoc>>,
    ownerlist: Option<seq<OwnerListDoc>>)

  datatype MergedAddress = MergedAddress(State: string, Street: string, City: string, postCode: string)

  datatype MergedOC = MergedOC(PSNumber: string, Address: MergedAddress, NumberOfLots: string, TotalLiability: string)

  /** One entry of the merged `Lots`: each carries exactly one of the three keys. */
  datatype MergedLot =
    | LotEntry(LotInformation: LotInformation)
    | OwnerEntry(OwnerInformation: Option<OwnerInformation>)
    | AgentEntry(AgentInformation: AgentInformation)

  /** The merged record; an absent key is `None`. */
  datatype Merged = Merged(
    OCInformation: Option<MergedOC>,
    InsuranceInformation: Option<map<string, string>>,
    Lots: Option<seq<MergedLot>>)

  function Plans(b: Bundle): seq<PlanOfSubdivision> { b.planOfSubDivision.GetOr([]) }
  function Letters(b: Bundle): seq<LetterOfAcquisition> { b.letterOfAcquisition.GetOr([]) }
  function Forms(b: Bundle): seq<ManagingAuthorityForm> { b.managingAuthorityForm.GetOr([]) }
  function Invoices(b: Bundle): seq<InsuranceDoc> { b.insuranceInvoice.GetOr([]) }
  function CoCs(b: Bundle): seq<InsuranceDoc> { b.insuranceCoC.GetOr([]) }
  function Valuations(b: Bundle): seq<InsuranceDoc> { b.insuranceValuationReport.GetOr([]) }
  function OwnerLists(b: Bundle): seq<OwnerListDoc> { b.ownerlist.GetOr([]) }

  // ---------------------------------------------------------------------------
  // OCInformation

  /** The plan's OC information with every missing value read as "". */
  function OCFrom(oc: PlanOCInformation): MergedOC {
    var a := oc.Address.GetOr(OCAddress(None, None, None, None));
    MergedOC(oc.PSNumber.GetOr(""),
             MergedAddress(a.State.GetOr(""), a.Street.GetOr(""), a.City.GetOr(""), a.postCode.GetOr("")),
             oc.NumberOfLots.GetOr(""),
             oc.TotalLiability.GetOr(""))
  }

  // ---------------------------------------------------------------------------
  // InsuranceInformation

  /** The nine keys the insurance record starts with. */
  const InsuranceKeys: set<string> := {
    "PolicyNumber", "InsuranceProvider", "PolicyType", "StartDate", "EndDate",
    "TotalPayable", "TotalInsurableValue", "Commission", "InspectionDate"
  }

  /** The starting insurance record: every one of the nine keys set to "". */
  function BlankInsurance(): (m: map<string, string>)
    ensures m.Keys == InsuranceKeys && forall x <- m.Keys :: m[x] == ""
  {
    map x <- InsuranceKeys :: ""
  }

  /** The `InsuranceInformation` objects of a list of documents, in order. */
  function InfosOf(docs: seq<InsuranceDoc>): (infos: seq<map<string, string>>)
    ensures |infos| == |docs| && forall i :: 0 <= i < |docs| ==> infos[i] == docs[i].InsuranceInformation
  {
    seq(|docs|, i requires 0 <= i < |docs| => docs[i].InsuranceInformation)
  }

  /** All invoices, then all certificates of currency, then all valuation reports. */
  function Infos(b: Bundle): seq<map<string, string>> {
    InfosOf(Invoices(b)) + InfosOf(CoCs(b)) + InfosOf(Valuations(b))
  }

  /** `{ ...m, ...info }` for each info in turn. */
  function Overlay(m: map<string, string>, infos: seq<map<string, string>>): map<string, string> {
    if |infos| == 0 then m
    else Overlay(m, infos[..|infos| - 1]) + infos[|infos| - 1]
  }

  /** The last position in `infos` whose object has the key `x`. */
  function LastWith(infos: seq<map<string, string>>, x: string): (r: Option<nat>)
    ensures r.Some? ==> r.value < |infos| && x in infos[r.value] &&
                        forall j :: r.value < j < |infos| ==> x !in infos[j]
    ensures r.None? ==> forall j :: 0 <= j < |infos| ==> x !in infos[j]
  {
    if |infos| == 0 then None
    else if x in infos[|infos| - 1] then Some(|infos| - 1)
    else LastWith(infos[..|infos| - 1], x)
  }

  /**
   * After the overlay a key is present when the start or some info has it; its
   * value is the one of the last info that has it, even "", and otherwise the
   * start's (`OverlayKeys`, `OverlayValues`).
   */
  lemma {:induction false} OverlayKeys(m: map<string, string>, infos: seq<map<string, string>>)
    ensures forall x :: x in Overlay(m, infos) <==> x in m || exists i :: 0 <= i < |infos| && x in infos[i]
  {
    if |infos| > 0 {
      var pre := infos[..|infos| - 1];
      OverlayKeys(m, pre);
      assert forall i :: 0 <= i < |pre| ==> pre[i] == infos[i];
    }
  }

  lemma {:induction false} OverlayValues(m: map<string, string>, infos: seq<map<string, string>>)
    ensures forall x <- Overlay(m, infos) ::
      match LastWith(infos, x)
      case Some(i) => Overlay(m, infos)[x] == infos[i][x]
      case None => x in m && Overlay(m, infos)[x] == m[x]
  {
    if |infos| > 0 {
      var pre := infos[..|infos| - 1];
      OverlayValues(m, pre);
      OverlayKeys(m, pre);
    }
  }

  /** Overlaying two lists one after the other is overlaying their concatenation. */
  lemma {:induction false} OverlayAppend(m: map<string, string>, a: seq<map<string, string>>, b: seq<map<string, string>>)
    ensures Overlay(Overlay(m, a), b) == Overlay(m, a + b)
  {
    if |b| > 0 {
      OverlayAppend(m, a, b[..|b| - 1]);
      assert (a + b)[..|a + b| - 1] == a + b[..|b| - 1];
      assert (a + b)[|a + b| - 1] == b[|b| - 1];
    } else {
      assert a + b == a;
    }
  }

  /** The overlay loops, with one `InsuranceInformation` per document. */
  method OverlayDocs(m: map<string, string>, docs: seq<InsuranceDoc>) returns (r: map<string, string>)
    ensures r == Overlay(m, InfosOf(docs))
  {
    r := m;
    var i := 0;
    while i < |docs|
      invariant 0 <= i <= |docs|
      invariant r == Overlay(m, InfosOf(docs[..i]))
    {
      assert InfosOf(docs[..i + 1])[..i] == InfosOf(docs[..i]);
      r := r + docs[i].InsuranceInformation;
      i := i + 1;
    }
    assert docs[..i] == docs;
  }

  // ---------------------------------------------------------------------------
  // Lots

  function PlanLotsOf(p: PlanOfSubdivision): Option<seq<PlanLot>> { p.Lots }
  function LetterLotsOf(l: LetterOfAcquisition): Option<seq<OwnerLot>> { l.Lots }
  function OwnerListLotsOf(o: OwnerListDoc): Option<seq<OwnerLot>> { o.Lots }
  function FormLotsOf(f: ManagingAuthorityForm): Option<seq<AgentLot>> { f.Lots }

  /** `{ LotInformation: l.LotInformation }` */
  function PlanEntry(l: PlanLot): MergedLot { LotEntry(l.LotInformation) }

  /** `{ OwnerInformation: l.OwnerInformation }` */
  function OwnerEntryOf(l: OwnerLot): MergedLot { OwnerEntry(l.OwnerInformation) }

  /** `{ AgentInformation: l.AgentInformation }` */
  function AgentEntryOf(l: AgentLot): MergedLot { AgentEntry(l.AgentInformation) }

  /** The entries of one document's lots, in order. */
  function LotEntries<T>(ls: seq<T>, entry: T -> MergedLot): (r: seq<MergedLot>)
    ensures |r| == |ls| && forall j :: 0 <= j < |ls| ==> r[j] == entry(ls[j])
  {
    seq(|ls|, j requires 0 <= j < |ls| => entry(ls[j]))
  }

  /** `docs.forEach(d => d.Lots?.forEach(l => lots.push(entry(l))))`, as the entries pushed. */
  function Entries<D, T>(docs: seq<D>, lotsOf: D -> Option<seq<T>>, entry: T -> MergedLot): seq<MergedLot> {
    if |docs| == 0 then []
    else Entries(docs[..|docs| - 1], lotsOf, entry) + LotEntries(lotsOf(docs[|docs| - 1]).GetOr([]), entry)
  }

  /** The number of lots in the documents; a document without `Lots` has none. */
  function LotCount<D, T>(docs: seq<D>, lotsOf: D -> Option<seq<T>>): nat {
    if |docs| == 0 then 0
    else LotCount(docs[..|docs| - 1], lotsOf) + |lotsOf(docs[|docs| - 1]).GetOr([])|
  }

  /**
   * The entries of the documents are the entries of the first `k` documents
   * followed by those of the rest: nothing is reordered, merged or dropped.
   */
  lemma {:induction false} EntriesSplit<D, T>(docs: seq<D>, k: nat, lotsOf: D -> Option<seq<T>>, entry: T -> MergedLot)
    requires k <= |docs|
    ensures Entries(docs, lotsOf, entry) == Entries(docs[..k], lotsOf, entry) + Entries(docs[k..], lotsOf, entry)
    decreases |docs|
  {
    if k < |docs| {
      var pre := docs[..|docs| - 1];
      var tail := docs[k..];
      var last := LotEntries(lotsOf(docs[|docs| - 1]).GetOr([]), entry);
      EntriesSplit(pre, k, lotsOf, entry);
      assert pre[..k] == docs[..k];
      assert tail[..|tail| - 1] == pre[k..] && tail[|tail| - 1] == docs[|docs| - 1];
      assert Entries(tail, lotsOf, entry) == Entries(pre[k..], lotsOf, entry) + last;
    } else {
      assert docs[..k] == docs;
      assert docs[k..] == [];
    }
  }

  /** The entries are as many as the lots. */
  lemma {:induction false} EntriesLength<D, T>(docs: seq<D>, lotsOf: D -> Option<seq<T>>, entry: T -> MergedLot)
    ensures |Entries(docs, lotsOf, entry)| == LotCount(docs, lotsOf)
  {
    if |docs| > 0 {
      EntriesLength(docs[..|docs| - 1], lotsOf, entry);
    }
  }

  /** The `j`-th lot of document `i` gives entry number `LotCount(docs[..i]) + j`. */
  lemma {:induction false} EntriesAt<D, T>(docs: seq<D>, lotsOf: D -> Option<seq<T>>, entry: T -> MergedLot, i: nat, j: nat)
    requires i < |docs| && j < |lotsOf(docs[i]).GetOr([])|
    ensures LotCount(docs[..i], lotsOf) + j < |Entries(docs, lotsOf, entry)|
    ensures Entries(docs, lotsOf, entry)[LotCount(docs[..i], lotsOf) + j] == entry(lotsOf(docs[i]).GetOr([])[j])
  {
    var pre := docs[..|docs| - 1];
    EntriesLength(pre, lotsOf, entry);
    if i < |pre| {
      assert docs[..i] == pre[..i] && docs[i] == pre[i];
      EntriesAt(pre, lotsOf, entry, i, j);
    } else {
      assert docs[..i] == pre;
    }
  }

  /** Every entry is made by `entry`, so it has what every such entry has. */
  lemma {:induction false} EntriesKind<D, T>(docs: seq<D>, lotsOf: D -> Option<seq<T>>, entry: T -> MergedLot,
                                             kind: MergedLot -> bool)
    requires forall t :: kind(entry(t))
    ensures forall e <- Entries(docs, lotsOf, entry) :: kind(e)
  {
    if |docs| > 0 {
      EntriesKind(docs[..|docs| - 1], lotsOf, entry, kind);
      var ls := lotsOf(docs[|docs| - 1]).GetOr([]);
      assert forall j :: 0 <= j < |ls| ==> kind(LotEntries(ls, entry)[j]);
    }
  }

  function IsLotEntry(e: MergedLot): bool { e.LotEntry? }
  function IsOwnerEntry(e: MergedLot): bool { e.OwnerEntry? }
  function IsAgentEntry(e: MergedLot): bool { e.AgentEntry? }

  /** Plan lots, then letter-of-acquisition owners, then owner-list owners, then agents. */
  function AllEntries(b: Bundle): seq<MergedLot> {
    Entries(Plans(b), PlanLotsOf, PlanEntry) +
    Entries(Letters(b), LetterLotsOf, OwnerEntryOf) +
    Entries(OwnerLists(b), OwnerListLotsOf, OwnerEntryOf) +
    Entries(Forms(b), FormLotsOf, AgentEntryOf)
  }

  /** Appends the entries of the documents' lots to `lots`, one push at a time. */
  method PushEntries<D, T>(lots: seq<MergedLot>, docs: seq<D>, lotsOf: D -> Option<seq<T>>, entry: T -> MergedLot)
    returns (r: seq<MergedLot>)
    ensures r == lots + Entries(docs, lotsOf, entry)
  {
    r := lots;
    var i := 0;
    while i < |docs|
      invariant 0 <= i <= |docs|
      invariant r == lots + Entries(docs[..i], lotsOf, entry)
    {
      assert docs[..i + 1][..i] == docs[..i];
      var ls := lotsOf(docs[i]).GetOr([]);
      ghost var start := r;
      var j := 0;
      while j < |ls|
        invariant 0 <= j <= |ls|
        invariant r == start + LotEntries(ls[..j], entry)
      {
        assert LotEntries(ls[..j + 1], entry) == LotEntries(ls[..j], entry) + [entry(ls[j])];
        r := r + [entry(ls[j])];
        j := j + 1;
      }
      assert ls[..j] == ls;
      i := i + 1;
    }
    assert docs[..i] == docs;
  }

  // ---------------------------------------------------------------------------
  // mergeBuildingData

  /** The merged record. */
  function Merge(b: Bundle): (m: Merged)
    ensures m.OCInformation.Some? <==> |Plans(b)| > 0
    ensures m.InsuranceInformation.Some? <==> |Infos(b)| > 0
    ensures m.Lots.Some? ==> |m.Lots.value| > 0
  {
    var plans := Plans(b);
    var infos := Infos(b);
    var lots := AllEntries(b);
    Merged(if |plans| > 0 then Some(OCFrom(plans[0].OCInformation)) else None,
           if |infos| > 0 then Some(Overlay(BlankInsurance(), infos)) else None,
           if |lots| > 0 then Some(lots) else None)
  }

  method MergeBuildingData(b: Bundle) returns (merged: Merged)
    ensures merged == Merge(b)
  {
    var plans := b.planOfSubDivision.GetOr([]);
    var letters := b.letterOfAcquisition.GetOr([]);
    var forms := b.managingAuthorityForm.GetOr([]);
    var invoices := b.insuranceInvoice.GetOr([]);
    var cocs := b.insuranceCoC.GetOr([]);
    var valuations := b.insuranceValuationReport.GetOr([]);
    var ownerlists := b.ownerlist.GetOr([]);
    merged := Merged(None, None, None);

    if |plans| > 0 {
      merged := merged.(OCInformation := Some(OCFrom(plans[0].OCInformation)));
    }

    if |invoices| > 0 || |cocs| > 0 || |valuations| > 0 {
      var info := BlankInsurance();
      info := OverlayDocs(info, invoices);
      info := OverlayDocs(info, cocs);
      OverlayAppend(BlankInsurance(), InfosOf(invoices), InfosOf(cocs));
      info := OverlayDocs(info, valuations);
      OverlayAppend(BlankInsurance(), InfosOf(invoices) + InfosOf(cocs), InfosOf(valuations));
      merged := merged.(InsuranceInformation := Some(info));
    } else {
      assert Infos(b) == [];
    }

    var lots: seq<MergedLot> := [];
    lots := PushEntries(lots, plans, PlanLotsOf, PlanEntry);
    lots := PushEntries(lots, letters, LetterLotsOf, OwnerEntryOf);
    lots := PushEntries(lots, ownerlists, OwnerListLotsOf, OwnerEntryOf);
    lots := PushEntries(lots, forms, FormLotsOf, AgentEntryOf);
    assert lots == AllEntries(b);
    if |lots| > 0 {
      merged := merged.(Lots := Some(lots));
    }
  }

  // ---------------------------------------------------------------------------
  // What the merge promises

  /** A bundle with no arrays at all merges to a record with no keys. */
  lemma MergeNothing()
    ensures Merge(Bundle(None, None, None, None, None, None, None)) == Merged(None, None, None)
  {
  }

  /**
   * `OCInformation` is present exactly when there is a plan, and is built from
   * the first plan alone, each missing value read as "".
   */
  lemma MergeOCSpec(b: Bundle)
    ensures var r := Merge(b).OCInformation;
      (r.Some? <==> |Plans(b)| > 0) &&
      (r.Some? ==>
        var oc := Plans(b)[0].OCInformation;
        var a := oc.Address;
        r.value.PSNumber == (if oc.PSNumber.Some? then oc.PSNumber.value else "") &&
        r.value.NumberOfLots == (if oc.NumberOfLots.Some? then oc.NumberOfLots.value else "") &&
        r.value.TotalLiability == (if oc.TotalLiability.Some? then oc.TotalLiability.value else "") &&
        r.value.Address.State == (if a.Some? && a.value.State.Some? then a.value.State.value else "") &&
        r.value.Address.Street == (if a.Some? && a.value.Street.Some? then a.value.Street.value else "") &&
        r.value.Address.City == (if a.Some? && a.value.City.Some? then a.value.City.value else "") &&
        r.value.Address.postCode == (if a.Some? && a.value.postCode.Some? then a.value.postCode.value else ""))
  {
  }

  /** Plans after the first one never reach `OCInformation`. */
  lemma MergeOCFromFirstPlanOnly(b: Bundle, c: Bundle)
    requires |Plans(b)| > 0 && |Plans(c)| > 0 && Plans(b)[0] == Plans(c)[0]
    ensures Merge(b).OCInformation == Merge(c).OCInformation
  {
  }

  /**
   * `InsuranceInformation` is present exactly when there is an insurance
   * document. Its keys are the nine starting keys and every key of any info.
   * Each key holds the value of the last info that has it, in the order
   * invoices, certificates of currency, valuation reports, even when that
   * value is "", and a starting key that no info has holds "".
   */
  lemma MergeInsuranceSpec(b: Bundle)
    ensures var r := Merge(b).InsuranceInformation;
      var infos := Infos(b);
      (r.Some? <==> |Invoices(b)| > 0 || |CoCs(b)| > 0 || |Valuations(b)| > 0) &&
      (r.Some? ==>
        (forall x :: x in r.value <==> x in InsuranceKeys || exists i :: 0 <= i < |infos| && x in infos[i]) &&
        (forall x <- r.value ::
          r.value[x] == match LastWith(infos, x) case Some(i) => infos[i][x] case None => ""))
  {
    var infos := Infos(b);
    OverlayKeys(BlankInsurance(), infos);
    OverlayValues(BlankInsurance(), infos);
  }

  /** A key that a later document has overrides every earlier value. */
  lemma LaterDocumentWins(b: Bundle, x: string)
    requires |Valuations(b)| > 0 && x in Valuations(b)[|Valuations(b)| - 1].InsuranceInformation
    ensures Merge(b).InsuranceInformation.Some?
    ensures Merge(b).InsuranceInformation.value[x] == Valuations(b)[|Valuations(b)| - 1].InsuranceInformation[x]
  {
    var infos := Infos(b);
    OverlayKeys(BlankInsurance(), infos);
    OverlayValues(BlankInsurance(), infos);
    assert infos[|infos| - 1] == Valuations(b)[|Valuations(b)| - 1].InsuranceInformation;
  }

  /**
   * `Lots` is present exactly when some document has a lot. It holds one entry
   * per lot: the plan lots first, then the letter-of-acquisition owners, then
   * the owner-list owners, then the agents.
   */
  lemma MergeLotsSpec(b: Bundle)
    ensures var r := Merge(b).Lots;
      var p := LotCount(Plans(b), PlanLotsOf);
      var l := LotCount(Letters(b), LetterLotsOf);
      var o := LotCount(OwnerLists(b), OwnerListLotsOf);
      var a := LotCount(Forms(b), FormLotsOf);
      (r.Some? <==> p + l + o + a > 0) &&
      (r.Some? ==>
        |r.value| == p + l + o + a &&
        (forall k :: 0 <= k < p ==> r.value[k].LotEntry?) &&
        (forall k :: p <= k < p + l + o ==> r.value[k].OwnerEntry?) &&
        (forall k :: p + l + o <= k < |r.value| ==> r.value[k].AgentEntry?))
  {
    var e1 := Entries(Plans(b), PlanLotsOf, PlanEntry);
    var e2 := Entries(Letters(b), LetterLotsOf, OwnerEntryOf);
    var e3 := Entries(OwnerLists(b), OwnerListLotsOf, OwnerEntryOf);
    var e4 := Entries(Forms(b), FormLotsOf, AgentEntryOf);
    EntriesLength(Plans(b), PlanLotsOf, PlanEntry);
    EntriesLength(Letters(b), LetterLotsOf, OwnerEntryOf);
    EntriesLength(OwnerLists(b), OwnerListLotsOf, OwnerEntryOf);
    EntriesLength(Forms(b), FormLotsOf, AgentEntryOf);
    EntriesKind(Plans(b), PlanLotsOf, PlanEntry, IsLotEntry);
    EntriesKind(Letters(b), LetterLotsOf, OwnerEntryOf, IsOwnerEntry);
    EntriesKind(OwnerLists(b), OwnerListLotsOf, OwnerEntryOf, IsOwnerEntry);
    EntriesKind(Forms(b), FormLotsOf, AgentEntryOf, IsAgentEntry);
    var all := AllEntries(b);
    assert all == e1 + e2 + e3 + e4;
    forall k | 0 <= k < |all| ensures
      (k < |e1| ==> all[k].LotEntry?) &&
      (|e1| <= k < |e1| + |e2| + |e3| ==> all[k].OwnerEntry?) &&
      (|e1| + |e2| + |e3| <= k ==> all[k].AgentEntry?)
    {
      if k < |e1| {
        assert all[k] == e1[k] && IsLotEntry(e1[k]);
      } else if k < |e1| + |e2| {
        assert all[k] == e2[k - |e1|] && IsOwnerEntry(e2[k - |e1|]);
      } else if k < |e1| + |e2| + |e3| {
        assert all[k] == e3[k - |e1| - |e2|] && IsOwnerEntry(e3[k - |e1| - |e2|]);
      } else {
        assert all[k] == e4[k - |e1| - |e2| - |e3|] && IsAgentEntry(e4[k - |e1| - |e2| - |e3|]);
      }
    }
  }

  /**
   * One plan with one lot and one letter of acquisition with one owner, and
   * nothing else: the record has `OCInformation`, no `InsuranceInformation`, and
   * the lot entry followed by the owner entry.
   */
  lemma PlanAndLetterExample(plan: PlanOfSubdivision, letter: LetterOfAcquisition, lot: LotInformation, owner: OwnerInformation)
    requires plan.Lots == Some([PlanLot(lot)]) && letter.Lots == Some([OwnerLot(Some(owner))])
    ensures var r := Merge(Bundle(Some([plan]), Some([letter]), None, None, None, None, None));
      r.OCInformation == Some(OCFrom(plan.OCInformation)) &&
      r.InsuranceInformation.None? &&
      r.Lots == Some([LotEntry(lot), OwnerEntry(Some(owner))])
  {
    var b := Bundle(Some([plan]), Some([letter]), None, None, None, None, None);
    assert [plan][..0] == [] && [letter][..0] == [];
    assert Entries([plan], PlanLotsOf, PlanEntry) == [LotEntry(lot)] by {
      assert LotEntries([PlanLot(lot)], PlanEntry) == [LotEntry(lot)];
    }
    assert Entries([letter], LetterLotsOf, OwnerEntryOf) == [OwnerEntry(Some(owner))] by {
      assert LotEntries([OwnerLot(Some(owner))], OwnerEntryOf) == [OwnerEntry(Some(owner))];
    }
    assert Infos(b) == [];
    assert AllEntries(b) == [LotEntry(lot), OwnerEntry(Some(owner))];
  }
}
