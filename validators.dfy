/**
 * The post-validators of app/lib/ai/postValidators.ts that rewrite the lots of
 * an owner list (or of a letter of acquisition) in place:
 * `scrubImplicitDelivery`, `normalizePSNumber`, `deduplicateOwnerEmails` and
 * `fixLetterOfAcquisitionLots`.
 *
 * Each is a method of `OwnerList`, the parsed result whose `Lots` the source
 * mutates, proved against a function on the lots; the lemmas state what those
 * functions promise.
 */
module Validators {
  import opened Wrappers
  import opened Text
  import opened Schemas
  import opened NameFix
  import opened Emails

  /** `f` applied to the lots of a result that has them. */
  function OnLots(lots: Option<seq<OwnerLot>>, f: seq<OwnerLot> -> seq<OwnerLot>): Option<seq<OwnerLot>> {
    if lots.Some? then Some(f(lots.value)) else None
  }

  /** The lot with owner information `info`. */
  function LotOf(info: OwnerInformation): OwnerLot {
    OwnerLot(Some(info))
  }

  // ---------------------------------------------------------------------------
  // scrubImplicitDelivery

  /** `/Levy\s+Delivery\s+Method/i.test(source)`. */
  predicate HasLevyLabel(source: string) {
    ContainsPhrase(source, ["Levy", "Delivery", "Method"])
  }

  /** `/Correspondence\s+Delivery\s+Method/i.test(source)`. */
  predicate HasCorrLabel(source: string) {
    ContainsPhrase(source, ["Correspondence", "Delivery", "Method"])
  }

  /** A key that is present is set to ""; an absent key stays absent. */
  function Cleared(v: Option<string>): Option<string> {
    if v.Some? then Some("") else None
  }

  function ScrubLot(lot: OwnerLot): OwnerLot {
    match lot.OwnerInformation
    case None => lot
    case Some(info) =>
      LotOf(info.(LevyDeliveryMethod := Cleared(info.LevyDeliveryMethod),
                  CorrespondenceMethod := Cleared(info.CorrespondenceMethod)))
  }

  /** The lots after the scrub: untouched when the source names either delivery field. */
  function Scrubbed(lots: seq<OwnerLot>, source: string): seq<OwnerLot> {
    if HasLevyLabel(source) || HasCorrLabel(source) then lots
    else seq(|lots|, i requires 0 <= i < |lots| => ScrubLot(lots[i]))
  }

  /** The owner information with both delivery fields blanked out, for comparing the rest. */
  function WithoutDelivery(info: OwnerInformation): OwnerInformation {
    info.(LevyDeliveryMethod := None, CorrespondenceMethod := None)
  }

  // ---------------------------------------------------------------------------
  // normalizePSNumber

  /** The lot's `OwnerInformation.PSNumber` is truthy: present and not "". */
  predicate HasPS(lot: OwnerLot) {
    lot.OwnerInformation.Some? && lot.OwnerInformation.value.PSNumber.Some? &&
    lot.OwnerInformation.value.PSNumber.value != ""
  }

  function PSOf(lot: OwnerLot): string
    requires HasPS(lot)
  {
    lot.OwnerInformation.value.PSNumber.value
  }

  /** The index `Lots.find` stops at, looking from `from` on. */
  function FirstPSIndex(lots: seq<OwnerLot>, from: nat): (k: Option<nat>)
    requires from <= |lots|
    ensures k.Some? ==> from <= k.value < |lots| && HasPS(lots[k.value]) &&
                        forall j :: from <= j < k.value ==> !HasPS(lots[j])
    ensures k.None? ==> forall j :: from <= j < |lots| ==> !HasPS(lots[j])
    decreases |lots| - from
  {
    if from == |lots| then None
    else if HasPS(lots[from]) then Some(from)
    else FirstPSIndex(lots, from + 1)
  }

  /** `firstPS`: the PS number of the first lot that has a non-empty one. */
  function FirstPS(lots: seq<OwnerLot>): Option<string> {
    match FirstPSIndex(lots, 0)
    case None => None
    case Some(k) => Some(PSOf(lots[k]))
  }

  function WithPS(lot: OwnerLot, ps: string): OwnerLot {
    match lot.OwnerInformation
    case None => lot
    case Some(info) => LotOf(info.(PSNumber := Some(ps)))
  }

  /** The lots after `normalizePSNumber`. */
  function NormalizedPS(lots: seq<OwnerLot>): seq<OwnerLot> {
    match FirstPS(lots)
    case None => lots
    case Some(ps) => seq(|lots|, i requires 0 <= i < |lots| => WithPS(lots[i], ps))
  }

  // ---------------------------------------------------------------------------
  // deduplicateOwnerEmails

  /** The four e-mail slots, each `?? ""`. */
  function EmailSlots(info: OwnerInformation): seq<string> {
    [info.AccountEmail.GetOr(""), info.OtherContactEmails1.GetOr(""),
     info.OtherContactEmails2.GetOr(""), info.OtherContactEmails3.GetOr("")]
  }

  /** The filter `e && e.trim() !== ""` rejects `e`: "" and all-whitespace values. */
  predicate IsBlank(e: string) {
    Trim(e) == ""
  }

  /** `emails.filter((e) => e && e.trim() !== "")`. */
  function NonBlank(xs: seq<string>): (r: seq<string>)
    ensures forall e <- r :: !IsBlank(e)
    ensures forall e :: e in r <==> e in xs && !IsBlank(e)
    ensures |r| <= |xs|
  {
    if |xs| == 0 then []
    else (if IsBlank(xs[0]) then [] else [xs[0]]) + NonBlank(xs[1..])
  }

  /** `unique`: the distinct non-blank addresses, in first-seen order. */
  function UniqueEmails(info: OwnerInformation): seq<string> {
    Distinct(NonBlank(EmailSlots(info)))
  }

  function DedupInfo(info: OwnerInformation): OwnerInformation {
    var u := UniqueEmails(info);
    info.(AccountEmail := Some(SlotValue(u, 0)),
          OtherContactEmails1 := Some(SlotValue(u, 1)),
          OtherContactEmails2 := Some(SlotValue(u, 2)),
          OtherContactEmails3 := Some(SlotValue(u, 3)))
  }

  function DedupLot(lot: OwnerLot): OwnerLot {
    match lot.OwnerInformation
    case None => lot
    case Some(info) => LotOf(DedupInfo(info))
  }

  /** The lots after `deduplicateOwnerEmails`. */
  function DedupedLots(lots: seq<OwnerLot>): seq<OwnerLot> {
    seq(|lots|, i requires 0 <= i < |lots| => DedupLot(lots[i]))
  }

  /** The owner information with the four e-mail slots blanked out, for comparing the rest. */
  function WithoutEmails(info: OwnerInformation): OwnerInformation {
    info.(AccountEmail := None, OtherContactEmails1 := None,
          OtherContactEmails2 := None, OtherContactEmails3 := None)
  }

  // ---------------------------------------------------------------------------
  // fixLetterOfAcquisitionLots

  /** The lots after `fixLetterOfAcquisitionLots`: only the first owner's name may change. */
  function LoaFixed(lots: seq<OwnerLot>): seq<OwnerLot> {
    if |lots| == 0 || lots[0].OwnerInformation.None? then lots
    else
      var info := lots[0].OwnerInformation.value;
      if info.FullName == "" then lots
      else
        var fix := FixOwnerFullName(info.FullName);
        if fix.changed then lots[0 := LotOf(info.(FullName := fix.corrected))] else lots
  }

  // ---------------------------------------------------------------------------
  // The parsed result, mutated in place

  /** A parsed owner list (or letter of acquisition): `{ Lots?: [...] }`. */
  class OwnerList {
    var Lots: Option<seq<OwnerLot>>

    constructor (lots: Option<seq<OwnerLot>>)
      ensures Lots == lots
    {
      Lots := lots;
    }

    /** `scrubImplicitDelivery(parsed.Lots, source)`. */
    method ScrubImplicitDelivery(source: string)
      modifies this
      ensures Lots == OnLots(old(Lots), ls => Scrubbed(ls, source))
    {
      if Lots.None? || HasLevyLabel(source) || HasCorrLabel(source) {
        return;
      }
      var before := Lots.value;
      var lots := before;
      var i := 0;
      while i < |lots|
        invariant 0 <= i <= |lots| == |before|
        invariant forall k :: 0 <= k < i ==> lots[k] == ScrubLot(before[k])
        invariant forall k :: i <= k < |lots| ==> lots[k] == before[k]
      {
        if lots[i].OwnerInformation.Some? {
          var info := lots[i].OwnerInformation.value;
          if info.LevyDeliveryMethod.Some? {
            info := info.(LevyDeliveryMethod := Some(""));
          }
          if info.CorrespondenceMethod.Some? {
            info := info.(CorrespondenceMethod := Some(""));
          }
          lots := lots[i := LotOf(info)];
        }
        i := i + 1;
      }
      assert lots == Scrubbed(before, source);
      Lots := Some(lots);
    }

    /** `normalizePSNumber(parsed)`: find the first PS number, then write it into every owner. */
    method NormalizePSNumber()
      modifies this
      ensures Lots == OnLots(old(Lots), NormalizedPS)
    {
      if Lots.None? || |Lots.value| == 0 {
        return;
      }
      var before := Lots.value;
      var i := 0;
      while i < |before| && !HasPS(before[i])
        invariant 0 <= i <= |before|
        invariant FirstPSIndex(before, i) == FirstPSIndex(before, 0)
        decreases |before| - i
      {
        i := i + 1;
      }
      if i == |before| {
        assert FirstPSIndex(before, i).None?;
        return;
      }
      var firstPS := before[i].OwnerInformation.value.PSNumber.value;
      assert FirstPS(before) == Some(firstPS);
      var lots := before;
      var j := 0;
      while j < |lots|
        invariant 0 <= j <= |lots| == |before|
        invariant forall k :: 0 <= k < j ==> lots[k] == WithPS(before[k], firstPS)
        invariant forall k :: j <= k < |lots| ==> lots[k] == before[k]
      {
        if lots[j].OwnerInformation.Some? {
          var info := lots[j].OwnerInformation.value;
          lots := lots[j := LotOf(info.(PSNumber := Some(firstPS)))];
        }
        j := j + 1;
      }
      assert lots == NormalizedPS(before);
      Lots := Some(lots);
    }

    /** `deduplicateOwnerEmails(parsed)`. */
    method DeduplicateOwnerEmails()
      modifies this
      ensures Lots == OnLots(old(Lots), DedupedLots)
    {
      if Lots.None? {
        return;
      }
      var before := Lots.value;
      var lots := before;
      var i := 0;
      while i < |lots|
        invariant 0 <= i <= |lots| == |before|
        invariant forall k :: 0 <= k < i ==> lots[k] == DedupLot(before[k])
        invariant forall k :: i <= k < |lots| ==> lots[k] == before[k]
      {
        if lots[i].OwnerInformation.Some? {
          var info := lots[i].OwnerInformation.value;
          var unique := UniqueEmails(info);
          info := info.(AccountEmail := Some(SlotValue(unique, 0)));
          info := info.(OtherContactEmails1 := Some(SlotValue(unique, 1)));
          info := info.(OtherContactEmails2 := Some(SlotValue(unique, 2)));
          info := info.(OtherContactEmails3 := Some(SlotValue(unique, 3)));
          assert info == DedupInfo(lots[i].OwnerInformation.value);
          lots := lots[i := LotOf(info)];
        }
        i := i + 1;
      }
      assert lots == DedupedLots(before);
      Lots := Some(lots);
    }

    /** `fixLetterOfAcquisitionLots(parsed)`. */
    method FixLetterOfAcquisitionLots()
      modifies this
      ensures Lots == OnLots(old(Lots), LoaFixed)
    {
      if Lots.None? || |Lots.value| == 0 || Lots.value[0].OwnerInformation.None? {
        return;
      }
      var oi := Lots.value[0].OwnerInformation.value;
      if oi.FullName == "" {
        return;
      }
      var fix := FixOwnerFullName(oi.FullName);
      if fix.changed {
        Lots := Some(Lots.value[0 := LotOf(oi.(FullName := fix.corrected))]);
      }
    }
  }

  // ---------------------------------------------------------------------------
  // What the scrub promises

  /**
   * When the source names either delivery field, nothing changes. Otherwise
   * every lot keeps its owner information, a delivery key that was present is
   * present and "", an absent one stays absent, and every other field is kept.
   * (The source looks for the label "Correspondence Delivery Method" but clears
   * the key "Correspondence Method".)
   */
  lemma ScrubbedSpec(lots: seq<OwnerLot>, source: string)
    ensures var r := Scrubbed(lots, source);
      |r| == |lots| &&
      (HasLevyLabel(source) || HasCorrLabel(source) ==> r == lots) &&
      forall i :: 0 <= i < |r| ==>
        (r[i].OwnerInformation.Some? <==> lots[i].OwnerInformation.Some?) &&
        (lots[i].OwnerInformation.Some? && !HasLevyLabel(source) && !HasCorrLabel(source) ==>
          var a, b := lots[i].OwnerInformation.value, r[i].OwnerInformation.value;
          (b.LevyDeliveryMethod.Some? <==> a.LevyDeliveryMethod.Some?) &&
          (b.LevyDeliveryMethod.Some? ==> b.LevyDeliveryMethod.value == "") &&
          (b.CorrespondenceMethod.Some? <==> a.CorrespondenceMethod.Some?) &&
          (b.CorrespondenceMethod.Some? ==> b.CorrespondenceMethod.value == "") &&
          WithoutDelivery(b) == WithoutDelivery(a))
  {
  }

  /** Scrubbing twice is scrubbing once. */
  lemma ScrubIdempotent(lots: seq<OwnerLot>, source: string)
    ensures Scrubbed(Scrubbed(lots, source), source) == Scrubbed(lots, source)
  {
  }

  // ---------------------------------------------------------------------------
  // What the PS normalisation promises

  /** `FirstPS` is the PS number of the first lot that has one, and is absent only when no lot has one. */
  lemma FirstPSSpec(lots: seq<OwnerLot>)
    ensures FirstPS(lots).None? <==> forall k :: 0 <= k < |lots| ==> !HasPS(lots[k])
    ensures FirstPS(lots).Some? ==>
      exists k :: 0 <= k < |lots| && HasPS(lots[k]) && PSOf(lots[k]) == FirstPS(lots).value &&
                  forall j :: 0 <= j < k ==> !HasPS(lots[j])
  {
  }

  /**
   * With no non-empty PS number the lots are returned unchanged; otherwise every
   * lot that has owner information carries the first one, and nothing else changes.
   */
  lemma NormalizedPSSpec(lots: seq<OwnerLot>)
    ensures var r := NormalizedPS(lots);
      |r| == |lots| &&
      (FirstPS(lots).None? ==> r == lots) &&
      forall i :: 0 <= i < |r| ==>
        (r[i].OwnerInformation.Some? <==> lots[i].OwnerInformation.Some?) &&
        (lots[i].OwnerInformation.Some? && FirstPS(lots).Some? ==>
          r[i].OwnerInformation.value.PSNumber == Some(FirstPS(lots).value) &&
          r[i].OwnerInformation.value.(PSNumber := None) == lots[i].OwnerInformation.value.(PSNumber := None))
  {
  }

  /** Normalising twice is normalising once: the first PS number is still the first. */
  lemma NormalizedPSIdempotent(lots: seq<OwnerLot>)
    ensures NormalizedPS(NormalizedPS(lots)) == NormalizedPS(lots)
  {
    var r := NormalizedPS(lots);
    match FirstPSIndex(lots, 0)
    case None =>
    case Some(k) =>
      var ps := PSOf(lots[k]);
      assert HasPS(r[k]) && PSOf(r[k]) == ps;
      match FirstPSIndex(r, 0)
      case None =>
      case Some(k') =>
        // Lots before `k` have no owner information or still no PS number, so
        // the first lot with one is found at or after `k`; from there on every
        // owner carries `ps`.
        if k' < k {
          assert r[k'].OwnerInformation.Some?;
          assert lots[k'].OwnerInformation.Some?;
        }
        assert PSOf(r[k']) == ps;
  }

  // ---------------------------------------------------------------------------
  // What the e-mail de-duplication promises

  /** Four slots filled from a list of at most four non-blank values, "" after its end. */
  function Packed(u: seq<string>): seq<string> {
    [SlotValue(u, 0), SlotValue(u, 1), SlotValue(u, 2), SlotValue(u, 3)]
  }

  lemma {:induction false} NonBlankAppend(a: seq<string>, b: seq<string>)
    ensures NonBlank(a + b) == NonBlank(a) + NonBlank(b)
    decreases |a|
  {
    if |a| > 0 {
      assert (a + b)[0] == a[0] && (a + b)[1..] == a[1..] + b;
      assert NonBlank(a + b) == (if IsBlank(a[0]) then [] else [a[0]]) + NonBlank(a[1..] + b);
      NonBlankAppend(a[1..], b);
    } else {
      assert a + b == b;
    }
  }

  /** A list with no blank value is its own filtering. */
  lemma {:induction false} NonBlankOfNonBlank(u: seq<string>)
    requires forall e <- u :: !IsBlank(e)
    ensures NonBlank(u) == u
    decreases |u|
  {
    if |u| > 0 {
      assert u[0] in u;
      NonBlankOfNonBlank(u[1..]);
    }
  }

  /** A list of "" values filters to nothing. */
  lemma {:induction false} NonBlankOfEmpties(n: nat)
    ensures NonBlank(seq(n, _ => "")) == []
  {
    if n > 0 {
      assert Trim("") == "";
      assert seq(n, _ => "")[1..] == seq(n - 1, _ => "");
      NonBlankOfEmpties(n - 1);
    }
  }

  /** The non-blank slots of a packing are the packed values. */
  lemma NonBlankOfPacked(u: seq<string>)
    requires |u| <= 4 && forall e <- u :: !IsBlank(e)
    ensures NonBlank(Packed(u)) == u
  {
    var pad := seq(4 - |u|, _ => "");
    assert Packed(u) == u + pad;
    NonBlankAppend(u, pad);
    NonBlankOfNonBlank(u);
    NonBlankOfEmpties(4 - |u|);
    assert u + [] == u;
  }

  /**
   * After the de-duplication all four slots are present; the non-blank ones hold
   * each distinct non-blank address of before exactly once, in first-seen order,
   * packed to the left, and the rest are "". Nothing else changes.
   */
  lemma DedupInfoSpec(info: OwnerInformation)
    ensures var after := DedupInfo(info);
      var s, before := EmailSlots(after), NonBlank(EmailSlots(info));
      after.AccountEmail.Some? && after.OtherContactEmails1.Some? &&
      after.OtherContactEmails2.Some? && after.OtherContactEmails3.Some? &&
      NoDuplicates(NonBlank(s)) &&
      (forall e :: e in NonBlank(s) <==> e in before) &&
      (forall i, j :: 0 <= i < j < |NonBlank(s)| ==>
         FirstIndex(before, NonBlank(s)[i]) < FirstIndex(before, NonBlank(s)[j])) &&
      (forall i, j :: 0 <= i < j < |NonBlank(s)| ==>
         FirstIndex(EmailSlots(info), NonBlank(s)[i]) < FirstIndex(EmailSlots(info), NonBlank(s)[j])) &&
      (forall k :: 0 <= k < 4 ==> s[k] == "" || !IsBlank(s[k])) &&
      (forall i, j :: 0 <= i < j < 4 && s[i] == "" ==> s[j] == "") &&
      WithoutEmails(after) == WithoutEmails(info)
  {
    var u := UniqueEmails(info);
    var before := NonBlank(EmailSlots(info));
    DistinctSpec(before);
    assert EmailSlots(DedupInfo(info)) == Packed(u);
    NonBlankOfPacked(u);
    PackedShape(u);
    OrderCarriesOver(EmailSlots(info), NonBlank(EmailSlots(DedupInfo(info))));
  }

  /** Values in the order of their first occurrence among the kept values are in that order in the input too. */
  lemma OrderCarriesOver(xs: seq<string>, ns: seq<string>)
    requires forall e <- ns :: e in NonBlank(xs) && e in xs
    requires forall i, j :: 0 <= i < j < |ns| ==> FirstIndex(NonBlank(xs), ns[i]) < FirstIndex(NonBlank(xs), ns[j])
    ensures forall i, j :: 0 <= i < j < |ns| ==> FirstIndex(xs, ns[i]) < FirstIndex(xs, ns[j])
  {
    forall i, j | 0 <= i < j < |ns| ensures FirstIndex(xs, ns[i]) < FirstIndex(xs, ns[j]) {
      assert ns[i] in ns && ns[j] in ns;
      NonBlankKeepsOrder(xs, ns[i], ns[j]);
    }
  }

  /**
   * The filter keeps the order of what it keeps: of two kept values, the one
   * that comes first in the filtered list also comes first in the input.
   */
  lemma {:induction false} NonBlankKeepsOrder(xs: seq<string>, x: string, y: string)
    requires x in NonBlank(xs) && y in NonBlank(xs)
    requires FirstIndex(NonBlank(xs), x) < FirstIndex(NonBlank(xs), y)
    ensures FirstIndex(xs, x) < FirstIndex(xs, y)
    decreases |xs|
  {
    var nb, rest := NonBlank(xs), NonBlank(xs[1..]);
    if IsBlank(xs[0]) {
      assert nb == rest;
      NonBlankKeepsOrder(xs[1..], x, y);
    } else {
      assert nb == [xs[0]] + rest;
      if x != xs[0] {
        assert y != xs[0];
        NonBlankKeepsOrder(xs[1..], x, y);
      }
    }
  }

  /** A packing holds the values, then only "". */
  lemma PackedShape(u: seq<string>)
    requires |u| <= 4 && forall e <- u :: !IsBlank(e)
    ensures var s := Packed(u);
      (forall k :: 0 <= k < 4 ==> s[k] == "" || !IsBlank(s[k])) &&
      (forall i, j :: 0 <= i < j < 4 && s[i] == "" ==> s[j] == "")
  {
    assert IsBlank("") by { assert Trim("") == ""; }
    var s := Packed(u);
    forall k | 0 <= k < 4 ensures s[k] == "" || !IsBlank(s[k]) {
      if k < |u| { assert s[k] == u[k] && u[k] in u; }
    }
    forall i, j | 0 <= i < j < 4 && s[i] == "" ensures s[j] == "" {
      if i < |u| { assert u[i] in u; }
    }
  }

  /** De-duplicating twice is de-duplicating once. */
  lemma DedupInfoIdempotent(info: OwnerInformation)
    ensures DedupInfo(DedupInfo(info)) == DedupInfo(info)
  {
    var u := UniqueEmails(info);
    DistinctSpec(NonBlank(EmailSlots(info)));
    assert EmailSlots(DedupInfo(info)) == Packed(u);
    NonBlankOfPacked(u);
    DistinctOfDistinct(u);
  }

  /** Every lot is de-duplicated on its own; the lot count and the lots without owner information are kept. */
  lemma DedupedLotsSpec(lots: seq<OwnerLot>)
    ensures var r := DedupedLots(lots);
      |r| == |lots| &&
      forall i :: 0 <= i < |r| ==>
        (lots[i].OwnerInformation.None? ==> r[i] == lots[i]) &&
        (lots[i].OwnerInformation.Some? ==>
          r[i].OwnerInformation == Some(DedupInfo(lots[i].OwnerInformation.value)))
  {
  }

  lemma DedupedLotsIdempotent(lots: seq<OwnerLot>)
    ensures DedupedLots(DedupedLots(lots)) == DedupedLots(lots)
  {
    forall i | 0 <= i < |lots| && lots[i].OwnerInformation.Some? {
      DedupInfoIdempotent(lots[i].OwnerInformation.value);
    }
  }

  // ---------------------------------------------------------------------------
  // What the letter-of-acquisition fix promises

  /**
   * Only the first lot's `FullName` can change: when it is non-empty it becomes
   * the corrected name, which holds no misread digit and no misread word. Every
   * other lot and every other field is kept.
   */
  lemma LoaFixedSpec(lots: seq<OwnerLot>)
    ensures var r := LoaFixed(lots);
      |r| == |lots| &&
      (forall i :: 0 < i < |lots| ==> r[i] == lots[i]) &&
      (|lots| > 0 ==> (r[0].OwnerInformation.Some? <==> lots[0].OwnerInformation.Some?)) &&
      (|lots| > 0 && lots[0].OwnerInformation.Some? ==>
        var a, b := lots[0].OwnerInformation.value, r[0].OwnerInformation.value;
        b.(FullName := "") == a.(FullName := "") &&
        (a.FullName == "" ==> b.FullName == "") &&
        (a.FullName != "" ==> b.FullName == FixOwnerFullName(a.FullName).corrected &&
                              NoMisreadDigit(b.FullName) && NoMisreadWord(b.FullName)))
  {
  }

  /** Fixing twice is fixing once. */
  lemma LoaFixedIdempotent(lots: seq<OwnerLot>)
    ensures LoaFixed(LoaFixed(lots)) == LoaFixed(lots)
  {
    if |lots| > 0 && lots[0].OwnerInformation.Some? && lots[0].OwnerInformation.value.FullName != "" {
      var name := lots[0].OwnerInformation.value.FullName;
      FixIdempotent(name);
    }
  }
}
