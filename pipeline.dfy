/**
 * The owner-list pipeline of app/lib/ai/postValidators.ts with its external
 * calls made parameters: the OCR markdown is an input, the per-block LLM
 * completion (`llmParseOwnerBlock`) is a function of its arguments, and the
 * results of the two direct LLM parses are inputs.
 *
 * `processOwnerList` picks one of three variants from the markdown, builds the
 * parsed result, and, when it has `Lots`, runs the PS-number normalisation, the
 * delivery scrub and the e-mail de-duplication in that order.
 */
module Pipeline {
  import opened Wrappers
  import opened Text
  import opened Schemas
  import opened Rows
  import opened Blocks
  import opened Emails
  import opened Address
  import opened Validators

  // ---------------------------------------------------------------------------
  // The variant

  datatype Variant = Deterministic | Mistral | OpenAI

  /** The issuer whose owner lists are parsed row by row. */
  const Signature := "CALLI OWNERS CORPORATION PTY LTD"

  /**
   * The signature picks the row-by-row parse; otherwise the levy label picks
   * Mistral's direct parse, and anything else goes to OpenAI's.
   */
  function DetectVariant(markdown: string): (v: Variant)
    ensures v == Deterministic <==> Contains(markdown, Signature)
    ensures v == Mistral <==> !Contains(markdown, Signature) && HasLevyLabel(markdown)
  {
    if Contains(markdown, Signature) then Deterministic
    else if HasLevyLabel(markdown) then Mistral
    else OpenAI
  }

  // ---------------------------------------------------------------------------
  // The PS number: `markdown.match(/O\/Corp\s+(PS\d+[A-Z]?)/i)?.[1] ?? ""`

  /**
   * The shape of the captured group: "PS" in either case, one or more digits,
   * and at most one letter after them.
   */
  predicate PsShaped(t: string) {
    |t| >= 3 && CiPrefix("PS", t) &&
    exists d | 3 <= d <= |t| ::
      AllChars(t[2..d], IsDigit) && (d == |t| || (d + 1 == |t| && IsLetter(t[d])))
  }

  /** The group captured by a match starting at `i`: `\s+` and `\d+` take whole runs. */
  function PsAt(s: string, i: nat): (r: Option<string>)
    requires i <= |s|
    ensures r.Some? ==> PsShaped(r.value) && Contains(s, r.value)
  {
    if !CiPrefix("O/Corp", s[i..]) then None
    else
      var e := RunEnd(s, i + 6, IsSpace);
      if e == i + 6 || !CiPrefix("PS", s[e..]) then None
      else
        var d := RunEnd(s, e + 2, IsDigit);
        if d == e + 2 then None
        else
          var f := if d < |s| && IsLetter(s[d]) then d + 1 else d;
          PsAtShape(s, e, d, f);
          Some(s[e..f])
  }

  lemma PsAtShape(s: string, e: nat, d: nat, f: nat)
    requires e + 2 < d <= f <= |s| && CiPrefix("PS", s[e..])
    requires forall k :: e + 2 <= k < d ==> IsDigit(s[k])
    requires f == d || (f == d + 1 && IsLetter(s[d]))
    ensures PsShaped(s[e..f]) && Contains(s, s[e..f])
  {
    var t := s[e..f];
    var digits := t[2..d - e];
    assert AllChars(digits, IsDigit) by {
      forall k | 0 <= k < |digits| ensures IsDigit(digits[k]) {
        assert digits[k] == s[e + 2 + k];
      }
    }
    assert CiPrefix("PS", t) by {
      assert t[0] == s[e..][0] && t[1] == s[e..][1];
    }
    if f == d + 1 {
      assert t[d - e] == s[d];
    }
    assert t <= s[e..];
  }

  /** The leftmost match from position `i` on. */
  function PsFrom(s: string, i: nat): (r: Option<string>)
    requires i <= |s|
    ensures r.Some? ==> PsShaped(r.value) && Contains(s, r.value)
    ensures r.Some? ==> exists k :: i <= k <= |s| && PsAt(s, k) == r && forall j :: i <= j < k ==> PsAt(s, j).None?
    ensures r.None? ==> forall k :: i <= k <= |s| ==> PsAt(s, k).None?
    decreases |s| - i
  {
    if PsAt(s, i).Some? then PsAt(s, i)
    else if i == |s| then None
    else PsFrom(s, i + 1)
  }

  /** The PS number handed to every block: the first match's group, or "". */
  function PsNumberOf(markdown: string): (ps: string)
    ensures ps == "" || (PsShaped(ps) && Contains(markdown, ps))
  {
    PsFrom(markdown, 0).GetOr("")
  }

  /**
   * The PS number is "" exactly when no "O/Corp PS<digits>" occurs; otherwise it
   * is the group of the first match, which is "PS", digits and at most one
   * letter, and occurs in the markdown.
   */
  lemma PsNumberSpec(markdown: string)
    ensures PsNumberOf(markdown) == "" <==> forall k :: 0 <= k <= |markdown| ==> PsAt(markdown, k).None?
    ensures PsNumberOf(markdown) != "" ==>
      exists k :: 0 <= k <= |markdown| && PsAt(markdown, k) == Some(PsNumberOf(markdown)) &&
        forall j :: 0 <= j < k ==> PsAt(markdown, j).None?
    ensures PsNumberOf(markdown) != "" ==> PsShaped(PsNumberOf(markdown)) && Contains(markdown, PsNumberOf(markdown))
  {
    var r := PsFrom(markdown, 0);
    if r.Some? {
      assert |r.value| >= 3;
      var k :| 0 <= k <= |markdown| && PsAt(markdown, k) == r;
    }
  }

  // ---------------------------------------------------------------------------
  // One owner block: `parseOwnerBlockLLM`

  /** The arguments of `llmParseOwnerBlock`. */
  datatype BlockRequest = BlockRequest(
    psNumber: string,
    lotNumber: string,
    unitNumber: string,
    corrLines: seq<string>,
    phoneLines: seq<string>)

  function RequestOf(block: OwnerBlock, psNumber: string): BlockRequest {
    BlockRequest(psNumber, block.first.lotOrCrn, block.first.unit,
                 [block.first.corrCell, block.second.corrCell],
                 [block.first.phoneCell, block.second.phoneCell])
  }

  /** The error thrown when the completion has no lot. */
  const EmptyLot := "LLM returned an empty lot"

  /** The error thrown when the lot has no `OwnerInformation` to write into. */
  const NoOwnerInformation := "lot has no OwnerInformation"

  /** The addresses harvested from the two owner cells. */
  function OwnerEmails(block: OwnerBlock): seq<string> {
    ExtractOwnerEmails(block.first.ownerCell + "\n" + block.second.ownerCell)
  }

  /** The address read from the two correspondence cells. */
  function CorrAddressOf(block: OwnerBlock): Option<CorrAddress> {
    ParseCorrAddress([block.first.corrCell, block.second.corrCell])
  }

  /** The object assigned to `OwnerPostalAddress`: it has no `Level` key. */
  function PostalOf(a: CorrAddress): PostalAddress {
    PostalAddress(Some(a.Street), None, Some(a.City), Some(a.State), Some(a.PostalCode))
  }

  /** The lot `parseOwnerBlockLLM` returns for the completion `lotJson`, or the error it throws. */
  function ParsedBlock(block: OwnerBlock, lotJson: Option<OwnerLot>): Result<OwnerLot, string> {
    if lotJson.None? then Failure(EmptyLot)
    else if lotJson.value.OwnerInformation.None? then Failure(NoOwnerInformation)
    else
      var emails := OwnerEmails(block);
      var info := lotJson.value.OwnerInformation.value;
      var withEmails := info.(AccountEmail := Some(SlotValue(emails, 0)),
                              OtherContactEmails1 := Some(SlotValue(emails, 1)),
                              OtherContactEmails2 := Some(SlotValue(emails, 2)),
                              OtherContactEmails3 := Some(SlotValue(emails, 3)));
      match CorrAddressOf(block)
      case None => Success(LotOf(withEmails))
      case Some(addr) => Success(LotOf(withEmails.(OwnerPostalAddress := Some(PostalOf(addr)))))
  }

  /** `parseOwnerBlockLLM(block, psNumber)`, with the completion as the function `complete`. */
  method ParseOwnerBlockLLM(block: OwnerBlock, psNumber: string, complete: BlockRequest -> Option<OwnerLot>)
    returns (r: Result<OwnerLot, string>)
    ensures r == ParsedBlock(block, complete(RequestOf(block, psNumber)))
  {
    var lotJson := complete(RequestOf(block, psNumber));
    if lotJson.None? {
      return Failure(EmptyLot);
    }
    if lotJson.value.OwnerInformation.None? {
      return Failure(NoOwnerInformation);
    }
    var emails := ExtractOwnerEmails(block.first.ownerCell + "\n" + block.second.ownerCell);
    var info := lotJson.value.OwnerInformation.value;
    info := info.(AccountEmail := Some(SlotValue(emails, 0)));
    info := info.(OtherContactEmails1 := Some(SlotValue(emails, 1)));
    info := info.(OtherContactEmails2 := Some(SlotValue(emails, 2)));
    info := info.(OtherContactEmails3 := Some(SlotValue(emails, 3)));
    var addr := ParseCorrAddress([block.first.corrCell, block.second.corrCell]);
    if addr.Some? {
      info := info.(OwnerPostalAddress := Some(PostalOf(addr.value)));
    }
    return Success(LotOf(info));
  }

  /** The owner information with the fields `parseOwnerBlockLLM` overwrites blanked out. */
  function WithoutOverrides(info: OwnerInformation): OwnerInformation {
    info.(AccountEmail := None, OtherContactEmails1 := None, OtherContactEmails2 := None,
          OtherContactEmails3 := None, OwnerPostalAddress := None)
  }

  /**
   * Four slots filled from a list of distinct non-empty values: the first four
   * values in order, then "".
   */
  lemma SlotsOfDistinct(emails: seq<string>)
    requires NoDuplicates(emails) && forall e <- emails :: e != ""
    ensures var s := [SlotValue(emails, 0), SlotValue(emails, 1), SlotValue(emails, 2), SlotValue(emails, 3)];
      (forall k :: 0 <= k < 4 ==> (s[k] == "" <==> k >= |emails|)) &&
      (forall k :: 0 <= k < 4 && s[k] != "" ==> s[k] == emails[k]) &&
      (forall i, j :: 0 <= i < j < 4 && s[i] != "" ==> s[i] != s[j])
  {
    var s := [SlotValue(emails, 0), SlotValue(emails, 1), SlotValue(emails, 2), SlotValue(emails, 3)];
    forall k | 0 <= k < 4 && k < |emails| ensures s[k] != "" {
      assert emails[k] in emails;
    }
  }

  /** A block parses exactly when the completion is a lot with owner information. */
  lemma ParsedBlockSucceeds(block: OwnerBlock, lotJson: Option<OwnerLot>)
    ensures ParsedBlock(block, lotJson).Success? <==> lotJson.Some? && lotJson.value.OwnerInformation.Some?
  {
  }

  /**
   * A block fails exactly when the completion is null or has no owner
   * information. Otherwise the e-mail slots hold the first four distinct
   * addresses found in the two owner cells, in first-seen order, then ""; the
   * postal address is replaced only when the correspondence cells parse; and
   * every other field is the completion's.
   */
  lemma ParsedBlockSpec(block: OwnerBlock, lotJson: Option<OwnerLot>)
    requires lotJson.Some? && lotJson.value.OwnerInformation.Some?
    ensures ParsedBlock(block, lotJson).Success?
    ensures var a, b := lotJson.value.OwnerInformation.value, ParsedBlock(block, lotJson).value.OwnerInformation.value;
      var emails, s := OwnerEmails(block), EmailSlots(b);
      var text := block.first.ownerCell + "\n" + block.second.ownerCell;
      (forall k :: 0 <= k < 4 ==> (s[k] == "" <==> k >= |emails|)) &&
      (forall k :: 0 <= k < 4 && s[k] != "" ==> s[k] == emails[k] && EmailShaped(s[k]) && s[k] in Matches(text, 0)) &&
      (forall i, j :: 0 <= i < j < 4 && s[i] != "" ==> s[i] != s[j]) &&
      (CorrAddressOf(block).Some? ==> b.OwnerPostalAddress == Some(PostalOf(CorrAddressOf(block).value))) &&
      (CorrAddressOf(block).None? ==> b.OwnerPostalAddress == a.OwnerPostalAddress) &&
      WithoutOverrides(b) == WithoutOverrides(a)
  {
    var text := block.first.ownerCell + "\n" + block.second.ownerCell;
    var emails := OwnerEmails(block);
    ExtractOwnerEmailsSpec(text);
    forall e <- emails ensures e != "" {
      assert EmailShaped(e);
    }
    SlotsOfDistinct(emails);
    var b := ParsedBlock(block, lotJson).value.OwnerInformation.value;
    assert EmailSlots(b) == [SlotValue(emails, 0), SlotValue(emails, 1), SlotValue(emails, 2), SlotValue(emails, 3)];
  }

  /**
   * An address written into a lot by the override has one of the eight state
   * codes, a postcode of four digits, an upper-case city and a street that
   * starts with a digit, and no `Level`.
   */
  lemma OverriddenAddressShape(block: OwnerBlock, lotJson: Option<OwnerLot>)
    requires CorrAddressOf(block).Some?
    requires ParsedBlock(block, lotJson).Success?
    ensures var p := ParsedBlock(block, lotJson).value.OwnerInformation.value.OwnerPostalAddress;
      p.Some? && p.value.Level.None? &&
      p.value.State.Some? && p.value.State.value in States &&
      p.value.PostalCode.Some? && |p.value.PostalCode.value| == 4 && AllChars(p.value.PostalCode.value, IsDigit) &&
      p.value.City.Some? && |p.value.City.value| > 0 && AllChars(p.value.City.value, c => IsUpper(c) || c == ' ') &&
      p.value.Street.Some? && |p.value.Street.value| > 0 && IsDigit(p.value.Street.value[0])
  {
    ParseSuccessShape([block.first.corrCell, block.second.corrCell]);
  }

  // ---------------------------------------------------------------------------
  // All blocks: `Promise.all(blocks.map(...))`, taken in order

  /**
   * `Promise.all` over results taken in order: every value when all succeed,
   * otherwise the first failure.
   */
  function All<T>(rs: seq<Result<T, string>>): Result<seq<T>, string> {
    if |rs| == 0 then Success([])
    else
      match All(rs[..|rs| - 1])
      case Failure(e) => Failure(e)
      case Success(vs) =>
        match rs[|rs| - 1]
        case Failure(e) => Failure(e)
        case Success(v) => Success(vs + [v])
  }

  /** All succeeds exactly when every result does, and then lists their values in order. */
  lemma {:induction false} AllSpec<T>(rs: seq<Result<T, string>>)
    ensures All(rs).Success? <==> forall k :: 0 <= k < |rs| ==> rs[k].Success?
    ensures All(rs).Success? ==>
      |All(rs).value| == |rs| && forall k :: 0 <= k < |rs| ==> rs[k] == Success(All(rs).value[k])
  {
    if |rs| > 0 {
      var pre := rs[..|rs| - 1];
      AllSpec(pre);
      assert forall k :: 0 <= k < |pre| ==> rs[k] == pre[k];
    }
  }

  /** All fails with the error of the first failing result. */
  lemma {:induction false} AllFailsFirst<T>(rs: seq<Result<T, string>>, n: nat)
    requires n < |rs| && rs[n].Failure? && forall k :: 0 <= k < n ==> rs[k].Success?
    ensures All(rs) == Failure(rs[n].error)
  {
    if n < |rs| - 1 {
      var pre := rs[..|rs| - 1];
      assert forall k :: 0 <= k <= n ==> rs[k] == pre[k];
      AllFailsFirst(pre, n);
    } else {
      AllSpec(rs[..n]);
      assert forall k :: 0 <= k < n ==> rs[..n][k] == rs[k];
    }
  }

  /** Each block's lot, or the error parsing it throws. */
  function BlockResults(blocks: seq<OwnerBlock>, psNumber: string, complete: BlockRequest -> Option<OwnerLot>):
    (rs: seq<Result<OwnerLot, string>>)
    ensures |rs| == |blocks|
  {
    seq(|blocks|, k requires 0 <= k < |blocks| => ParsedBlock(blocks[k], complete(RequestOf(blocks[k], psNumber))))
  }

  /** The lots of `blocks` in order, or the first error. */
  function ParsedBlocks(blocks: seq<OwnerBlock>, psNumber: string, complete: BlockRequest -> Option<OwnerLot>):
    Result<seq<OwnerLot>, string>
  {
    All(BlockResults(blocks, psNumber, complete))
  }

  /** The request of a block: the given PS number, the lot row's label and unit, and both rows' cells. */
  predicate Completes(block: OwnerBlock, psNumber: string, complete: BlockRequest -> Option<OwnerLot>) {
    var lotJson := complete(RequestOf(block, psNumber));
    lotJson.Some? && lotJson.value.OwnerInformation.Some?
  }

  /** Every block's completion is a lot with owner information. */
  predicate AllComplete(blocks: seq<OwnerBlock>, psNumber: string, complete: BlockRequest -> Option<OwnerLot>) {
    forall k :: 0 <= k < |blocks| ==> Completes(blocks[k], psNumber, complete)
  }

  /** The blocks parse exactly when every completion is a lot with owner information. */
  lemma ParsedBlocksSucceed(blocks: seq<OwnerBlock>, psNumber: string, complete: BlockRequest -> Option<OwnerLot>)
    ensures ParsedBlocks(blocks, psNumber, complete).Success? <==> AllComplete(blocks, psNumber, complete)
  {
    var rs := BlockResults(blocks, psNumber, complete);
    AllSpec(rs);
    forall k | 0 <= k < |blocks| ensures rs[k].Success? <==> Completes(blocks[k], psNumber, complete) {
      ParsedBlockSucceeds(blocks[k], complete(RequestOf(blocks[k], psNumber)));
    }
  }

  /** A successful parse gives one lot per block, each the block's own. */
  lemma ParsedBlocksContents(blocks: seq<OwnerBlock>, psNumber: string, complete: BlockRequest -> Option<OwnerLot>)
    requires ParsedBlocks(blocks, psNumber, complete).Success?
    ensures var lots := ParsedBlocks(blocks, psNumber, complete).value;
      |lots| == |blocks| &&
      forall k :: 0 <= k < |blocks| ==>
        Success(lots[k]) == ParsedBlock(blocks[k], complete(RequestOf(blocks[k], psNumber)))
  {
    AllSpec(BlockResults(blocks, psNumber, complete));
  }

  /** The values `vs` are those of the first `|vs|` results, all successes. */
  ghost predicate SucceedsWith<T>(rs: seq<Result<T, string>>, vs: seq<T>) {
    |vs| <= |rs| && forall k :: 0 <= k < |vs| ==> rs[k] == Success(vs[k])
  }

  /** One more success extends the values. */
  lemma SucceedsWithNext<T>(rs: seq<Result<T, string>>, vs: seq<T>, v: T)
    requires SucceedsWith(rs, vs) && |vs| < |rs| && rs[|vs|] == Success(v)
    ensures SucceedsWith(rs, vs + [v])
  {
  }

  /** The blocks' lots in order, or the first error: `Promise.all` over the blocks, taken one at a time. */
  method ParseBlocks(blocks: seq<OwnerBlock>, psNumber: string, complete: BlockRequest -> Option<OwnerLot>)
    returns (r: Result<seq<OwnerLot>, string>)
    ensures r == ParsedBlocks(blocks, psNumber, complete)
  {
    ghost var rs := BlockResults(blocks, psNumber, complete);
    var lots: seq<OwnerLot> := [];
    var i := 0;
    while i < |blocks|
      invariant i == |lots| <= |blocks| && SucceedsWith(rs, lots)
    {
      var lot := ParseOwnerBlockLLM(blocks[i], psNumber, complete);
      if lot.Failure? {
        AllFailsFirst(rs, i);
        return Failure(lot.error);
      }
      SucceedsWithNext(rs, lots, lot.value);
      lots := lots + [lot.value];
      i := i + 1;
    }
    AllSpec(rs);
    assert lots == All(rs).value;
    return Success(lots);
  }

  // ---------------------------------------------------------------------------
  // processOwnerList

  /** The three post-validators in their order: PS number, delivery scrub, e-mail dedup. */
  function PostValidated(lots: seq<OwnerLot>, markdown: string): seq<OwnerLot> {
    DedupedLots(Scrubbed(NormalizedPS(lots), markdown))
  }

  /** `if (parsed?.Lots) { ... }`: a result without `Lots`, or no result, is returned as it is. */
  function PostValidate(parsed: Option<OwnerListDoc>, markdown: string): Option<OwnerListDoc> {
    if parsed.Some? && parsed.value.Lots.Some? then
      Some(OwnerListDoc(Some(PostValidated(parsed.value.Lots.value, markdown))))
    else parsed
  }

  /** What `processOwnerList` returns: the parsed result (possibly null) and the markdown. */
  datatype Processed = Processed(parsed: Option<OwnerListDoc>, markdown: string)

  /** `processOwnerList`, with the two direct parses' results as `mistral` and `openai`. */
  function ProcessedOwnerList(markdown: string, complete: BlockRequest -> Option<OwnerLot>,
                              mistral: Option<OwnerListDoc>, openai: Option<OwnerListDoc>): Result<Processed, string>
  {
    match DetectVariant(markdown)
    case Deterministic =>
      (match ParsedBlocks(Group(MarkdownRows(markdown)), PsNumberOf(markdown), complete)
       case Failure(e) => Failure(e)
       case Success(lots) => Success(Processed(PostValidate(Some(OwnerListDoc(Some(lots))), markdown), markdown)))
    case Mistral => Success(Processed(PostValidate(mistral, markdown), markdown))
    case OpenAI => Success(Processed(PostValidate(openai, markdown), markdown))
  }

  method ProcessOwnerList(markdown: string, complete: BlockRequest -> Option<OwnerLot>,
                          mistral: Option<OwnerListDoc>, openai: Option<OwnerListDoc>)
    returns (r: Result<Processed, string>)
    ensures r == ProcessedOwnerList(markdown, complete, mistral, openai)
  {
    var parsed: Option<OwnerListDoc>;
    if Contains(markdown, Signature) {
      var rows := MarkdownToRows(markdown);
      var blocks := GroupRows(rows);
      var psNumber := PsNumberOf(markdown);
      var lots := ParseBlocks(blocks, psNumber, complete);
      if lots.Failure? {
        return Failure(lots.error);
      }
      parsed := Some(OwnerListDoc(Some(lots.value)));
    } else if HasLevyLabel(markdown) {
      parsed := mistral;
    } else {
      parsed := openai;
    }
    parsed := PostValidateResult(parsed, markdown);
    return Success(Processed(parsed, markdown));
  }

  /** Runs normalizePSNumber, the scrub and the e-mail de-duplication, in that order, when the result has `Lots`. */
  method PostValidateResult(parsed: Option<OwnerListDoc>, markdown: string) returns (r: Option<OwnerListDoc>)
    ensures r == PostValidate(parsed, markdown)
  {
    r := parsed;
    if parsed.Some? && parsed.value.Lots.Some? {
      var list := new OwnerList(parsed.value.Lots);
      list.NormalizePSNumber();
      list.ScrubImplicitDelivery(markdown);
      list.DeduplicateOwnerEmails();
      r := Some(OwnerListDoc(list.Lots));
    }
  }

  // ---------------------------------------------------------------------------
  // What the pipeline promises

  /**
   * The variant is decided in order: the issuer's signature first, then the levy
   * label; only the deterministic path can fail, and it fails exactly when some
   * block's completion is missing or has no owner information.
   */
  lemma ProcessFailsOnlyOnMissingCompletion(markdown: string, complete: BlockRequest -> Option<OwnerLot>,
                                            mistral: Option<OwnerListDoc>, openai: Option<OwnerListDoc>)
    ensures var r := ProcessedOwnerList(markdown, complete, mistral, openai);
      var blocks, ps := Group(MarkdownRows(markdown)), PsNumberOf(markdown);
      (r.Failure? <==> Contains(markdown, Signature) && !AllComplete(blocks, ps, complete)) &&
      (r.Success? ==> r.value.markdown == markdown)
  {
    ParsedBlocksSucceed(Group(MarkdownRows(markdown)), PsNumberOf(markdown), complete);
  }

  /**
   * On the deterministic path a successful result has one lot per lot row of
   * the markdown (rows whose label is not "CRN"), in the order of the rows.
   */
  lemma DeterministicLotCount(markdown: string, complete: BlockRequest -> Option<OwnerLot>,
                              mistral: Option<OwnerListDoc>, openai: Option<OwnerListDoc>)
    requires Contains(markdown, Signature)
    requires ProcessedOwnerList(markdown, complete, mistral, openai).Success?
    ensures var parsed := ProcessedOwnerList(markdown, complete, mistral, openai).value.parsed;
      parsed.Some? && parsed.value.Lots.Some? &&
      |parsed.value.Lots.value| == |LotRows(MarkdownRows(markdown))|
  {
    var blocks := Group(MarkdownRows(markdown));
    ParsedBlocksContents(blocks, PsNumberOf(markdown), complete);
    GroupFirstsAreLotRows(MarkdownRows(markdown));
    var lots := ParsedBlocks(blocks, PsNumberOf(markdown), complete).value;
    NormalizedPSSpec(lots);
    ScrubbedSpec(NormalizedPS(lots), markdown);
  }

  /**
   * The direct paths return the LLM's result post-validated: no result stays
   * no result, a result without `Lots` is kept as it is, and a result with
   * `Lots` keeps its lot count.
   */
  lemma DirectPathResult(markdown: string, complete: BlockRequest -> Option<OwnerLot>,
                         mistral: Option<OwnerListDoc>, openai: Option<OwnerListDoc>)
    requires !Contains(markdown, Signature)
    ensures var direct := if HasLevyLabel(markdown) then mistral else openai;
      var r := ProcessedOwnerList(markdown, complete, mistral, openai);
      r.Success? && r.value.parsed.Some? == direct.Some? &&
      (direct.Some? && direct.value.Lots.None? ==> r.value.parsed == direct) &&
      (direct.Some? && direct.value.Lots.Some? ==>
        r.value.parsed.value.Lots.Some? &&
        |r.value.parsed.value.Lots.value| == |direct.value.Lots.value|)
  {
    var direct := if HasLevyLabel(markdown) then mistral else openai;
    if direct.Some? && direct.value.Lots.Some? {
      var lots := direct.value.Lots.value;
      NormalizedPSSpec(lots);
      ScrubbedSpec(NormalizedPS(lots), markdown);
    }
  }

  /** On the Mistral path the levy label is in the markdown, so the scrub keeps every delivery method. */
  lemma MistralPathKeepsDelivery(lots: seq<OwnerLot>, markdown: string)
    requires DetectVariant(markdown) == Mistral
    ensures PostValidated(lots, markdown) == DedupedLots(NormalizedPS(lots))
  {
  }

  /**
   * After post-validation every lot with owner information carries the first
   * non-empty PS number of the input (when there is one), and its e-mail slots
   * are already de-duplicated: de-duplicating again changes nothing.
   */
  lemma PostValidatedSpec(lots: seq<OwnerLot>, markdown: string)
    ensures var r := PostValidated(lots, markdown);
      |r| == |lots| &&
      (forall i :: 0 <= i < |r| ==> (r[i].OwnerInformation.Some? <==> lots[i].OwnerInformation.Some?)) &&
      (FirstPS(lots).Some? ==>
        forall i :: 0 <= i < |r| && r[i].OwnerInformation.Some? ==>
          r[i].OwnerInformation.value.PSNumber == Some(FirstPS(lots).value)) &&
      DedupedLots(r) == r
  {
    var n := NormalizedPS(lots);
    var s := Scrubbed(n, markdown);
    NormalizedPSSpec(lots);
    ScrubbedSpec(n, markdown);
    DedupedLotsSpec(s);
    DedupedLotsIdempotent(s);
  }
}
