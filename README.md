# Owner-list pipeline and building-data merge, modelled in Dafny

This project models the deterministic core of ai-doc-recognition, a service that reads strata documents (owner lists, plans of subdivision, letters of acquisition, managing-authority forms and insurance papers) through OCR and LLM services and merges the results into one building record. It covers two parts.

- **The owner-list pipeline** (`app/lib/ai/postValidators.ts`):
  - `normalizeMarkdown` and `markdownToRows` cut the OCR markdown table into rows.
  - `groupRows` pairs each lot row with the CRN row after it.
  - Field heuristics:
    - `extractOwnerEmails` harvests e-mail addresses from the owner cells.
    - `parseCorrAddress` reads the correspondence address.
    - `fixOwnerFullName` and `fixLetterOfAcquisitionLots` repair OCR misreads in names.
    - `scrubImplicitDelivery`, `normalizePSNumber` and `deduplicateOwnerEmails` post-validate the lots.
  - `parseOwnerBlockLLM` overrides fields of the per-block completion.
  - `processOwnerList` chooses one of three parse variants and runs the post-validators.
- **The merge** (`app/lib/ai/mergeBuildingData.ts`): `mergeBuildingData` builds `OCInformation` from the first plan, overlays the insurance documents key by key, and concatenates the lots of every document in a fixed order.

Modules, one per file:

- `Wrappers` holds `Option` and `Result`.
- `Text` holds ASCII character classes, trimming, splitting and single-spacing facts.
- `Schemas` holds the record shapes of `app/lib/ai/schemas.ts`. Optional keys are `Option`s, because key presence matters to the scrub, the e-mail slots and the insurance overlay.
- `Rows`, `Blocks`, `NameFix`, `Emails`, `Address`, `Validators`, `Pipeline` and `Merge` hold the operations.

Regular expressions are written as deterministic scanners that follow JavaScript's leftmost, greedy or lazy matching order for the one pattern each is used with.

The source's in-place mutators are modelled as methods. The four post-validators are methods of the class `Validators.OwnerList`, whose field `Lots` they reassign. Each method is proved equal to a specification function, and the lemmas are about those functions. Loops in the source become loops with invariants. These are the row scan, the row pairing, the block parse, the overlay and the lot pushes.

The model follows the code as written in these places:

- The scrub sets a present delivery key to `""` and keeps the key (`app/lib/ai/postValidators.ts:86-92`).
- The insurance overlay spreads each info, so a present key whose value is `""` still overwrites the earlier value (`app/lib/ai/mergeBuildingData.ts:74-80`).
- Post-validation runs only when the parsed result has `Lots` (`app/lib/ai/postValidators.ts:194-198`).
- `normalizeMarkdown` replaces the zero-width match of `/^(?!(\s*\|))/gm` at each line start not followed by optional whitespace and a pipe. Its replacer is handed that empty match rather than the line, lines that start with a pipe are not matched at all, and the markdown comes back unchanged (`app/lib/ai/postValidators.ts:221-226`).

## Model

| member | source | states |
|---|---|---|
| Rows.NormalizeMarkdown | app/lib/ai/postValidators.ts:221-226 | the replace hands its callback the empty match, so every line is kept and the markdown is returned unchanged |
| Rows.RepairWouldFixUnpipedRow | app/lib/ai/postValidators.ts:221-226 | the repair test would turn the unpiped row "7\|" into "\| 7\|" if it were given the line, yet the replacer as written leaves that line alone |
| Rows.MarkdownToRows | app/lib/ai/postValidators.ts:228-278 | the line-by-line loop with an open row yields exactly the rows of the specification scan |
| Rows.FoldThenScan | app/lib/ai/postValidators.ts:235-269 | the loop's state after any prefix of lines (rows pushed, row open) summarises that prefix: finishing the scan from it gives the rows of the whole input |
| Rows.ScanHeads | app/lib/ai/postValidators.ts:250-267 | continuation lines never change a row's label or unit: the (label, unit) pairs of the rows are those of the label lines, in order |
| Rows.ScanLabels | app/lib/ai/postValidators.ts:250-259 | every emitted row's label matches the lot-or-CRN pattern |
| Rows.RowsFollowLabelLines | app/lib/ai/postValidators.ts:228-269 | one row per label line, in order, with that line's label and unit; never more rows than lines; every label a lot label or CRN |
| Rows.LinesBeforeFirstLabelDropped | app/lib/ai/postValidators.ts:262-267 | lines before the first label line contribute nothing, because no row is open to take them |
| Blocks.GroupRows | app/lib/ai/postValidators.ts:280-302 | the index loop yields exactly the pairing of the specification function |
| Blocks.GroupFirstsAreLotRows | app/lib/ai/postValidators.ts:280-302 | the blocks' first rows are exactly the non-CRN rows, in input order; one block per lot row, at most as many blocks as rows |
| Blocks.GroupShape | app/lib/ai/postValidators.ts:283-297 | every block starts with a non-CRN row and ends with a CRN row that is the placeholder or an input row |
| Blocks.Group | app/lib/ai/postValidators.ts:280-302 | the pairing never yields more blocks than there are rows |
| Blocks.PairingAt | app/lib/ai/postValidators.ts:283-298 | for the lot row at any index i, block number b, where b counts the lot rows before i, is that row paired with row i+1 when row i+1 is a CRN row and with the all-empty CRN placeholder otherwise; so a CRN row is only ever taken by the lot row directly before it |
| Blocks.StrayMarkersSkipped | app/lib/ai/postValidators.ts:285-290 | CRN rows with no lot row before them are skipped |
| NameFix.FixOwnerFullName | app/lib/ai/postValidators.ts:35-51 | the corrected name has the input's length and holds no misread digit and no case-insensitive misread word; `changed` is reported exactly when it differs from the input, and is false exactly when the input held no misread digit and no misread word |
| NameFix.MapDigitsClears | app/lib/ai/postValidators.ts:13-39 | after the digit map no 5, 0, 3 or 7 is left, and every other character is kept in place |
| NameFix.ReplaceClearsMisreads | app/lib/ai/postValidators.ts:43-47 | after the word fix no case-insensitive NUNYIP is left, not even one straddling a replacement |
| NameFix.ReplaceIdentityWhenClear | app/lib/ai/postValidators.ts:43-47 | text without the misread word passes through the word fix unchanged |
| NameFix.FixIdempotent | app/lib/ai/postValidators.ts:35-51 | fixing a corrected name changes nothing and reports no change |
| NameFix.DigitsExample | app/lib/ai/postValidators.ts:13-19 | "J0NE5" is corrected to "JONES" and reported changed |
| NameFix.LowerCaseMatchExample | app/lib/ai/postValidators.ts:43-47 | a lower-case match keeps only its first letter lower-case: "nunyip" becomes "bUNYIP" |
| Emails.EmailAtShape | app/lib/ai/postValidators.ts:305 | a match found by the scanner is a non-empty local part, an @, and a domain with at least one character before a dot followed by two or more letters |
| Emails.MatchesShaped | app/lib/ai/postValidators.ts:305-308 | every match of the global e-mail pattern has that shape |
| Emails.DistinctSpec | app/lib/ai/postValidators.ts:308 | `Array.from(new Set(xs))` holds each value of xs exactly once, in first-occurrence order, and is no longer than xs |
| Emails.DistinctOfDistinct | app/lib/ai/postValidators.ts:308 | a list without repeats is its own de-duplication |
| Emails.ExtractOwnerEmails | app/lib/ai/postValidators.ts:307-309 | every harvested address is one of the pattern's matches and is e-mail-shaped |
| Emails.ExtractOwnerEmailsSpec | app/lib/ai/postValidators.ts:307-309 | the harvested addresses are exactly the pattern's matches, each e-mail-shaped, each once |
| Emails.MatchesJoined | app/lib/ai/postValidators.ts:305-308 | parts that are each "" or e-mail-shaped, joined with line breaks, are matched back as exactly the non-empty parts, in order |
| Emails.ReharvestSlots | app/lib/ai/postValidators.ts:378-385 | the four e-mail slots filled from a harvest, joined with line breaks, are harvested back as the first four addresses of that harvest, so they fill the same four slots again |
| Address.CleanLinesSingleSpaced | app/lib/ai/postValidators.ts:327-334 | cleaned cells are non-empty and single-spaced |
| Address.CombinedSingleSpaced | app/lib/ai/postValidators.ts:338-348 | the combined text starts with a digit and is single-spaced |
| Address.CombinedJoin | app/lib/ai/postValidators.ts:338-348 | a combined text exists exactly when the first cell has a digit; it is the trimmed text from that digit followed by a space and the second cell exactly when a second cell exists and has a state code and a postcode, and is that trimmed text alone otherwise |
| Address.ParseCombinedShape | app/lib/ai/postValidators.ts:351-364 | on success the state is one of the eight codes upper-cased, the postcode is the text's final four digits, the city is non-empty upper-case letters and spaces, and the street starts with a digit |
| Address.ParseSuccessShape | app/lib/ai/postValidators.ts:320-365 | the same guarantees for every non-null result of `parseCorrAddress` |
| Address.ParseCorrAddress | app/lib/ai/postValidators.ts:320-365 | a parsed postcode is four digits |
| Address.NullCases | app/lib/ai/postValidators.ts:336-356 | null exactly when no cell survives cleaning, the first has no digit, or the anchored pattern does not match |
| Address.AddressRoundTrip | app/lib/ai/postValidators.ts:320-365 | an address written as number, one-word street, city, state code (one of the eight, in any case) and postcode on one line is read back as that street, the upper-cased city, the upper-cased code and the postcode |
| Address.AddressTwoLineRoundTrip | app/lib/ai/postValidators.ts:320-365 | an address written as number and one-word street on one line and city, state code (one of the eight, in any case) and postcode on the next is joined and read back as that street, the upper-cased city, the upper-cased code and the postcode |
| Validators.OwnerList.ScrubImplicitDelivery | app/lib/ai/postValidators.ts:68-98 | the in-place loop leaves `Lots` equal to the scrub function applied to the old lots |
| Validators.OwnerList.NormalizePSNumber | app/lib/ai/postValidators.ts:100-116 | the find loop and the write loop leave `Lots` equal to the normalisation function applied to the old lots |
| Validators.OwnerList.DeduplicateOwnerEmails | app/lib/ai/postValidators.ts:118-155 | the per-lot loop leaves `Lots` equal to the de-duplication function applied to the old lots |
| Validators.OwnerList.FixLetterOfAcquisitionLots | app/lib/ai/postValidators.ts:54-66 | leaves `Lots` equal to the letter fix applied to the old lots |
| Validators.ScrubbedSpec | app/lib/ai/postValidators.ts:68-98 | with either label in the source nothing changes; otherwise each present delivery key becomes "", an absent one stays absent, the lot count is kept, and no other field changes |
| Validators.ScrubIdempotent | app/lib/ai/postValidators.ts:68-98 | scrubbing twice is scrubbing once |
| Validators.FirstPSIndex | app/lib/ai/postValidators.ts:104-105 | the position found is the first lot with a non-empty PS number, or none has one |
| Validators.FirstPSSpec | app/lib/ai/postValidators.ts:104-106 | the first PS number is absent exactly when no lot has a non-empty one, and otherwise belongs to the first lot that has one |
| Validators.NormalizedPSSpec | app/lib/ai/postValidators.ts:100-116 | with no PS number the lots are unchanged; otherwise every lot with owner information carries the first one, the lot count is kept, and nothing else changes |
| Validators.NormalizedPSIdempotent | app/lib/ai/postValidators.ts:100-116 | normalising twice is normalising once |
| Validators.NonBlank | app/lib/ai/postValidators.ts:134-136 | the filter keeps exactly the values whose trim is not empty |
| Validators.NonBlankKeepsOrder | app/lib/ai/postValidators.ts:134-136 | the filter keeps the relative order of the values it keeps |
| Validators.DedupInfoSpec | app/lib/ai/postValidators.ts:125-142 | all four slots become present; the non-blank ones hold each distinct non-blank address once, in the order of first occurrence among the old slots, packed left, and the rest are ""; no other field changes |
| Validators.DedupInfoIdempotent | app/lib/ai/postValidators.ts:118-155 | de-duplicating a lot's e-mails twice is doing it once |
| Validators.DedupedLotsSpec | app/lib/ai/postValidators.ts:118-155 | each lot is de-duplicated on its own, the lot count is kept, and lots without owner information are untouched |
| Validators.DedupedLotsIdempotent | app/lib/ai/postValidators.ts:118-155 | de-duplicating the lots twice is doing it once |
| Validators.LoaFixedSpec | app/lib/ai/postValidators.ts:54-66 | only the first lot's non-empty `FullName` can change, to a name with no misread digit or word; everything else is kept |
| Validators.LoaFixedIdempotent | app/lib/ai/postValidators.ts:54-66 | fixing twice is fixing once |
| Pipeline.PsAt | app/lib/ai/postValidators.ts:171 | a capture at a position is "PS", digits and at most one letter, and occurs in the markdown |
| Pipeline.PsFrom | app/lib/ai/postValidators.ts:171 | the capture from a position is the one at the first matching position at or after it, and none means no position matches |
| Pipeline.PsNumberSpec | app/lib/ai/postValidators.ts:171 | the PS number is "" exactly when the pattern matches nowhere; otherwise it is the capture at the first matching position, PS-shaped and found in the markdown |
| Pipeline.PsNumberOf | app/lib/ai/postValidators.ts:171 | the PS number is "" or a PS-shaped text found in the markdown |
| Pipeline.ParseOwnerBlockLLM | app/lib/ai/postValidators.ts:366-392 | returns exactly the block result of the specification function for the completion it is handed |
| Pipeline.ParsedBlockSucceeds | app/lib/ai/postValidators.ts:375-381 | a block fails exactly when the completion is null or has no owner information |
| Pipeline.ParsedBlockSpec | app/lib/ai/postValidators.ts:377-391 | the four slots hold the first four distinct addresses of the two owner cells in order and then "", each a match of the pattern; the postal address is replaced only when the correspondence cells parse; every other field is the completion's |
| Pipeline.OverriddenAddressShape | app/lib/ai/postValidators.ts:388-389 | a replaced postal address has no `Level` and a state, postcode and city of the shapes `parseCorrAddress` guarantees |
| Pipeline.AllSpec | app/lib/ai/postValidators.ts:173-178 | the all-results combinator succeeds exactly when every result does, and then lists their values in order |
| Pipeline.AllFailsFirst | app/lib/ai/postValidators.ts:173-178 | it fails with the error of the first failing result |
| Pipeline.ParsedBlocksSucceed | app/lib/ai/postValidators.ts:173-178 | the blocks parse exactly when every completion is a lot with owner information |
| Pipeline.ParsedBlocksContents | app/lib/ai/postValidators.ts:173-180 | a successful parse has one lot per block, each that block's own result |
| Pipeline.ParseBlocks | app/lib/ai/postValidators.ts:173-178 | the block loop returns exactly the combined block results |
| Pipeline.DetectVariant | app/lib/ai/postValidators.ts:165-193 | the signature picks the deterministic path exactly when it occurs; otherwise the levy label picks Mistral's direct parse, and OpenAI's is used when neither occurs |
| Pipeline.ProcessOwnerList | app/lib/ai/postValidators.ts:157-199 | the dispatch and post-validation return exactly the specification function's result |
| Pipeline.PostValidateResult | app/lib/ai/postValidators.ts:193-197 | the three post-validators run on the class in order and give the post-validation function's result |
| Pipeline.ProcessFailsOnlyOnMissingCompletion | app/lib/ai/postValidators.ts:165-199 | only the signature path can fail, and it fails exactly when some block's completion is missing or has no owner information; the markdown is returned alongside |
| Pipeline.DeterministicLotCount | app/lib/ai/postValidators.ts:165-199 | a successful signature-path result has `Lots`, one per non-CRN row of the markdown |
| Pipeline.DirectPathResult | app/lib/ai/postValidators.ts:180-198 | without the signature the levy label picks the first direct parse, else the second; no result stays none, a result without `Lots` is untouched, and the lot count is kept |
| Pipeline.PostValidatedSpec | app/lib/ai/postValidators.ts:193-197 | after post-validation the lot count and owner-information presence are kept, every owner carries the first PS number, and the e-mails are already de-duplicated |
| Merge.BlankInsurance | app/lib/ai/mergeBuildingData.ts:56-66 | the starting insurance record has exactly the nine keys, all "" |
| Merge.OverlayKeys | app/lib/ai/mergeBuildingData.ts:74-81 | after the spreads a key is present exactly when the start or some info has it |
| Merge.OverlayValues | app/lib/ai/mergeBuildingData.ts:74-81 | each key holds the value of the last info that has it, even "", or else the start's |
| Merge.OverlayAppend | app/lib/ai/mergeBuildingData.ts:74-81 | spreading one list after another is spreading their concatenation, so the three nested loops equal one loop over invoices, CoCs, valuations |
| Merge.OverlayDocs | app/lib/ai/mergeBuildingData.ts:75-80 | the spread loop over one document list gives the overlay of their infos |
| Merge.EntriesSplit | app/lib/ai/mergeBuildingData.ts:88-113 | the entries of the documents are those of the first k followed by those of the rest: nothing is reordered, joined or dropped |
| Merge.EntriesLength | app/lib/ai/mergeBuildingData.ts:88-113 | one entry per lot; a document without `Lots` adds none |
| Merge.EntriesAt | app/lib/ai/mergeBuildingData.ts:88-113 | lot j of document i becomes entry number (lots before document i) + j |
| Merge.EntriesKind | app/lib/ai/mergeBuildingData.ts:88-113 | every entry a push loop makes has the one key that loop writes |
| Merge.PushEntries | app/lib/ai/mergeBuildingData.ts:88-113 | the nested push loops append exactly the documents' entries |
| Merge.MergeBuildingData | app/lib/ai/mergeBuildingData.ts:21-120 | the imperative merge returns exactly the specification record |
| Merge.Merge | app/lib/ai/mergeBuildingData.ts:21-120 | `OCInformation` is present exactly when there is a plan, `InsuranceInformation` exactly when there is an insurance document, and `Lots`, when present, is non-empty |
| Merge.MergeNothing | app/lib/ai/mergeBuildingData.ts:21-30 | merging a bundle with no arrays gives a record with no keys |
| Merge.MergeOCSpec | app/lib/ai/mergeBuildingData.ts:33-47 | `OCInformation` is present exactly when there is a plan, and each field is the first plan's value or "" |
| Merge.MergeOCFromFirstPlanOnly | app/lib/ai/mergeBuildingData.ts:33-35 | two bundles with the same first plan get the same `OCInformation` |
| Merge.MergeInsuranceSpec | app/lib/ai/mergeBuildingData.ts:50-82 | `InsuranceInformation` is present exactly when there is an insurance document; its keys are the nine plus every info key; each holds the last info's value in invoice, CoC, valuation order, or "" |
| Merge.LaterDocumentWins | app/lib/ai/mergeBuildingData.ts:74-81 | a key of the last valuation report overrides every earlier value |
| Merge.MergeLotsSpec | app/lib/ai/mergeBuildingData.ts:85-117 | `Lots` is present exactly when some document has a lot; its length is the sum of the lot counts; plan lots come first, then owners, then agents |
| Merge.PlanAndLetterExample | app/lib/ai/mergeBuildingData.ts:33-117 | one plan with one lot and one letter with one owner merge to `OCInformation`, no insurance, and the lot entry followed by the owner entry |

## Left out

- I/O and external services. The OCR call, the two direct LLM parses and the per-block completion (`llmParseOwnerBlock`) are parameters: the markdown and the direct results are inputs, and the completion is a function of its arguments. `console` logging is not modelled. The retry, timing and upload code of the clients is not part of this model.
- `Promise.all` over the blocks is modelled as parsing the blocks in order, with the first failure in block order as the error. The source runs the completions concurrently and rejects with whichever fails first in time.
- Error texts. A null completion and a lot without owner information are `Failure`s with English messages. The source throws a Chinese message and a `TypeError`, respectively.
- Characters. Character classes, trimming and case are ASCII (`\s` is space, tab, newline, carriage return, vertical tab and form feed). Unicode whitespace and non-ASCII case mapping are not modelled.
- `scrubImplicitDelivery` accepts a single lot as well as an array (`Array.isArray`). Only the array form, as `processOwnerList` calls it, is modelled.
- The line repair described in the comment at `app/lib/ai/postValidators.ts:222` is not modelled, because the code never performs it.
- Address.AddressRoundTrip: the round trip is stated for a one-word street only, written on one line (Address.AddressTwoLineRoundTrip covers the same address split after the street). With a longer street the lazy first group stops after the first word, and the other words go to the city, so no round trip holds for it.
- The parse results of other document kinds, the quotation and invoice schemas, and the route and UI files are not part of this model.
