/**
 * The record shapes of the structured fragments (app/lib/ai/schemas.ts).
 * An optional key is an `Option`: whether a key is present matters to the
 * delivery-method scrub, the e-mail dedup and the insurance overlay.
 * Field names keep the source's JSON keys; the two keys with spaces,
 * "Levy Delivery Method" and "Correspondence Method", become
 * `LevyDeliveryMethod` and `CorrespondenceMethod`.
 */
module Schemas {
  import opened Wrappers

  /** `OwnerPostalAddress` and `AgencyAddress`: every key optional. */
  datatype PostalAddress = PostalAddress(
    Street: Option<string>,
    Level: Option<string>,
    City: Option<string>,
    State: Option<string>,
    PostalCode: Option<string>)

  /**
   * An owner as the owner list and the letter of acquisition describe it.
   * The delivery methods are enums of "Email"/"Print" in the schema, but the
   * scrub writes "" into them, so they are plain strings here.
   */
  datatype OwnerInformation = OwnerInformation(
    PSNumber: Option<string>,
    LotNumber: Option<string>,
    UnitNumber: Option<string>,
    AccountEmail: Option<string>,
    OtherContactEmails1: Option<string>,
    OtherContactEmails2: Option<string>,
    OtherContactEmails3: Option<string>,
    FullName: string,
    OwnerMobileNumber: Option<string>,
    OwnerPostalAddress: Option<PostalAddress>,
    LevyDeliveryMethod: Option<string>,
    CorrespondenceMethod: Option<string>)

  /** One element of `Lots` in an owner list or a letter of acquisition. */
  datatype OwnerLot = OwnerLot(OwnerInformation: Option<OwnerInformation>)

  /** An owner-list (or letter-of-acquisition) result: `{ Lots?: [...] }`. */
  datatype OwnerListDoc = OwnerListDoc(Lots: Option<seq<OwnerLot>>)

  datatype LotInformation = LotInformation(LotNumber: string, UnitNumber: string, Liability: string)

  datatype PlanLot = PlanLot(LotInformation: LotInformation)

  /** The plan's address; the merge reads each key through `?.` and `??`. */
  datatype OCAddress = OCAddress(
    State: Option<string>,
    Street: Option<string>,
    City: Option<string>,
    postCode: Option<string>)

  datatype PlanOCInformation = PlanOCInformation(
    PSNumber: Option<string>,
    Address: Option<OCAddress>,
    NumberOfLots: Option<string>,
    TotalLiability: Option<string>)

  datatype PlanOfSubdivision = PlanOfSubdivision(OCInformation: PlanOCInformation, Lots: Option<seq<PlanLot>>)

  datatype LetterOfAcquisition = LetterOfAcquisition(Lots: Option<seq<OwnerLot>>)

  datatype AgentInformation = AgentInformation(
    UnitNumber: Option<string>,
    AgentName: string,
    AgentContactNumber: Option<string>,
    AgentContactEmail: Option<string>,
    AgencyName: Option<string>,
    AgencyABN: Option<string>,
    AgencyAddress: Option<PostalAddress>)

  datatype AgentLot = AgentLot(AgentInformation: AgentInformation)

  datatype ManagingAuthorityForm = ManagingAuthorityForm(Lots: Option<seq<AgentLot>>)

  /**
   * An insurance invoice, certificate of currency or valuation report. The three
   * schemas differ only in which keys they carry, and the merge spreads the object
   * key by key, so `InsuranceInformation` is a map from key to value.
   */
  datatype InsuranceDoc = InsuranceDoc(InsuranceInformation: map<string, string>)
}
