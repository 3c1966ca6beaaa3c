/** The records of the police case register: a criminal case with its
    complainant, the people involved, evidence, internal notes, court
    details and hearings.  Field shapes follow the case fixtures and the
    handlers that build cases; timestamps that the pages only sort by are
    integers (milliseconds), timestamps they only store are strings. */
module CaseTypes {
  import opened Common

  /** The seven stages a case can be in; any stage may follow any other. */
  datatype CaseStatus =
    | Reported
    | UnderInvestigation
    | ChargeSheetFiled
    | InTrial
    | Convicted
    | Acquitted
    | Closed

  datatype Role = Complainant | Victim | Accused

  datatype Person = Person(
    role: Role,
    name: string,
    address: string,
    contact: string,
    aadhaarId: Option<string>)

  datatype EvidenceKind = ImageKind | DocumentKind | AudioKind | VideoKind | OtherKind

  datatype Evidence = Evidence(
    id: string,
    name: string,
    url: string,
    kind: EvidenceKind,
    uploadedBy: string,
    timestamp: string,
    description: string,
    ocrText: Option<string>)

  datatype Note = Note(text: string, author: string, timestamp: string)

  /** A hearing as the hearing form holds it: three always-present strings,
      empty when not filled in. */
  datatype Hearing = Hearing(date: string, summary: string, nextHearingDate: string)

  /** Court details; the editing form starts from nothing, so each field may
      be missing. */
  datatype CourtDetails = CourtDetails(
    courtName: Option<string>,
    caseNumber: Option<string>,
    judge: Option<string>,
    prosecutor: Option<string>,
    defenseLawyer: Option<string>)

  datatype Location = Location(address: string, lat: Option<real>, lng: Option<real>)

  datatype Case = Case(
    id: nat,
    firNumber: string,
    firDate: int,
    caseType: string,
    status: CaseStatus,
    policeStation: string,
    investigatingOfficer: string,
    complainant: Person,
    involvedPersons: seq<Person>,
    courtDetails: Option<CourtDetails>,
    hearings: seq<Hearing>,
    nextHearingDate: Option<string>,
    location: Location,
    tags: seq<string>,
    description: string,
    evidence: seq<Evidence>,
    internalNotes: seq<Note>)

  /** The ids of a case list, in order. */
  function Ids(cases: seq<Case>): (r: seq<nat>)
    ensures |r| == |cases|
    ensures forall i :: 0 <= i < |r| ==> r[i] == cases[i].id
  {
    seq(|cases|, i requires 0 <= i < |cases| => cases[i].id)
  }
}
