/** The citizen's crime report (ReportCrime.tsx): the form, and the case its
    submission builds and puts in front of the stored cases.  `now` stands
    for the clock reading the case id, the FIR number and the evidence id are
    taken from, `timestamp` for the ISO time and `url` for the object URL
    of the chosen file. */
module ReportCrime {
  import opened Common
  import opened Text
  import opened CaseTypes
  import opened CaseWorkflow
  import opened Aadhaar
  import opened Auth

  /** The filled-in form. */
  datatype ReportForm = ReportForm(
    caseType: string,
    description: string,
    location: string,
    firDate: int,
    suspectName: string,
    suspectAadhaar: string,
    evidenceFile: Option<UploadedFile>)

  const EvidenceDescription := "Initial evidence submitted with report."

  /** `s.slice(-n)`: the last `n` characters, or all of a shorter string. */
  function LastChars(s: string, n: nat): (r: string)
    ensures |r| == if |s| < n then |s| else n
    ensures r == s[|s| - |r|..]
  {
    if |s| <= n then s else s[|s| - n..]
  }

  /** `FIR-` and the last six digits of the clock reading. */
  function FirNumber(now: nat): string {
    "FIR-" + LastChars(NatToDecimal(now), 6)
  }

  function ComplainantOf(user: Option<User>): Person {
    Person(Complainant, OrElse(UserName(user), "Citizen User"), "N/A", OrElse(UserEmail(user), "N/A"), None)
  }

  /** The evidence list: the chosen file, if any. */
  function ReportEvidence(form: ReportForm, user: Option<User>, now: nat, timestamp: string, url: string): seq<Evidence> {
    match form.evidenceFile
    case None => []
    case Some(f) =>
      [Evidence("evidence-" + NatToDecimal(now), f.name, url,
                if StartsWith(f.mimeType, "image/") then ImageKind else DocumentKind,
                OrElse(UserName(user), "Citizen Reporter"), timestamp, EvidenceDescription, None)]
  }

  /** The involved people: the suspect as accused, when a name was given. */
  function ReportInvolved(form: ReportForm): seq<Person> {
    if Trim(form.suspectName) != [] then
      [Person(Accused, Trim(form.suspectName), "N/A", "N/A", Some(RemoveWhitespace(form.suspectAadhaar)))]
    else []
  }

  /** The case a submission builds. */
  function ReportedCase(form: ReportForm, user: Option<User>, now: nat, timestamp: string, url: string): Case {
    Case(now, FirNumber(now), form.firDate, form.caseType, Reported, "Central Precinct", "Unassigned",
         ComplainantOf(user), ReportInvolved(form), None, [], None, Location(form.location, None, None),
         [form.caseType], form.description, ReportEvidence(form, user, now, timestamp, url), [])
  }

  /** The fixed fields of a reported case. */
  lemma ReportedCaseFixedFields(form: ReportForm, user: Option<User>, now: nat, timestamp: string, url: string)
    ensures var c := ReportedCase(form, user, now, timestamp, url);
      && c.id == now && c.status == Reported && c.investigatingOfficer == "Unassigned"
      && c.policeStation == "Central Precinct" && c.tags == [form.caseType]
      && c.hearings == [] && c.internalNotes == [] && c.courtDetails == None
      && c.caseType == form.caseType && c.description == form.description
      && c.location == Location(form.location, None, None)
  {
  }

  /** There is one accused exactly when the suspect's name is not blank, with
      the trimmed name and the Aadhaar number without white space. */
  lemma AccusedIffSuspectNamed(form: ReportForm, user: Option<User>, now: nat, timestamp: string, url: string)
    ensures var people := ReportedCase(form, user, now, timestamp, url).involvedPersons;
      && |people| <= 1
      && (|people| == 1 <==> !IsBlank(form.suspectName))
      && (forall p :: p in people ==>
            p.role == Accused && p.name == Trim(form.suspectName)
            && p.aadhaarId == Some(RemoveWhitespace(form.suspectAadhaar)))
  {
    assert ReportedCase(form, user, now, timestamp, url).involvedPersons == ReportInvolved(form);
    TrimEmptyIffBlank(form.suspectName);
  }

  /** A masked Aadhaar number is stored as its bare digits. */
  lemma AccusedAadhaarDigits(form: ReportForm, typed: string)
    requires form.suspectAadhaar == FormatAadhaar(typed)
    ensures RemoveWhitespace(form.suspectAadhaar) == KeepDigits(typed)
  {
    FormatAadhaarStrips(typed);
  }

  /** There is one evidence item exactly when a file was chosen: an image
      for an `image/` type and a document for anything else. */
  lemma EvidenceIffFile(form: ReportForm, user: Option<User>, now: nat, timestamp: string, url: string)
    ensures var ev := ReportedCase(form, user, now, timestamp, url).evidence;
      && |ev| == (if form.evidenceFile.Some? then 1 else 0)
      && (forall e :: e in ev ==>
            && e.name == form.evidenceFile.value.name && e.url == url
            && (e.kind == ImageKind <==> StartsWith(form.evidenceFile.value.mimeType, "image/"))
            && (e.kind == ImageKind || e.kind == DocumentKind)
            && e.description == EvidenceDescription)
  {
  }

  /** The complainant is the signed-in user, or a placeholder. */
  lemma ComplainantFromUser(form: ReportForm, user: Option<User>, now: nat, timestamp: string, url: string)
    ensures var p := ReportedCase(form, user, now, timestamp, url).complainant;
      && p.role == Complainant && p.address == "N/A"
      && (user.None? ==> p.name == "Citizen User" && p.contact == "N/A")
      && (user.Some? && user.value.name != [] ==> p.name == user.value.name)
      && (user.Some? && user.value.email != [] ==> p.contact == user.value.email)
  {
  }

  function Pow10(k: nat): nat {
    if k == 0 then 1 else 10 * Pow10(k - 1)
  }

  /** A number of at least `10^k` has more than `k` digits. */
  lemma {:induction false} DecimalLength(n: nat, k: nat)
    requires n >= Pow10(k)
    ensures |NatToDecimal(n)| > k
  {
    if k > 0 {
      DecimalLength(n / 10, k - 1);
    }
  }

  /** From six-digit clock readings on, the FIR number is `FIR-` and six
      digits. */
  lemma FirNumberShape(now: nat)
    requires now >= 100000
    ensures |FirNumber(now)| == 10 && FirNumber(now)[..4] == "FIR-"
    ensures forall i :: 4 <= i < 10 ==> IsDigit(FirNumber(now)[i])
  {
    assert Pow10(5) == 100000;
    DecimalLength(now, 5);
  }

  /** The evidence list of `handleSubmit`: empty, and the chosen file pushed
      when there is one. */
  method BuildEvidence(form: ReportForm, user: Option<User>, now: nat, timestamp: string, url: string)
    returns (newEvidence: seq<Evidence>)
    ensures newEvidence == ReportEvidence(form, user, now, timestamp, url)
  {
    newEvidence := [];
    if form.evidenceFile.Some? {
      var f := form.evidenceFile.value;
      var item := Evidence("evidence-" + NatToDecimal(now), f.name, url,
        if StartsWith(f.mimeType, "image/") then ImageKind else DocumentKind,
        OrElse(UserName(user), "Citizen Reporter"), timestamp, EvidenceDescription, None);
      newEvidence := newEvidence + [item];
      assert newEvidence == [item];
    }
  }

  /** The involved list of `handleSubmit`: empty, and the accused pushed when
      the suspect's name is not blank. */
  method BuildInvolved(form: ReportForm) returns (involved: seq<Person>)
    ensures involved == ReportInvolved(form)
  {
    involved := [];
    if Trim(form.suspectName) != [] {
      var accused := Person(Accused, Trim(form.suspectName), "N/A", "N/A", Some(RemoveWhitespace(form.suspectAadhaar)));
      involved := involved + [accused];
      assert involved == [accused];
    }
  }

  class ReportPage {
    var form: ReportForm
    var isSubmitted: bool
    /** The stored cases the police dashboard reads. */
    var store: seq<Case>

    constructor(stored: seq<Case>)
      ensures form == ReportForm("Theft", "", "", 0, "", "", None)
      ensures !isSubmitted && store == stored
    {
      form := ReportForm("Theft", "", "", 0, "", "", None);
      isSubmitted := false;
      store := stored;
    }

    /** The plain text inputs. */
    method SetDetails(caseType: string, description: string, location: string, firDate: int, suspectName: string)
      modifies this`form
      ensures form == old(form).(caseType := caseType, description := description, location := location,
                                 firDate := firDate, suspectName := suspectName)
    {
      form := form.(caseType := caseType, description := description, location := location,
                    firDate := firDate, suspectName := suspectName);
    }

    /** `handleAadhaarChange`: the field holds the masked number. */
    method SetSuspectAadhaar(value: string)
      modifies this`form
      ensures form == old(form).(suspectAadhaar := FormatAadhaar(value))
    {
      form := form.(suspectAadhaar := FormatAadhaar(value));
    }

    /** `handleFileChange`: the first chosen file, if there is one. */
    method ChooseFiles(files: seq<UploadedFile>)
      modifies this`form
      ensures form == if files == [] then old(form) else old(form).(evidenceFile := Some(files[0]))
    {
      if files != [] {
        form := form.(evidenceFile := Some(files[0]));
      }
    }

    /** "Submit Another Report": back to the empty form; the store keeps
        the submitted case. */
    method Reset()
      modifies this`form, this`isSubmitted
      ensures form == ReportForm("Theft", "", "", 0, "", "", None) && !isSubmitted
    {
      isSubmitted := false;
      form := ReportForm("Theft", "", "", 0, "", "", None);
    }

    /** `handleSubmit`: build the evidence and the involved people, then the
        case, and put it in front of the stored cases. */
    method Submit(user: Option<User>, now: nat, timestamp: string, url: string)
      modifies this`store, this`isSubmitted
      ensures store == [ReportedCase(form, user, now, timestamp, url)] + old(store)
      ensures isSubmitted
    {
      var newEvidence := BuildEvidence(form, user, now, timestamp, url);
      var complainant := Person(Complainant, OrElse(UserName(user), "Citizen User"), "N/A",
                                OrElse(UserEmail(user), "N/A"), None);
      var involved := BuildInvolved(form);
      var newCase := Case(now, FirNumber(now), form.firDate, form.caseType, Reported, "Central Precinct",
                          "Unassigned", complainant, involved, None, [], None, Location(form.location, None, None),
                          [form.caseType], form.description, newEvidence, []);
      store := [newCase] + store;
      isSubmitted := true;
      assert form == old(form);
    }
  }
}
