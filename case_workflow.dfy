/** What each handler of the police dashboard does to the list of cases, as
    functions from the old list to the new one (pages/PoliceDashboard.tsx,
    the handlers from `handleStatusChange` to `handleAddHearing`).  Every
    handler rewrites the list with `cases.map(c => c.id === id ? … : c)`, so
    every case carrying the targeted id is rewritten; ids are not assumed to
    be unique.  The selected case is passed as its id, `None` when nothing is
    selected. */
module CaseWorkflow {
  import opened Common
  import opened Text
  import opened CaseTypes

  /** The author and uploader the dashboard writes on every note and upload. */
  const Officer := "Officer Smith"

  /** `cases.map(c => c.id === id ? f(c) : c)`. */
  function UpdateCase(cases: seq<Case>, id: nat, f: Case -> Case): (r: seq<Case>)
    ensures |r| == |cases|
    ensures forall i :: 0 <= i < |r| ==> r[i] == (if cases[i].id == id then f(cases[i]) else cases[i])
  {
    Map(cases, (c: Case) => if c.id == id then f(c) else c)
  }

  /** A rewrite that keeps each case's id keeps the list of ids. */
  lemma UpdateCaseKeepsIds(cases: seq<Case>, id: nat, f: Case -> Case)
    requires forall c :: f(c).id == c.id
    ensures Ids(UpdateCase(cases, id, f)) == Ids(cases)
  {
    var r := UpdateCase(cases, id, f);
    assert forall i :: 0 <= i < |r| ==> Ids(r)[i] == Ids(cases)[i];
  }

  // ---------------------------------------------------------------- status

  /** `handleStatusChange`: any status may be set, from any status. */
  function SetStatus(cases: seq<Case>, id: nat, s: CaseStatus): (r: seq<Case>)
    ensures Ids(r) == Ids(cases)
  {
    UpdateCaseKeepsIds(cases, id, (c: Case) => c.(status := s));
    UpdateCase(cases, id, (c: Case) => c.(status := s))
  }

  /** Exactly the cases with the id get the new status; no other field and no
      other case changes. */
  lemma SetStatusEffect(cases: seq<Case>, id: nat, s: CaseStatus)
    ensures var r := SetStatus(cases, id, s);
      && |r| == |cases|
      && (forall i :: 0 <= i < |r| ==> r[i].status == (if cases[i].id == id then s else cases[i].status))
      && (forall i :: 0 <= i < |r| ==> r[i].(status := cases[i].status) == cases[i])
  {
  }

  /** The last status set wins. */
  lemma SetStatusTwice(cases: seq<Case>, id: nat, s1: CaseStatus, s2: CaseStatus)
    ensures SetStatus(SetStatus(cases, id, s1), id, s2) == SetStatus(cases, id, s2)
  {
  }

  // ---------------------------------------------------------------- notes

  /** The note `handleAddNote` appends: the text as typed, not trimmed. */
  function NewNote(text: string, timestamp: string): Note {
    Note(text, Officer, timestamp)
  }

  /** `handleAddNote`: nothing happens without a selection or with a blank note. */
  function AddNote(cases: seq<Case>, selected: Option<nat>, text: string, timestamp: string): (r: seq<Case>)
    ensures Ids(r) == Ids(cases)
  {
    if selected.None? || Trim(text) == [] then cases
    else
      var f := (c: Case) => c.(internalNotes := c.internalNotes + [NewNote(text, timestamp)]);
      UpdateCaseKeepsIds(cases, selected.value, f);
      UpdateCase(cases, selected.value, f)
  }

  /** A blank note changes nothing. */
  lemma AddBlankNoteIsNoop(cases: seq<Case>, selected: Option<nat>, text: string, timestamp: string)
    requires IsBlank(text)
    ensures AddNote(cases, selected, text, timestamp) == cases
  {
    TrimEmptyIffBlank(text);
  }

  /** A non-blank note goes at the end of the selected case's notes, and
      nothing else changes. */
  lemma AddNoteAppends(cases: seq<Case>, id: nat, text: string, timestamp: string)
    requires !IsBlank(text)
    ensures var r := AddNote(cases, Some(id), text, timestamp);
      && |r| == |cases|
      && (forall i :: 0 <= i < |r| && cases[i].id == id ==>
            r[i].internalNotes == cases[i].internalNotes + [Note(text, "Officer Smith", timestamp)]
            && r[i].(internalNotes := cases[i].internalNotes) == cases[i])
      && (forall i :: 0 <= i < |r| && cases[i].id != id ==> r[i] == cases[i])
  {
    TrimEmptyIffBlank(text);
    var f := (c: Case) => c.(internalNotes := c.internalNotes + [NewNote(text, timestamp)]);
    var r := UpdateCase(cases, id, f);
    assert AddNote(cases, Some(id), text, timestamp) == r;
    forall i | 0 <= i < |r| && cases[i].id == id
      ensures r[i].internalNotes == cases[i].internalNotes + [Note(text, "Officer Smith", timestamp)]
      ensures r[i].(internalNotes := cases[i].internalNotes) == cases[i]
    {
      assert r[i] == f(cases[i]);
    }
  }

  // ---------------------------------------------------------------- evidence

  /** A chosen file: its name and MIME type. */
  datatype UploadedFile = UploadedFile(name: string, mimeType: string)

  /** What the browser supplies per uploaded file: the generated id
      (`evidence-<time>-<random>`), the object URL and the upload time. */
  datatype Stamp = Stamp(id: string, url: string, timestamp: string)

  /** No MIME type starts with two of the prefixes the upload tests. */
  lemma MimePrefixesExclusive(mime: string)
    ensures StartsWith(mime, "image/") ==> mime[0] == 'i'
    ensures StartsWith(mime, "application/pdf") ==> mime[0] == 'a' && mime[1] == 'p'
    ensures StartsWith(mime, "audio/") ==> mime[0] == 'a' && mime[1] == 'u'
    ensures StartsWith(mime, "video/") ==> mime[0] == 'v'
  {
  }

  /** The evidence type from the MIME type's prefix; since the prefixes
      exclude each other, the order of the tests does not matter. */
  function KindOfMime(mime: string): (r: EvidenceKind)
    ensures r == ImageKind <==> StartsWith(mime, "image/")
    ensures r == DocumentKind <==> StartsWith(mime, "application/pdf")
    ensures r == AudioKind <==> StartsWith(mime, "audio/")
    ensures r == VideoKind <==> StartsWith(mime, "video/")
  {
    MimePrefixesExclusive(mime);
    if StartsWith(mime, "image/") then ImageKind
    else if StartsWith(mime, "application/pdf") then DocumentKind
    else if StartsWith(mime, "audio/") then AudioKind
    else if StartsWith(mime, "video/") then VideoKind
    else OtherKind
  }

  function NewEvidence(file: UploadedFile, stamp: Stamp): Evidence {
    Evidence(stamp.id, file.name, stamp.url, KindOfMime(file.mimeType), Officer, stamp.timestamp, "", None)
  }

  /** `files.map(...)`: one evidence item per file, in file order;
      `stamps(i)` is what the browser supplied for the `i`-th file. */
  function EvidenceFromFiles(files: seq<UploadedFile>, stamps: nat -> Stamp): (r: seq<Evidence>)
    ensures |r| == |files|
    ensures forall i :: 0 <= i < |r| ==> r[i] == NewEvidence(files[i], stamps(i))
  {
    seq(|files|, i requires 0 <= i < |files| => NewEvidence(files[i], stamps(i)))
  }

  /** `handleFileChange`. */
  function UploadEvidence(cases: seq<Case>, selected: Option<nat>, files: seq<UploadedFile>, stamps: nat -> Stamp): (r: seq<Case>)
    ensures Ids(r) == Ids(cases)
  {
    if selected.None? then cases
    else
      var f := (c: Case) => c.(evidence := c.evidence + EvidenceFromFiles(files, stamps));
      UpdateCaseKeepsIds(cases, selected.value, f);
      UpdateCase(cases, selected.value, f)
  }

  /** Uploads go after the existing evidence, one per file, with an empty
      description and the type the MIME type gives. */
  lemma UploadAppends(cases: seq<Case>, id: nat, files: seq<UploadedFile>, stamps: nat -> Stamp)
    ensures var r := UploadEvidence(cases, Some(id), files, stamps);
      && |r| == |cases|
      && (forall i :: 0 <= i < |r| && cases[i].id == id ==>
            && |r[i].evidence| == |cases[i].evidence| + |files|
            && r[i].evidence[..|cases[i].evidence|] == cases[i].evidence
            && (forall j :: 0 <= j < |files| ==>
                  var e := r[i].evidence[|cases[i].evidence| + j];
                  e.name == files[j].name && e.kind == KindOfMime(files[j].mimeType)
                  && e.description == "" && e.ocrText == None && e.uploadedBy == "Officer Smith")
            && r[i].(evidence := cases[i].evidence) == cases[i])
      && (forall i :: 0 <= i < |r| && cases[i].id != id ==> r[i] == cases[i])
  {
  }

  /** `evidence.find(e => e.id === id)`. */
  function FindEvidence(evidence: seq<Evidence>, id: string): (r: Option<Evidence>)
    ensures r.None? <==> forall j :: 0 <= j < |evidence| ==> evidence[j].id != id
    ensures r.Some? ==> exists j :: 0 <= j < |evidence| && evidence[j] == r.value && r.value.id == id
                          && forall m :: 0 <= m < j ==> evidence[m].id != id
  {
    if evidence == [] then None
    else if evidence[0].id == id then Some(evidence[0])
    else
      var rest := FindEvidence(evidence[1..], id);
      if rest.Some? then
        var j :| 0 <= j < |evidence[1..]| && evidence[1..][j] == rest.value && rest.value.id == id
                 && forall m :: 0 <= m < j ==> evidence[1..][m].id != id;
        assert evidence[j + 1] == rest.value;
        rest
      else rest
  }

  /** `cases.find(c => c.id === id)`: the selected case as the dashboard
      holds it. */
  function FindCase(cases: seq<Case>, id: nat): (r: Option<Case>)
    ensures r.None? <==> id !in Ids(cases)
    ensures r.Some? ==> r.value in cases && r.value.id == id
  {
    if cases == [] then None
    else if cases[0].id == id then Some(cases[0])
    else
      var rest := FindCase(cases[1..], id);
      assert Ids(cases) == [cases[0].id] + Ids(cases[1..]);
      rest
  }

  /** The object URL `handleRemoveEvidence` releases: that of the first item
      with the id in the selected case, when it is a `blob:` URL. */
  function UrlToRevoke(cases: seq<Case>, selected: Option<nat>, evidenceId: string): (r: Option<string>)
    ensures r.Some? ==> StartsWith(r.value, "blob:")
  {
    if selected.None? then None
    else match FindCase(cases, selected.value)
      case None => None
      case Some(c) =>
        match FindEvidence(c.evidence, evidenceId)
        case Some(e) => if StartsWith(e.url, "blob:") then Some(e.url) else None
        case None => None
  }

  function WithoutEvidence(evidence: seq<Evidence>, evidenceId: string): seq<Evidence> {
    Filter(evidence, (e: Evidence) => e.id != evidenceId)
  }

  /** `handleRemoveEvidence`'s update of the list. */
  function RemoveEvidence(cases: seq<Case>, selected: Option<nat>, evidenceId: string): (r: seq<Case>)
    ensures Ids(r) == Ids(cases)
  {
    if selected.None? then cases
    else
      var f := (c: Case) => c.(evidence := WithoutEvidence(c.evidence, evidenceId));
      UpdateCaseKeepsIds(cases, selected.value, f);
      UpdateCase(cases, selected.value, f)
  }

  /** Removal drops every item with the id and keeps every other item, in
      its order and as often as it was there. */
  lemma RemoveEvidenceEffect(cases: seq<Case>, id: nat, evidenceId: string, i: nat, e: Evidence)
    requires i < |cases|
    ensures var r := RemoveEvidence(cases, Some(id), evidenceId);
      && |r| == |cases|
      && (cases[i].id == id ==>
            r[i].evidence == Filter(cases[i].evidence, (x: Evidence) => x.id != evidenceId)
            && (e in r[i].evidence <==> e in cases[i].evidence && e.id != evidenceId)
            && r[i].(evidence := cases[i].evidence) == cases[i])
      && (cases[i].id != id ==> r[i] == cases[i])
  {
    FilterMembership(cases[i].evidence, (e: Evidence) => e.id != evidenceId, e);
  }

  /** Uploading one file and then removing its (fresh) id gives back the list. */
  lemma UploadThenRemove(cases: seq<Case>, id: nat, file: UploadedFile, stamps: nat -> Stamp)
    requires forall c, e :: c in cases && c.id == id && e in c.evidence ==> e.id != stamps(0).id
    ensures RemoveEvidence(UploadEvidence(cases, Some(id), [file], stamps), Some(id), stamps(0).id) == cases
  {
    var up := UploadEvidence(cases, Some(id), [file], stamps);
    var r := RemoveEvidence(up, Some(id), stamps(0).id);
    var keep := (e: Evidence) => e.id != stamps(0).id;
    forall i | 0 <= i < |cases| && cases[i].id == id
      ensures r[i] == cases[i]
    {
      var old_ := cases[i].evidence;
      var added := EvidenceFromFiles([file], stamps);
      assert up[i].evidence == old_ + added;
      FilterConcat(old_, added, keep);
      FilterKeepsAll(old_, keep);
      assert Filter(added, keep) == [];
    }
  }

  /** Sets the details of the items with the id. */
  function WithDetails(evidence: seq<Evidence>, evidenceId: string, description: string, ocrText: string): seq<Evidence> {
    Map(evidence, (e: Evidence) => if e.id == evidenceId then e.(description := description, ocrText := Some(ocrText)) else e)
  }

  /** `handleSaveEvidenceDetails`. */
  function SaveEvidenceDetails(cases: seq<Case>, selected: Option<nat>, evidenceId: string, description: string, ocrText: string): (r: seq<Case>)
    ensures Ids(r) == Ids(cases)
  {
    if selected.None? then cases
    else
      var f := (c: Case) => c.(evidence := WithDetails(c.evidence, evidenceId, description, ocrText));
      UpdateCaseKeepsIds(cases, selected.value, f);
      UpdateCase(cases, selected.value, f)
  }

  /** Only the description and OCR text of the matching items change. */
  lemma SaveEvidenceDetailsEffect(cases: seq<Case>, id: nat, evidenceId: string, description: string, ocrText: string)
    ensures var r := SaveEvidenceDetails(cases, Some(id), evidenceId, description, ocrText);
      && |r| == |cases|
      && (forall i :: 0 <= i < |r| && cases[i].id == id ==>
            && r[i].(evidence := cases[i].evidence) == cases[i]
            && |r[i].evidence| == |cases[i].evidence|
            && forall j :: 0 <= j < |cases[i].evidence| ==>
                 var before, after := cases[i].evidence[j], r[i].evidence[j];
                 && after.(description := before.description, ocrText := before.ocrText) == before
                 && (before.id == evidenceId ==> after.description == description && after.ocrText == Some(ocrText))
                 && (before.id != evidenceId ==> after == before))
      && (forall i :: 0 <= i < |r| && cases[i].id != id ==> r[i] == cases[i])
  {
  }

  /** Sets the OCR text of the items with the id. */
  function WithOcrText(evidence: seq<Evidence>, evidenceId: string, text: string): seq<Evidence> {
    Map(evidence, (e: Evidence) => if e.id == evidenceId then e.(ocrText := Some(text)) else e)
  }

  /** The write-back of `handleOcrClick`: the oracle's answer (the extracted
      text, or the service's error sentence) becomes the item's OCR text.
      Items whose URL is not a `blob:` URL are never sent. */
  function StoreOcrResult(cases: seq<Case>, selected: Option<nat>, item: Evidence, result: string): (r: seq<Case>)
    ensures Ids(r) == Ids(cases)
  {
    if !StartsWith(item.url, "blob:") || selected.None? then cases
    else
      var f := (c: Case) => c.(evidence := WithOcrText(c.evidence, item.id, result));
      UpdateCaseKeepsIds(cases, selected.value, f);
      UpdateCase(cases, selected.value, f)
  }

  /** For a fresh upload, the items with the id in the cases with the
      selected id get the answer as their OCR text; nothing else changes. */
  lemma StoreOcrResultEffect(cases: seq<Case>, id: nat, item: Evidence, result: string)
    requires StartsWith(item.url, "blob:")
    ensures var r := StoreOcrResult(cases, Some(id), item, result);
      && |r| == |cases|
      && (forall i :: 0 <= i < |r| && cases[i].id == id ==>
            && r[i].(evidence := cases[i].evidence) == cases[i]
            && |r[i].evidence| == |cases[i].evidence|
            && forall j :: 0 <= j < |cases[i].evidence| ==>
                 var before, after := cases[i].evidence[j], r[i].evidence[j];
                 && (before.id == item.id ==> after == before.(ocrText := Some(result)))
                 && (before.id != item.id ==> after == before))
      && (forall i :: 0 <= i < |r| && cases[i].id != id ==> r[i] == cases[i])
  {
  }

  /** A result that arrives after the item was removed changes nothing. */
  lemma OcrAfterRemovalIsNoop(cases: seq<Case>, id: nat, item: Evidence, result: string)
    ensures var removed := RemoveEvidence(cases, Some(id), item.id);
      StoreOcrResult(removed, Some(id), item, result) == removed
  {
    var removed := RemoveEvidence(cases, Some(id), item.id);
    if StartsWith(item.url, "blob:") {
      var r := StoreOcrResult(removed, Some(id), item, result);
      forall i | 0 <= i < |removed| && removed[i].id == id
        ensures r[i] == removed[i]
      {
        var ev := removed[i].evidence;
        forall j | 0 <= j < |ev| ensures ev[j].id != item.id {
          var keep := (e: Evidence) => e.id != item.id;
          assert keep(ev[j]);
        }
        assert WithOcrText(ev, item.id, result) == ev;
      }
    }
  }

  /** OCR is never stored for an item that is not a fresh upload. */
  lemma OcrOnlyForBlobs(cases: seq<Case>, selected: Option<nat>, item: Evidence, result: string)
    requires !StartsWith(item.url, "blob:")
    ensures StoreOcrResult(cases, selected, item, result) == cases
  {
  }

  // ---------------------------------------------------------------- new case

  /** The new-case form, as submitted.  The form always files its
      complainant under the role `Complainant` (line 47) and has no Aadhaar
      input for them (lines 125-127); the case built from it sets that role
      and no Aadhaar number, whatever `complainant` holds. */
  datatype CaseForm = CaseForm(
    firNumber: string,
    firDate: int,
    caseType: string,
    policeStation: string,
    investigatingOfficer: string,
    complainant: Person,
    address: string,
    tags: string,
    description: string)

  /** The new-case form's tags: split on commas, trimmed, empties dropped. */
  function ParseTags(text: string): (r: seq<string>)
    ensures forall i :: 0 <= i < |r| ==> r[i] != [] && ',' !in r[i]
  {
    Filter(Map(Split(text, ','), Trim), (t: string) => t != [])
  }

  /** The edit-mode tags: split on commas and trimmed, empties kept. */
  function ParseEditedTags(text: string): (r: seq<string>)
    ensures |r| == |Split(text, ',')| >= 1
  {
    Map(Split(text, ','), Trim)
  }

  /** The two tag parsers differ only in dropping the empty tags. */
  lemma ParseTagsDropsEmpties(text: string)
    ensures ParseTags(text) == Filter(ParseEditedTags(text), (t: string) => t != [])
  {
  }

  /** Parsed tags are trimmed: no tag starts or ends with white space. */
  lemma ParsedTagsTrimmed(text: string)
    ensures forall t :: t in ParseTags(text) ==> !IsWhitespace(t[0]) && !IsWhitespace(t[|t| - 1])
  {
    var pieces := Map(Split(text, ','), Trim);
    forall t | t in ParseTags(text)
      ensures !IsWhitespace(t[0]) && !IsWhitespace(t[|t| - 1])
    {
      FilterMembership(pieces, (t: string) => t != [], t);
      var k :| 0 <= k < |pieces| && pieces[k] == t;
      TrimEnds(Split(text, ',')[k]);
    }
  }

  /** Splitting the comma-joined list of separator-free pieces gives back the
      pieces. */
  lemma {:induction false} SplitJoin(parts: seq<string>)
    requires |parts| >= 1
    requires forall i :: 0 <= i < |parts| ==> ',' !in parts[i]
    ensures Split(Join(parts, ","), ',') == parts
  {
    if |parts| == 1 {
      SplitNoSeparator(parts[0], ',');
    } else {
      SplitJoin(parts[1..]);
      SplitAfterHead(parts[0], ',', Join(parts[1..], ","));
    }
  }

  /** Tags that are non-empty, comma-free and trimmed survive being joined
      with commas and parsed again. */
  lemma ParseTagsJoin(tags: seq<string>)
    requires |tags| >= 1
    requires forall i :: 0 <= i < |tags| ==> ',' !in tags[i] && IsTrimmedWord(tags[i])
    ensures ParseTags(Join(tags, ",")) == tags
  {
    SplitJoin(tags);
    forall i | 0 <= i < |tags| ensures Trim(tags[i]) == tags[i] {
      TrimOfTrimmed(tags[i]);
    }
    assert Map(tags, Trim) == tags;
    FilterKeepsAll(tags, (t: string) => t != []);
  }

  lemma SplitDoubleComma(a: string, b: string)
    requires ',' !in a && ',' !in b
    ensures Split(a + ",," + b, ',') == [a, "", b]
  {
    SplitAfterHead(a, ',', "," + b);
    assert a + [','] + ("," + b) == a + ",," + b;
    SplitAfterHead("", ',', b);
    assert "" + [','] + b == "," + b;
    SplitNoSeparator(b, ',');
  }

  /** Edit mode keeps an empty tag between two commas. */
  lemma EditedTagsKeepEmpties(a: string, b: string)
    requires ',' !in a && ',' !in b && IsTrimmedWord(a) && IsTrimmedWord(b)
    ensures ParseEditedTags(a + ",," + b) == [a, "", b]
  {
    SplitDoubleComma(a, b);
    TrimOfTrimmed(a);
    TrimOfTrimmed(b);
    var r := ParseEditedTags(a + ",," + b);
    assert |r| == 3 && r[0] == Trim(a) && r[1] == Trim("") && r[2] == Trim(b);
  }

  /** The new-case form drops it. */
  lemma NewCaseTagsDropEmpties(a: string, b: string)
    requires ',' !in a && ',' !in b && IsTrimmedWord(a) && IsTrimmedWord(b)
    ensures ParseTags(a + ",," + b) == [a, b]
  {
    EditedTagsKeepEmpties(a, b);
    ParseTagsDropsEmpties(a + ",," + b);
    var keep := (t: string) => t != [];
    FilterCons(a, ["", b], keep);
    FilterCons("", [b], keep);
    FilterCons(b, [], keep);
  }

  /** The case `handleSaveNewCase` builds from the form. */
  function NewCase(form: CaseForm, id: nat): Case {
    Case(id, form.firNumber, form.firDate, form.caseType, UnderInvestigation,
         form.policeStation, form.investigatingOfficer,
         form.complainant.(role := Complainant, aadhaarId := None),
         [], None, [], None, Location(form.address, None, None),
         ParseTags(form.tags), form.description, [], [])
  }

  /** `handleSaveNewCase`: the new case goes in front of the list. */
  function SaveNewCase(cases: seq<Case>, form: CaseForm, id: nat): (r: seq<Case>)
    ensures Ids(r) == [id] + Ids(cases)
  {
    var r := [NewCase(form, id)] + cases;
    assert forall i :: 1 <= i < |r| ==> r[i] == cases[i - 1];
    r
  }

  /** The new case is under investigation and starts with nothing attached;
      the old cases follow in their order. */
  lemma SaveNewCaseEffect(cases: seq<Case>, form: CaseForm, id: nat)
    ensures var r := SaveNewCase(cases, form, id);
      && |r| == |cases| + 1 && r[1..] == cases
      && r[0].id == id && r[0].status == UnderInvestigation
      && r[0].involvedPersons == [] && r[0].hearings == []
      && r[0].evidence == [] && r[0].internalNotes == []
      && r[0].tags == ParseTags(form.tags)
      && r[0].complainant == form.complainant.(role := Complainant, aadhaarId := None)
  {
  }

  // ---------------------------------------------------------------- edit mode

  /** The fields edit mode offers, with the typed value. */
  datatype CaseEdit =
    | SetCaseType(caseType: string)
    | SetOfficer(officer: string)
    | SetLocation(address: string)
    | SetDescription(description: string)
    | SetTags(tags: string)

  /** `handleEditableCaseChange`. */
  function ApplyEdit(c: Case, edit: CaseEdit): (r: Case)
    ensures r.id == c.id
  {
    match edit
    case SetCaseType(v) => c.(caseType := v)
    case SetOfficer(v) => c.(investigatingOfficer := v)
    case SetLocation(v) => c.(location := Location(v, None, None))
    case SetDescription(v) => c.(description := v)
    case SetTags(v) => c.(tags := ParseEditedTags(v))
  }

  /** Editing the location keeps only the address: the coordinates are lost. */
  lemma EditLocationDropsCoordinates(c: Case, address: string)
    ensures ApplyEdit(c, SetLocation(address)).location == Location(address, None, None)
    ensures ApplyEdit(c, SetLocation(address)).(location := c.location) == c
  {
  }

  /** Saving edit mode: every case with the edited id is replaced whole. */
  function SaveEdit(cases: seq<Case>, edited: Case): (r: seq<Case>)
    ensures Ids(r) == Ids(cases)
  {
    var f := (c: Case) => if c.id == edited.id then edited else c;
    UpdateCaseKeepsIds(cases, edited.id, f);
    UpdateCase(cases, edited.id, f)
  }

  lemma SaveEditEffect(cases: seq<Case>, edited: Case)
    ensures var r := SaveEdit(cases, edited);
      && |r| == |cases|
      && (forall i :: 0 <= i < |r| ==> r[i] == (if cases[i].id == edited.id then edited else cases[i]))
  {
  }

  // ---------------------------------------------------------------- court

  datatype CourtField = CourtName | CaseNumber | Judge | Prosecutor | DefenseLawyer

  const NoCourtDetails := CourtDetails(None, None, None, None, None)

  /** Reads one field of the court details, as the inputs at lines 615-619
      show it. */
  function CourtGet(d: CourtDetails, field: CourtField): Option<string> {
    match field
    case CourtName => d.courtName
    case CaseNumber => d.caseNumber
    case Judge => d.judge
    case Prosecutor => d.prosecutor
    case DefenseLawyer => d.defenseLawyer
  }

  /** Court details that agree on every field are the same details, so the
      fields read by `CourtGet` describe a record completely. */
  lemma CourtGetDetermines(a: CourtDetails, b: CourtDetails)
    requires forall f :: CourtGet(a, f) == CourtGet(b, f)
    ensures a == b
  {
    assert CourtGet(a, CourtName) == CourtGet(b, CourtName);
    assert CourtGet(a, CaseNumber) == CourtGet(b, CaseNumber);
    assert CourtGet(a, Judge) == CourtGet(b, Judge);
    assert CourtGet(a, Prosecutor) == CourtGet(b, Prosecutor);
    assert CourtGet(a, DefenseLawyer) == CourtGet(b, DefenseLawyer);
  }

  /** `setEditableCourtDetails(prev => ({...prev!, [field]: value}))`: the
      typed field holds the value and every other field is as before; with
      nothing before, the other fields are absent. */
  function SetCourtField(details: Option<CourtDetails>, field: CourtField, value: string): (r: CourtDetails)
    ensures CourtGet(r, field) == Some(value)
    ensures forall f :: f != field ==> CourtGet(r, f) == CourtGet(details.GetOr(NoCourtDetails), f)
  {
    var base := details.GetOr(NoCourtDetails);
    match field
    case CourtName => base.(courtName := Some(value))
    case CaseNumber => base.(caseNumber := Some(value))
    case Judge => base.(judge := Some(value))
    case Prosecutor => base.(prosecutor := Some(value))
    case DefenseLawyer => base.(defenseLawyer := Some(value))
  }

  /** `handleSaveCourtDetails`: the details are written as one unit. */
  function SaveCourtDetails(cases: seq<Case>, selected: Option<nat>, details: Option<CourtDetails>): (r: seq<Case>)
    ensures Ids(r) == Ids(cases)
  {
    if selected.None? then cases
    else
      var f := (c: Case) => c.(courtDetails := details);
      UpdateCaseKeepsIds(cases, selected.value, f);
      UpdateCase(cases, selected.value, f)
  }

  /** The selected case's court details become exactly the saved ones. */
  lemma SaveCourtDetailsEffect(cases: seq<Case>, id: nat, details: Option<CourtDetails>)
    ensures var r := SaveCourtDetails(cases, Some(id), details);
      && |r| == |cases|
      && (forall i :: 0 <= i < |r| && cases[i].id == id ==>
            r[i].courtDetails == details && r[i].(courtDetails := cases[i].courtDetails) == cases[i])
      && (forall i :: 0 <= i < |r| && cases[i].id != id ==> r[i] == cases[i])
  {
  }

  /** A later save overwrites an earlier one completely. */
  lemma SaveCourtDetailsOverwrites(cases: seq<Case>, selected: Option<nat>, d1: Option<CourtDetails>, d2: Option<CourtDetails>)
    ensures SaveCourtDetails(SaveCourtDetails(cases, selected, d1), selected, d2)
         == SaveCourtDetails(cases, selected, d2)
  {
  }

  // ---------------------------------------------------------------- hearings

  /** `handleAddHearing`: needs a date and a summary; the next-hearing date is
      taken when given and kept otherwise. */
  function AddHearing(cases: seq<Case>, selected: Option<nat>, hearing: Hearing): (r: seq<Case>)
    ensures Ids(r) == Ids(cases)
  {
    if selected.None? || hearing.date == [] || hearing.summary == [] then cases
    else
      var f := (c: Case) => c.(hearings := c.hearings + [hearing],
                               nextHearingDate := if hearing.nextHearingDate != [] then Some(hearing.nextHearingDate) else c.nextHearingDate);
      UpdateCaseKeepsIds(cases, selected.value, f);
      UpdateCase(cases, selected.value, f)
  }

  /** A hearing without a date or a summary is ignored. */
  lemma IncompleteHearingIsNoop(cases: seq<Case>, selected: Option<nat>, hearing: Hearing)
    requires hearing.date == [] || hearing.summary == []
    ensures AddHearing(cases, selected, hearing) == cases
  {
  }

  /** A complete hearing goes at the end of the hearings. */
  lemma AddHearingEffect(cases: seq<Case>, id: nat, hearing: Hearing)
    requires hearing.date != [] && hearing.summary != []
    ensures var r := AddHearing(cases, Some(id), hearing);
      && |r| == |cases|
      && (forall i :: 0 <= i < |r| && cases[i].id == id ==>
            && r[i].hearings == cases[i].hearings + [hearing]
            && r[i].nextHearingDate == (if hearing.nextHearingDate == [] then cases[i].nextHearingDate else Some(hearing.nextHearingDate))
            && r[i].(hearings := cases[i].hearings, nextHearingDate := cases[i].nextHearingDate) == cases[i])
      && (forall i :: 0 <= i < |r| && cases[i].id != id ==> r[i] == cases[i])
  {
  }
}
