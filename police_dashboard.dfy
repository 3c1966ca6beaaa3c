/** The police dashboard page as a state holder: the stored cases, the
    selection, the text being typed into the note and hearing forms, edit
    mode, and the controls of the queue (pages/PoliceDashboard.tsx,
    `PoliceDashboard`).  Every handler replaces `cases` by what the matching
    function of `CaseWorkflow` computes, so the lemmas proved there are the
    lemmas about these methods.  After a handler has changed the list, the
    selected id or edit mode, the page's synchronisation effect reloads the
    selection and the edit buffers from the list; `Synced` is that effect. */
module PoliceDashboard {
  import opened Common
  import opened Text
  import opened CaseTypes
  import opened CaseQuery
  import opened CaseWorkflow

  const EmptyHearing := Hearing("", "", "")

  /** The part of the page's state the synchronisation effect rewrites: the
      selected case (by id), the case edit buffer and the court-details edit
      buffer. */
  datatype Selection = Selection(selectedId: Option<nat>, editableCase: Option<Case>, editableCourtDetails: Option<CourtDetails>)

  /** The effect at lines 246-255: with a case selected, look it up again in
      the list; the selection is dropped when the case is gone, the case edit
      buffer is reloaded from the list in edit mode, and the court-details
      buffer is always reloaded. */
  function Synced(cases: seq<Case>, isEditMode: bool, s: Selection): (r: Selection)
    ensures s.selectedId.None? ==> r == s
    ensures s.selectedId.Some? ==> (r.selectedId.Some? <==> s.selectedId.value in Ids(cases))
    ensures r.selectedId.Some? ==> r.selectedId == s.selectedId
    ensures r.selectedId.Some? ==>
      exists c :: c in cases && c.id == r.selectedId.value
        && r.editableCourtDetails == c.courtDetails && (isEditMode ==> r.editableCase == Some(c))
    ensures s.selectedId.Some? && r.selectedId.None? ==>
      r.editableCourtDetails.None? && (isEditMode ==> r.editableCase.None?)
    ensures !isEditMode ==> r.editableCase == s.editableCase
  {
    match s.selectedId
    case None => s
    case Some(id) =>
      var found := FindCase(cases, id);
      Selection(if found.Some? then s.selectedId else None,
                if isEditMode then found else s.editableCase,
                if found.Some? then found.value.courtDetails else None)
  }

  /** Running the effect a second time changes nothing. */
  lemma SyncedIdempotent(cases: seq<Case>, isEditMode: bool, s: Selection)
    ensures Synced(cases, isEditMode, Synced(cases, isEditMode, s)) == Synced(cases, isEditMode, s)
  {
    if s.selectedId.Some? && FindCase(cases, s.selectedId.value).None? {
      assert Synced(cases, isEditMode, s).selectedId.None?;
    }
  }

  /** Pending edits do not survive the effect: what it leaves in the court
      buffer, and in edit mode in the case buffer too, depends only on the
      list and the selected id. */
  lemma SyncDiscardsPendingEdits(cases: seq<Case>, isEditMode: bool, s1: Selection, s2: Selection)
    requires s1.selectedId == s2.selectedId && s1.selectedId.Some?
    ensures Synced(cases, isEditMode, s1).editableCourtDetails == Synced(cases, isEditMode, s2).editableCourtDetails
    ensures isEditMode ==> Synced(cases, isEditMode, s1) == Synced(cases, isEditMode, s2)
  {
  }

  /** No two stored cases share an id. */
  predicate UniqueIds(cases: seq<Case>) {
    forall i, j :: 0 <= i < j < |cases| ==> cases[i].id != cases[j].id
  }

  /** Entering edit mode loads the stored case into the buffer, so saving the
      buffer unchanged leaves the list as it is (when ids are unique). */
  lemma {:induction false} SaveOfReloadedBufferKeepsList(cases: seq<Case>, s: Selection)
    requires UniqueIds(cases)
    requires s.selectedId.Some? && s.selectedId.value in Ids(cases)
    ensures var b := Synced(cases, true, s).editableCase;
      b.Some? && SaveEdit(cases, b.value) == cases
  {
    var b := FindCase(cases, s.selectedId.value).value;
    var k :| 0 <= k < |cases| && cases[k] == b;
    SaveEditEffect(cases, b);
    var r := SaveEdit(cases, b);
    forall i | 0 <= i < |cases| ensures r[i] == cases[i] {
      if cases[i].id == b.id {
        assert i == k;
      }
    }
  }

  /** A note added while the case is in edit mode is reloaded into the
      buffer, so saving the edit keeps it. */
  lemma NoteSurvivesEditSave(cases: seq<Case>, s: Selection, text: string, timestamp: string)
    requires UniqueIds(cases)
    requires s.selectedId.Some? && s.selectedId.value in Ids(cases)
    requires !IsBlank(text)
    ensures var after := AddNote(cases, s.selectedId, text, timestamp);
      var b := Synced(after, true, s).editableCase;
      && b.Some? && SaveEdit(after, b.value) == after
      && Note(text, "Officer Smith", timestamp) in b.value.internalNotes
  {
    var id := s.selectedId.value;
    var after := AddNote(cases, s.selectedId, text, timestamp);
    AddNoteAppends(cases, id, text, timestamp);
    assert Ids(after) == Ids(cases);
    forall i, j | 0 <= i < j < |after| ensures after[i].id != after[j].id {
      assert after[i].id == Ids(after)[i] && after[j].id == Ids(after)[j];
    }
    SaveOfReloadedBufferKeepsList(after, s);
    var b := FindCase(after, id).value;
    var k :| 0 <= k < |after| && after[k] == b;
    assert cases[k].id == id;
    assert b.internalNotes == cases[k].internalNotes + [Note(text, "Officer Smith", timestamp)];
    assert b.internalNotes[|b.internalNotes| - 1] == Note(text, "Officer Smith", timestamp);
  }

  class Dashboard {
    var cases: seq<Case>
    var selectedId: Option<nat>
    var newNote: string
    var newHearing: Hearing
    var isEditMode: bool
    var editableCase: Option<Case>
    var isCourtDetailsEditMode: bool
    var editableCourtDetails: Option<CourtDetails>
    var filterStatus: StatusFilter
    var sortKey: SortKey
    var searchQuery: string

    /** The state the synchronisation effect rewrites. */
    function CurrentSelection(): Selection
      reads this
    {
      Selection(selectedId, editableCase, editableCourtDetails)
    }

    /** The page as it opens on the stored cases. */
    constructor(stored: seq<Case>)
      ensures cases == stored && selectedId == None
      ensures newNote == "" && newHearing == EmptyHearing
      ensures !isEditMode && editableCase == None
      ensures !isCourtDetailsEditMode && editableCourtDetails == None
      ensures filterStatus == AllStatuses && sortKey == ByFirDate && searchQuery == ""
    {
      cases := stored;
      selectedId := None;
      newNote := "";
      newHearing := EmptyHearing;
      isEditMode := false;
      editableCase := None;
      isCourtDetailsEditMode := false;
      editableCourtDetails := None;
      filterStatus := AllStatuses;
      sortKey := ByFirDate;
      searchQuery := "";
    }

    /** The queue on screen.  With `'All'` and a blank search it shows every
        stored case. */
    function Queue(): (r: seq<Case>)
      reads this
      ensures filterStatus == AllStatuses && IsBlank(searchQuery) ==> multiset(r) == multiset(cases)
    {
      if filterStatus == AllStatuses && IsBlank(searchQuery) then
        FilterAllKeepsEverything(cases);
        BlankSearchKeepsEverything(cases, searchQuery);
        VisibleCases(cases, filterStatus, searchQuery, sortKey)
      else
        VisibleCases(cases, filterStatus, searchQuery, sortKey)
    }

    method SetFilterStatus(filter: StatusFilter)
      modifies this`filterStatus
      ensures filterStatus == filter
      ensures Queue() == VisibleCases(cases, filter, searchQuery, sortKey)
    {
      filterStatus := filter;
    }

    method SetSortKey(key: SortKey)
      modifies this`sortKey
      ensures sortKey == key
      ensures Queue() == VisibleCases(cases, filterStatus, searchQuery, key)
    {
      sortKey := key;
    }

    method SetSearchQuery(query: string)
      modifies this`searchQuery
      ensures searchQuery == query
      ensures Queue() == VisibleCases(cases, filterStatus, query, sortKey)
    {
      searchQuery := query;
    }

    /** The synchronisation effect, run after a render in which the list,
        the selected id or edit mode changed. */
    method Sync()
      modifies this`selectedId, this`editableCase, this`editableCourtDetails
      ensures CurrentSelection() == Synced(cases, isEditMode, old(CurrentSelection()))
    {
      var s := Synced(cases, isEditMode, CurrentSelection());
      selectedId, editableCase, editableCourtDetails := s.selectedId, s.editableCase, s.editableCourtDetails;
    }

    /** Clicking a case in the queue selects it and leaves edit mode, with the
        edit buffer holding the case; when that changed the selected id or
        edit mode, the effect then loads the case's court details. */
    method SelectCase(c: Case)
      requires c in cases
      modifies this`selectedId, this`isEditMode, this`editableCase, this`editableCourtDetails
      ensures selectedId == Some(c.id) && !isEditMode && editableCase == Some(c)
      ensures CurrentSelection() ==
        if old(selectedId) == Some(c.id) && !old(isEditMode) then old(CurrentSelection()).(editableCase := Some(c))
        else Synced(cases, false, Selection(Some(c.id), Some(c), old(editableCourtDetails)))
      ensures old(selectedId) != Some(c.id) ==>
        exists d :: d in cases && d.id == c.id && editableCourtDetails == d.courtDetails
    {
      var changed := selectedId != Some(c.id) || isEditMode;
      selectedId := Some(c.id);
      isEditMode := false;
      editableCase := Some(c);
      assert c.id in Ids(cases);
      if changed {
        Sync();
      }
    }

    /** `handleStatusChange`. */
    method ChangeStatus(id: nat, s: CaseStatus)
      modifies this`cases, this`selectedId, this`editableCase, this`editableCourtDetails
      ensures cases == SetStatus(old(cases), id, s)
      ensures CurrentSelection() == Synced(cases, isEditMode, old(CurrentSelection()))
    {
      cases := SetStatus(cases, id, s);
      Sync();
    }

    method TypeNote(text: string)
      modifies this`newNote
      ensures newNote == text
    {
      newNote := text;
    }

    /** `handleAddNote`: the typed note is cleared only when it was added. */
    method AddNoteClicked(timestamp: string)
      modifies this`cases, this`newNote, this`selectedId, this`editableCase, this`editableCourtDetails
      ensures cases == AddNote(old(cases), old(selectedId), old(newNote), timestamp)
      ensures newNote == if old(selectedId).None? || IsBlank(old(newNote)) then old(newNote) else ""
      ensures CurrentSelection() == if IsBlank(old(newNote)) then old(CurrentSelection())
                                    else Synced(cases, isEditMode, old(CurrentSelection()))
    {
      TrimEmptyIffBlank(newNote);
      if selectedId.None? || Trim(newNote) == [] {
        return;
      }
      cases := AddNote(cases, selectedId, newNote, timestamp);
      newNote := "";
      Sync();
    }

    /** `handleFileChange`. */
    method UploadFiles(files: seq<UploadedFile>, stamps: nat -> Stamp)
      modifies this`cases, this`selectedId, this`editableCase, this`editableCourtDetails
      ensures cases == UploadEvidence(old(cases), old(selectedId), files, stamps)
      ensures CurrentSelection() == Synced(cases, isEditMode, old(CurrentSelection()))
    {
      if selectedId.None? {
        return;
      }
      cases := UploadEvidence(cases, selectedId, files, stamps);
      Sync();
    }

    /** `handleRemoveEvidence`; `revoked` is the object URL it releases. */
    method RemoveEvidenceClicked(evidenceId: string) returns (revoked: Option<string>)
      modifies this`cases, this`selectedId, this`editableCase, this`editableCourtDetails
      ensures revoked == UrlToRevoke(old(cases), old(selectedId), evidenceId)
      ensures cases == RemoveEvidence(old(cases), old(selectedId), evidenceId)
      ensures CurrentSelection() == Synced(cases, isEditMode, old(CurrentSelection()))
    {
      revoked := UrlToRevoke(cases, selectedId, evidenceId);
      if selectedId.None? {
        return;
      }
      cases := RemoveEvidence(cases, selectedId, evidenceId);
      Sync();
    }

    /** `handleSaveEvidenceDetails`. */
    method SaveEvidenceDetailsClicked(evidenceId: string, description: string, ocrText: string)
      modifies this`cases, this`selectedId, this`editableCase, this`editableCourtDetails
      ensures cases == SaveEvidenceDetails(old(cases), old(selectedId), evidenceId, description, ocrText)
      ensures CurrentSelection() == Synced(cases, isEditMode, old(CurrentSelection()))
    {
      if selectedId.None? {
        return;
      }
      cases := SaveEvidenceDetails(cases, selectedId, evidenceId, description, ocrText);
      Sync();
    }

    /** The write-back at the end of `handleOcrClick`, with the oracle's
        answer as `result`.  The handler keeps the case that was selected
        when OCR was clicked, `clickedId`, and writes to that case even if
        another one is selected by the time the answer arrives. */
    method OcrCompleted(clickedId: Option<nat>, item: Evidence, result: string)
      modifies this`cases, this`selectedId, this`editableCase, this`editableCourtDetails
      ensures cases == StoreOcrResult(old(cases), clickedId, item, result)
      ensures CurrentSelection() == if clickedId.Some? && StartsWith(item.url, "blob:")
                                    then Synced(cases, isEditMode, old(CurrentSelection()))
                                    else old(CurrentSelection())
    {
      if clickedId.None? || !StartsWith(item.url, "blob:") {
        return;
      }
      cases := StoreOcrResult(cases, clickedId, item, result);
      Sync();
    }

    /** `handleSaveNewCase` with the time-based id `id`: the new case is put
        first and selected. */
    method SaveNewCaseClicked(form: CaseForm, id: nat)
      modifies this`cases, this`selectedId, this`editableCase, this`editableCourtDetails
      ensures cases == SaveNewCase(old(cases), form, id)
      ensures CurrentSelection() == Synced(cases, isEditMode, old(CurrentSelection()).(selectedId := Some(id)))
      ensures selectedId == Some(id) && editableCourtDetails == cases[0].courtDetails
      ensures isEditMode ==> editableCase == Some(cases[0])
    {
      cases := SaveNewCase(cases, form, id);
      selectedId := Some(id);
      Sync();
    }

    /** `handleToggleEditMode`: leaving edit mode saves the buffer; entering
        it lets the effect load the stored case into the buffer. */
    method ToggleEditMode()
      modifies this`cases, this`isEditMode, this`selectedId, this`editableCase, this`editableCourtDetails
      ensures cases == if old(isEditMode) && old(editableCase).Some? then SaveEdit(old(cases), old(editableCase).value) else old(cases)
      ensures isEditMode == !old(isEditMode)
      ensures CurrentSelection() == Synced(cases, isEditMode, old(CurrentSelection()))
    {
      if isEditMode && editableCase.Some? {
        cases := SaveEdit(cases, editableCase.value);
      }
      isEditMode := !isEditMode;
      Sync();
    }

    /** `handleEditableCaseChange`: nothing happens without a buffer. */
    method EditCaseField(edit: CaseEdit)
      modifies this`editableCase
      ensures editableCase == if old(editableCase).None? then None else Some(ApplyEdit(old(editableCase).value, edit))
      ensures editableCase.Some? ==> editableCase.value.id == old(editableCase).value.id
    {
      if editableCase.Some? {
        editableCase := Some(ApplyEdit(editableCase.value, edit));
      }
    }

    method ToggleCourtDetailsEditMode()
      modifies this`isCourtDetailsEditMode
      ensures isCourtDetailsEditMode == !old(isCourtDetailsEditMode)
    {
      isCourtDetailsEditMode := !isCourtDetailsEditMode;
    }

    /** Typing into one of the court-detail inputs. */
    method EditCourtField(field: CourtField, value: string)
      modifies this`editableCourtDetails
      ensures editableCourtDetails == Some(SetCourtField(old(editableCourtDetails), field, value))
    {
      editableCourtDetails := Some(SetCourtField(editableCourtDetails, field, value));
    }

    /** `handleSaveCourtDetails`: the saved details stay in the buffer. */
    method SaveCourtDetailsClicked()
      modifies this`cases, this`isCourtDetailsEditMode, this`selectedId, this`editableCase, this`editableCourtDetails
      ensures cases == SaveCourtDetails(old(cases), old(selectedId), old(editableCourtDetails))
      ensures isCourtDetailsEditMode == if old(selectedId).None? then old(isCourtDetailsEditMode) else false
      ensures CurrentSelection() == Synced(cases, isEditMode, old(CurrentSelection()))
      ensures old(selectedId).Some? && old(selectedId).value in Ids(old(cases)) ==>
        editableCourtDetails == old(editableCourtDetails)
    {
      if selectedId.None? {
        return;
      }
      var saved := editableCourtDetails;
      SaveCourtDetailsEffect(cases, selectedId.value, saved);
      cases := SaveCourtDetails(cases, selectedId, saved);
      isCourtDetailsEditMode := false;
      Sync();
    }

    method TypeHearing(hearing: Hearing)
      modifies this`newHearing
      ensures newHearing == hearing
    {
      newHearing := hearing;
    }

    /** `handleAddHearing`: the form is cleared only when the hearing was added. */
    method AddHearingClicked()
      modifies this`cases, this`newHearing, this`selectedId, this`editableCase, this`editableCourtDetails
      ensures cases == AddHearing(old(cases), old(selectedId), old(newHearing))
      ensures newHearing == if old(selectedId).None? || old(newHearing).date == [] || old(newHearing).summary == []
                            then old(newHearing) else EmptyHearing
      ensures CurrentSelection() == if old(newHearing).date == [] || old(newHearing).summary == []
                                    then old(CurrentSelection())
                                    else Synced(cases, isEditMode, old(CurrentSelection()))
    {
      if selectedId.None? || newHearing.date == [] || newHearing.summary == [] {
        return;
      }
      cases := AddHearing(cases, selectedId, newHearing);
      newHearing := EmptyHearing;
      Sync();
    }
  }
}
