# Civil score and police case portal, modelled in Dafny

The application is a browser demo with two sides:

- **Citizens** sign in with their Aadhaar number. They see a civil score computed from their activity history, browse the catalogue of score-raising activities, report a crime, and keep a profile they can share by QR code.
- **Police officers** sign in with an officer id and password. They work a queue of criminal cases. In the police dashboard an officer filters, searches and sorts the queue, and for the selected case:
  - changes its status;
  - adds internal notes;
  - uploads, removes and annotates evidence (with text recognition on uploaded images);
  - creates new cases;
  - edits case details and court details;
  - records hearings.

  An admin page reviews activity submissions in a two-step approval.

This project models those behaviours and proves what each one promises.

| File | Module | Models |
|---|---|---|
| `common.dfy` | `Common` | `Option`; `filter`, `map` and `reverse` with their algebra |
| `sorting.dfy` | `Sorting` | `Array.prototype.sort` with a comparator, as a stable insertion sort: sorted, a permutation, stable |
| `text.dfy` | `Text` | `trim`, `\s` and `\d`, ASCII case mapping, `includes`, `split`/`join`, decimal printing, `localeCompare` as code-point order |
| `case_types.dfy` | `CaseTypes` | cases, people, evidence, notes, hearings, court details |
| `case_query.dfy` | `CaseQuery` | the dashboard's status filter, free-text search and sort |
| `case_workflow.dfy` | `CaseWorkflow` | each dashboard handler as a function from the old case list to the new one |
| `police_dashboard.dfy` | `PoliceDashboard` | the dashboard's state as a class, with one method per handler |
| `aadhaar.dfy` | `Aadhaar` | the Aadhaar input mask shared by the report form and the sign-in page |
| `report_crime.dfy` | `ReportCrime` | the citizen's crime report and the case it builds |
| `auth.dfy` | `Auth` | the signed-in user: citizen sign-in, officer sign-in, sign-out |
| `login.dfy` | `LoginPage` | the citizen sign-in page |
| `civil_score.dfy` | `CivilScore` | the civil score, its tier and its breakdown |
| `activities.dfy` | `Activities` | the activity catalogue's category filter, title sort and category list |
| `admin_dashboard.dfy` | `AdminDashboard` | the review queue and its two-step approval |
| `image_crop.dfy` | `ImageCrop` | the centre crop of a profile photo |
| `profile.dfy` | `Profile` | the profile page's saved profile, edit copy and QR value |
| `share_qr.dfy` | `ShareQR` | the public profile link the share dialog copies |

**How the state is modelled.** Pages whose handlers update state become classes whose methods say what their new state is:

- the police dashboard;
- the report form;
- the sign-in page;
- the signed-in user;
- the admin queue;
- the profile page.

**How the pure parts are modelled.** The query pipeline, the case-list updates, the Aadhaar mask and the catalogue are functions, with lemmas about them.

**Sorting and loops.** The `Array.prototype.sort` calls are modelled by one stable insertion sort. It is proved sorted by the comparator, a permutation of its input, and stable.

The civil score's `forEach` loop is a method with a loop invariant. Its list reversal is an in-place array method.

**Behaviour worth noting:**

- Case ids and evidence ids come from the clock and are not guaranteed unique. Every handler rewrites *every* case carrying the targeted id.
- A blank note, or an action with no case selected, is silently ignored, not reported as an error. The hearing form's date and summary are `required` inputs, so the browser itself refuses an incomplete hearing; the handler's own guard ignores one that reaches it.
- Beyond the browser's non-empty check on the new-case form's `required` fields (FIR number, date, station, officer, the complainant's name, contact and address, the location and the description), a new case is created without any check on its fields.
- Status changes are unrestricted: any status can follow any other.

## Model

| member | source | states |
|---|---|---|
| Common.Filter | pages/PoliceDashboard.tsx:259 | `filter` returns no more elements than it was given; every element it returns passes the test and was in the input |
| Common.FilterMembership | pages/PoliceDashboard.tsx:259 | an element is in the filtered list exactly when it was in the list and passes the test |
| Common.FilterKeepsAll | pages/PoliceDashboard.tsx:259 | a filter that every element passes returns the list unchanged |
| Common.FilterDropsAll | pages/PoliceDashboard.tsx:327 | a filter that no element passes returns the empty list |
| Common.FilterShorter | pages/AdminDashboard.tsx:34 | the filtered list is shorter exactly when some element fails the test |
| Common.FilterConcat | pages/PoliceDashboard.tsx:259 | filtering a concatenation filters each part in place, so relative order is kept |
| Common.FilterFilter | pages/PoliceDashboard.tsx:259-272 | two filters in a row filter by the conjunction, in either order |
| Common.FilterSubMultiset | pages/PoliceDashboard.tsx:259 | filtering only removes occurrences |
| Common.FilterPartition | hooks/useCivilScore.ts:54-66 | three mutually exclusive and exhaustive tests split the elements between them, each occurrence exactly once |
| Common.Map | pages/PoliceDashboard.tsx:284 | `map` keeps the length and applies the function at every position |
| Common.ReverseAt | hooks/useCivilScore.ts:97-98 | the reverse has the same length and reads the input back to front |
| Sorting.Insert | pages/PoliceDashboard.tsx:273-281 | inserting adds exactly that one element |
| Sorting.SortBy | pages/PoliceDashboard.tsx:273-281 | the sort returns a permutation of its input |
| Sorting.InsertSorted | pages/PoliceDashboard.tsx:273-281 | with a total-preorder comparator, inserting into a sorted list keeps it sorted |
| Sorting.SortBySorted | pages/PoliceDashboard.tsx:273-281 | with a total-preorder comparator, the result is ordered by the comparator |
| Sorting.InsertTies | pages/PoliceDashboard.tsx:273-281 | an inserted element goes ahead of every element it ties with |
| Sorting.SortByStable | pages/PoliceDashboard.tsx:273-281 | stability: within each class of tied elements the input order survives the sort |
| Sorting.SortByAllTies | pages/Activities.tsx:103-107 | a comparator that always answers 0 leaves the list as it was |
| Text.TrimStart | pages/PoliceDashboard.tsx:261 | the result is a suffix of the input that does not start with white space; everything dropped is white space |
| Text.TrimEnd | pages/PoliceDashboard.tsx:261 | the result is a prefix of the input that does not end with white space; everything dropped is white space |
| Text.TrimEmptyIffBlank | pages/PoliceDashboard.tsx:261 | a string trims to nothing exactly when it is all white space |
| Text.TrimEnds | pages/PoliceDashboard.tsx:81 | a trimmed string neither starts nor ends with white space |
| Text.TrimOfTrimmed | pages/PoliceDashboard.tsx:81 | trimming a word without outer white space leaves it unchanged |
| Text.TrimStartBlank | contexts/AuthContext.tsx:41 | blank padding in front of a word is removed by the leading trim |
| Text.TrimEndBlank | contexts/AuthContext.tsx:41 | blank padding after a word is removed by the trailing trim |
| Text.TrimStartPadded | contexts/AuthContext.tsx:41 | the leading trim of padding, word and tail keeps the word and the tail |
| Text.TrimBlankPadding | contexts/AuthContext.tsx:41-42 | a word with blank padding on both sides trims to the word |
| Text.IncludesWitness | pages/PoliceDashboard.tsx:264-270 | when `includes` holds, there is a position where the needle occurs |
| Text.OccursIncludes | pages/PoliceDashboard.tsx:264-270 | an occurrence at any position makes `includes` hold |
| Text.IncludesIff | pages/PoliceDashboard.tsx:264-270 | `includes` holds exactly when the needle occurs at some position |
| Text.IncludesEmpty | pages/PoliceDashboard.tsx:264-270 | every text includes the empty query |
| Text.Split | pages/PoliceDashboard.tsx:81 | `split` returns at least one piece, and no piece contains the separator |
| Text.JoinSplit | pages/PoliceDashboard.tsx:81 | joining the pieces with the separator gives back the string |
| Text.SplitAfterHead | pages/PoliceDashboard.tsx:81 | a separator-free head followed by the separator is split off as the first piece |
| Text.SplitNoSeparator | pages/PoliceDashboard.tsx:81 | a string without the separator splits into itself alone |
| Text.SplitFirstPiece | components/ShareQRModal.tsx:19 | the first piece is exactly the text before the first separator |
| Text.NatToDecimal | pages/PoliceDashboard.tsx:270 | `String(id)` is a non-empty string of digits without a leading zero |
| Text.DecimalRoundTrip | pages/PoliceDashboard.tsx:270 | reading the decimal string back gives the number |
| Text.LexCompare | pages/PoliceDashboard.tsx:276 | the comparison answers -1, 0 or 1 |
| Text.LexCompareAntisymmetric | pages/PoliceDashboard.tsx:276 | swapping the arguments negates the answer |
| Text.LexCompareZero | pages/PoliceDashboard.tsx:276 | the comparison answers 0 exactly for equal strings |
| Text.LexCompareTransitive | pages/PoliceDashboard.tsx:276 | "not after" is transitive |
| Text.LexCompareValid | pages/PoliceDashboard.tsx:276 | the comparison is a total preorder in which only equal strings tie |
| CaseTypes.Ids | pages/PoliceDashboard.tsx:284 | the list of case ids, position by position |
| CaseQuery.VisibleCases | pages/PoliceDashboard.tsx:258-281 | the visible queue is a permutation of the cases that pass the status filter and the search |
| CaseQuery.FilterAllKeepsEverything | pages/PoliceDashboard.tsx:259 | the status filter `'All'` keeps every case, in order |
| CaseQuery.FilterStatusMembership | pages/PoliceDashboard.tsx:259 | a status keeps exactly the cases in that status |
| CaseQuery.FilterStatusKeepsOrder | pages/PoliceDashboard.tsx:259 | the status filter keeps relative order |
| CaseQuery.BlankSearchKeepsEverything | pages/PoliceDashboard.tsx:261 | a blank or whitespace-only query keeps every case |
| CaseQuery.SearchMembership | pages/PoliceDashboard.tsx:260-272 | a non-blank query keeps exactly the cases that match the lower-cased, trimmed query |
| CaseQuery.MatchFoundInText | pages/PoliceDashboard.tsx:263-271 | a matching case has a searchable text that includes the query |
| CaseQuery.TextFoundMatches | pages/PoliceDashboard.tsx:263-271 | a searchable text that includes the query makes the case match |
| CaseQuery.MatchesQueryIff | pages/PoliceDashboard.tsx:262-271 | a case matches exactly when the query occurs in one of: its description, address, complainant name, case type, FIR number or any involved person's name (each lower-cased), or its decimal id |
| CaseQuery.SearchAndStatusCommute | pages/PoliceDashboard.tsx:259-272 | the status filter and the search may be applied in either order |
| CaseQuery.FirDateCompareValid | pages/PoliceDashboard.tsx:279 | the FIR-date comparator is a total preorder; cases tie exactly at equal FIR time |
| CaseQuery.CaseTypeCompareValid | pages/PoliceDashboard.tsx:276 | the case-type comparator is a total preorder; cases tie exactly at equal type |
| CaseQuery.CaseCompareValid | pages/PoliceDashboard.tsx:273-281 | both sort keys give a total preorder |
| CaseQuery.VisibleMembership | pages/PoliceDashboard.tsx:258-281 | a case is visible exactly when it is stored, passes the status filter, and the query is blank or matched |
| CaseQuery.VisibleNewestFirst | pages/PoliceDashboard.tsx:277-279 | sorted by FIR date, the queue is newest first |
| CaseQuery.VisibleByCaseTypeAscending | pages/PoliceDashboard.tsx:275-276 | sorted by case type, the queue is in ascending type order |
| CaseQuery.VisibleStable | pages/PoliceDashboard.tsx:273-281 | cases with equal keys keep their order from before the sort |
| CaseWorkflow.UpdateCase | pages/PoliceDashboard.tsx:284 | `cases.map(c => c.id === id ? f(c) : c)` rewrites every case with the id and only those |
| CaseWorkflow.UpdateCaseKeepsIds | pages/PoliceDashboard.tsx:284 | a rewrite that keeps ids keeps the list of ids |
| CaseWorkflow.SetStatus | pages/PoliceDashboard.tsx:283-284 | a status change keeps the list of case ids |
| CaseWorkflow.SetStatusEffect | pages/PoliceDashboard.tsx:283-284 | exactly the cases with the id get the new status, from any status; no other field or case changes |
| CaseWorkflow.SetStatusTwice | pages/PoliceDashboard.tsx:284 | the last status set wins |
| CaseWorkflow.AddNote | pages/PoliceDashboard.tsx:289-296 | adding a note keeps the list of case ids |
| CaseWorkflow.AddBlankNoteIsNoop | pages/PoliceDashboard.tsx:290 | a blank note changes nothing |
| CaseWorkflow.AddNoteAppends | pages/PoliceDashboard.tsx:291-296 | a non-blank note is appended, with its text as typed and author `Officer Smith`, at the end of the selected case's notes; nothing else changes |
| CaseWorkflow.MimePrefixesExclusive | pages/PoliceDashboard.tsx:311 | no MIME type starts with two of the prefixes it is compared against |
| CaseWorkflow.KindOfMime | pages/PoliceDashboard.tsx:311 | the evidence type is image, document, audio or video exactly when the MIME type has the matching prefix |
| CaseWorkflow.EvidenceFromFiles | pages/PoliceDashboard.tsx:307-315 | one evidence item per file, in file order |
| CaseWorkflow.UploadEvidence | pages/PoliceDashboard.tsx:302-317 | an upload keeps the list of case ids |
| CaseWorkflow.UploadAppends | pages/PoliceDashboard.tsx:307-317 | the uploads go after the existing evidence, one per file in order, with an empty description, no OCR text, uploader `Officer Smith` and the type given by the MIME type; nothing else changes |
| CaseWorkflow.FindEvidence | pages/PoliceDashboard.tsx:323 | `find` returns an item with the id from the list, and nothing exactly when no item has it |
| CaseWorkflow.FindCase | pages/PoliceDashboard.tsx:248 | the selected case as held in the list: a stored case with the id, and nothing exactly when no case has it |
| CaseWorkflow.UrlToRevoke | pages/PoliceDashboard.tsx:323-326 | the URL released on removal, when there is one, is a `blob:` URL |
| CaseWorkflow.RemoveEvidence | pages/PoliceDashboard.tsx:321-327 | removal keeps the list of case ids |
| CaseWorkflow.RemoveEvidenceEffect | pages/PoliceDashboard.tsx:327 | the selected case's evidence becomes exactly its items without the id, in their order and as often as they were there; other fields and cases are unchanged |
| CaseWorkflow.UploadThenRemove | pages/PoliceDashboard.tsx:317-327 | uploading one file and then removing its fresh id gives back the list |
| CaseWorkflow.SaveEvidenceDetails | pages/PoliceDashboard.tsx:330-341 | saving details keeps the list of case ids |
| CaseWorkflow.SaveEvidenceDetailsEffect | pages/PoliceDashboard.tsx:332-341 | only the description and OCR text of the matching items change |
| CaseWorkflow.StoreOcrResult | pages/PoliceDashboard.tsx:364-370 | storing an OCR result keeps the list of case ids |
| CaseWorkflow.OcrAfterRemovalIsNoop | pages/PoliceDashboard.tsx:364-370 | a result that arrives after the item was removed changes nothing |
| CaseWorkflow.StoreOcrResultEffect | pages/PoliceDashboard.tsx:364-370 | for a `blob:` item, every item with its id in every case with the id gets the result as its OCR text; every other item, field and case is unchanged |
| CaseWorkflow.OcrOnlyForBlobs | pages/PoliceDashboard.tsx:348-351 | no OCR text is stored for an item whose URL is not a `blob:` URL |
| CaseWorkflow.ParseTags | pages/PoliceDashboard.tsx:81 | new-case tags are non-empty and contain no comma |
| CaseWorkflow.ParseEditedTags | pages/PoliceDashboard.tsx:409 | edit-mode tags give one tag per comma-separated piece |
| CaseWorkflow.ParseTagsDropsEmpties | pages/PoliceDashboard.tsx:409 | the two tag parsers differ only in dropping the empty tags |
| CaseWorkflow.ParsedTagsTrimmed | pages/PoliceDashboard.tsx:81 | no parsed tag starts or ends with white space |
| CaseWorkflow.SplitJoin | pages/PoliceDashboard.tsx:81 | splitting comma-joined, comma-free pieces gives back the pieces |
| CaseWorkflow.ParseTagsJoin | pages/PoliceDashboard.tsx:81 | non-empty, trimmed, comma-free tags survive being joined with commas and parsed again |
| CaseWorkflow.SplitDoubleComma | pages/PoliceDashboard.tsx:409 | two commas in a row split off an empty piece |
| CaseWorkflow.EditedTagsKeepEmpties | pages/PoliceDashboard.tsx:409 | edit mode keeps the empty tag between two commas |
| CaseWorkflow.NewCaseTagsDropEmpties | pages/PoliceDashboard.tsx:81 | the new-case form drops it |
| CaseWorkflow.SaveNewCase | pages/PoliceDashboard.tsx:377-387 | the new case's id goes in front of the old ids |
| CaseWorkflow.SaveNewCaseEffect | pages/PoliceDashboard.tsx:377-387 | the new case comes first, under investigation, with nothing attached, the parsed tags and the complainant filed in the complainant role with no Aadhaar number; the old cases follow in order |
| CaseWorkflow.ApplyEdit | pages/PoliceDashboard.tsx:404-413 | an edit never changes the case id |
| CaseWorkflow.EditLocationDropsCoordinates | pages/PoliceDashboard.tsx:407 | editing the location keeps only the address; the coordinates are lost and nothing else changes |
| CaseWorkflow.SaveEdit | pages/PoliceDashboard.tsx:397 | saving an edit keeps the list of case ids |
| CaseWorkflow.SaveEditEffect | pages/PoliceDashboard.tsx:397 | every case with the edited id is replaced whole by the edited record |
| CaseWorkflow.SetCourtField | pages/PoliceDashboard.tsx:615-619 | after typing, the typed field reads the typed value and every other field reads what it read in the previous details (or nothing, when there were none) |
| CaseWorkflow.CourtGetDetermines | pages/PoliceDashboard.tsx:615-619 | court details are determined by what their five fields read, so the field-wise contract of `SetCourtField` fixes the whole record |
| CaseWorkflow.SaveCourtDetails | pages/PoliceDashboard.tsx:416-420 | saving court details keeps the list of case ids |
| CaseWorkflow.SaveCourtDetailsEffect | pages/PoliceDashboard.tsx:418-420 | the selected case's court details become exactly the saved ones; nothing else changes |
| CaseWorkflow.SaveCourtDetailsOverwrites | pages/PoliceDashboard.tsx:419 | a later save overwrites an earlier one completely |
| CaseWorkflow.AddHearing | pages/PoliceDashboard.tsx:426-431 | adding a hearing keeps the list of case ids |
| CaseWorkflow.IncompleteHearingIsNoop | pages/PoliceDashboard.tsx:428 | a hearing without a date or a summary is ignored |
| CaseWorkflow.AddHearingEffect | pages/PoliceDashboard.tsx:429-431 | a complete hearing is appended to the hearings; the next-hearing date is the new one when given and is kept otherwise; nothing else changes |
| PoliceDashboard.Synced | pages/PoliceDashboard.tsx:246-255 | the sync effect keeps the selected id while a case has it and drops it otherwise; it reloads the court buffer from that stored case, and the case buffer too in edit mode; outside edit mode the case buffer is left alone |
| PoliceDashboard.SyncedIdempotent | pages/PoliceDashboard.tsx:246-255 | running the effect a second time changes nothing |
| PoliceDashboard.SyncDiscardsPendingEdits | pages/PoliceDashboard.tsx:250-253 | whatever the buffers held, the effect leaves the same court buffer, and in edit mode the same case buffer: pending edits are replaced by the stored case |
| PoliceDashboard.SaveOfReloadedBufferKeepsList | pages/PoliceDashboard.tsx:394-402 | with unique ids, saving the buffer the effect loaded writes the stored case back unchanged |
| PoliceDashboard.NoteSurvivesEditSave | pages/PoliceDashboard.tsx:289-297 | a note added in edit mode is in the reloaded buffer, and saving that buffer keeps the list, note included |
| PoliceDashboard.Dashboard.Sync | pages/PoliceDashboard.tsx:246-255 | the selection and both buffers become the effect's result on the old ones |
| PoliceDashboard.Dashboard.constructor | pages/PoliceDashboard.tsx:211-227 | the page opens on the stored cases with nothing selected, empty forms, no edit mode, filter `'All'`, sort by FIR date and an empty search |
| PoliceDashboard.Dashboard.Queue | pages/PoliceDashboard.tsx:258-281 | with `'All'` and a blank search the queue holds the stored cases, each as often |
| PoliceDashboard.Dashboard.SetFilterStatus | pages/PoliceDashboard.tsx:479 | the filter is set and the queue is recomputed with it |
| PoliceDashboard.Dashboard.SetSortKey | pages/PoliceDashboard.tsx:486 | the sort key is set and the queue is recomputed with it |
| PoliceDashboard.Dashboard.SetSearchQuery | pages/PoliceDashboard.tsx:459 | the query is set and the queue is recomputed with it |
| PoliceDashboard.Dashboard.SelectCase | pages/PoliceDashboard.tsx:495 | clicking a case selects it, leaves edit mode and loads it into the edit buffer; when the selection changed the effect then reloads the court buffer from a stored case |
| PoliceDashboard.Dashboard.ChangeStatus | pages/PoliceDashboard.tsx:283-284 | the case list becomes the status change of the old list, and the effect reloads the selection from the new list |
| PoliceDashboard.Dashboard.TypeNote | pages/PoliceDashboard.tsx:665 | the note field holds the typed text |
| PoliceDashboard.Dashboard.AddNoteClicked | pages/PoliceDashboard.tsx:289-297 | the list becomes the old list with the note added; the note field is cleared and the effect runs only when the note was added |
| PoliceDashboard.Dashboard.UploadFiles | pages/PoliceDashboard.tsx:302-317 | the list becomes the old list with the uploads appended, and the effect reloads the selection |
| PoliceDashboard.Dashboard.RemoveEvidenceClicked | pages/PoliceDashboard.tsx:321-327 | returns the URL to release, the list becomes the old list without the item, and the effect reloads the selection |
| PoliceDashboard.Dashboard.SaveEvidenceDetailsClicked | pages/PoliceDashboard.tsx:330-341 | the list becomes the old list with the item's details saved, and the effect reloads the selection |
| PoliceDashboard.Dashboard.OcrCompleted | pages/PoliceDashboard.tsx:347-370 | the result is written to the case selected when OCR was clicked, whatever is selected when it arrives; the effect runs when a result is stored |
| PoliceDashboard.Dashboard.SaveNewCaseClicked | pages/PoliceDashboard.tsx:377-389 | the new case is put in front and selected, and the effect loads its court details (and, in edit mode, the case) into the buffers |
| PoliceDashboard.Dashboard.ToggleEditMode | pages/PoliceDashboard.tsx:394-401 | leaving edit mode saves the buffer over the case; the mode flips; the effect then reloads the buffers, so entering edit mode starts from the stored case |
| PoliceDashboard.Dashboard.EditCaseField | pages/PoliceDashboard.tsx:404-414 | the buffer takes the edit, keeping its id; nothing happens without a buffer |
| PoliceDashboard.Dashboard.ToggleCourtDetailsEditMode | pages/PoliceDashboard.tsx:609 | court-details edit mode flips |
| PoliceDashboard.Dashboard.EditCourtField | pages/PoliceDashboard.tsx:615-619 | the court-details buffer takes the typed field |
| PoliceDashboard.Dashboard.SaveCourtDetailsClicked | pages/PoliceDashboard.tsx:416-421 | the list becomes the old list with the buffer saved as the court details, court edit mode closes, and the effect reloads the selection, which leaves the saved details in the buffer; with no selection nothing changes |
| PoliceDashboard.Dashboard.TypeHearing | pages/PoliceDashboard.tsx:647-650 | the hearing form holds the typed values |
| PoliceDashboard.Dashboard.AddHearingClicked | pages/PoliceDashboard.tsx:426-433 | the list becomes the old list with the hearing added; the form is cleared and the effect runs only when the hearing was added |
| Aadhaar.Groups | ReportCrime.tsx:28 | the three capture groups each hold at most four digits and together spell the digits |
| Aadhaar.FormatAadhaar | ReportCrime.tsx:26-31 | more than twelve digits are returned bare |
| Aadhaar.JoinGroupsSpaced | ReportCrime.tsx:28-30 | joining the non-empty groups with single spaces is four digits, a space, four digits, a space, the rest, with no empty group |
| Aadhaar.FormatAadhaarSpaced | ReportCrime.tsx:26-31 | with at most twelve digits, the mask is the digits grouped in fours |
| Aadhaar.FormatAadhaarEmpty | pages/Login.tsx:10-19 | an empty field is shown empty |
| Aadhaar.DigitsKeptWhole | ReportCrime.tsx:27 | a string of digits is its own digit filter and its own whitespace removal |
| Aadhaar.SpacedFilter | ReportCrime.tsx:30 | a filter that keeps the digits but not the space undoes the grouping |
| Aadhaar.SpacedStrips | ReportCrime.tsx:30 | removing white space from, or keeping the digits of, the grouping gives back the digits |
| Aadhaar.FormatAadhaarStrips | ReportCrime.tsx:27-30 | removing the white space from the mask, or keeping its digits, gives exactly the input's digits |
| Aadhaar.FormatAadhaarIdempotent | ReportCrime.tsx:26-31 | masking a masked value changes nothing |
| Aadhaar.FormatAadhaarShape | pages/Login.tsx:14-19 | with at most twelve digits: digits in groups of four, single spaces exactly at positions 4 and 9, no leading or trailing space, at most 14 characters |
| ReportCrime.LastChars | ReportCrime.tsx:77 | `slice(-n)` is the last `n` characters, or the whole of a shorter string |
| ReportCrime.ReportedCaseFixedFields | ReportCrime.tsx:75-91 | a reported case has status `Reported`, officer `Unassigned`, station `Central Precinct`, tags `[caseType]`, no hearings, notes or court details, and the typed type, description and address |
| ReportCrime.AccusedIffSuspectNamed | ReportCrime.tsx:63-73 | there is one accused exactly when the suspect name is not blank, with the trimmed name and the Aadhaar without white space |
| ReportCrime.AccusedAadhaarDigits | ReportCrime.tsx:70 | a masked Aadhaar is stored as the typed digits |
| ReportCrime.EvidenceIffFile | ReportCrime.tsx:42-54 | there is one evidence item exactly when a file was chosen: an image for an `image/` type, a document otherwise |
| ReportCrime.ComplainantFromUser | ReportCrime.tsx:56-61 | the complainant has the user's name and e-mail, or `Citizen User` and `N/A` without a user |
| ReportCrime.DecimalLength | ReportCrime.tsx:77 | a number of at least 10^k prints with more than k digits |
| ReportCrime.FirNumberShape | ReportCrime.tsx:77 | from six-digit clock readings on, the FIR number is `FIR-` and six digits |
| ReportCrime.BuildEvidence | ReportCrime.tsx:42-54 | the list built with `push` is the report's evidence |
| ReportCrime.BuildInvolved | ReportCrime.tsx:63-73 | the list built with `push` is the report's involved people |
| ReportCrime.ReportPage.constructor | ReportCrime.tsx:8-15 | the form opens empty with type `Theft`, not submitted |
| ReportCrime.ReportPage.SetDetails | ReportCrime.tsx:164-231 | the plain inputs set their fields and nothing else |
| ReportCrime.ReportPage.SetSuspectAadhaar | ReportCrime.tsx:33-36 | the Aadhaar field holds the masked value |
| ReportCrime.ReportPage.ChooseFiles | ReportCrime.tsx:18-24 | the first chosen file is kept; no file changes nothing |
| ReportCrime.ReportPage.Reset | ReportCrime.tsx:116-127 | "Submit Another Report" restores the empty form |
| ReportCrime.ReportPage.Submit | ReportCrime.tsx:39-102 | the reported case goes before the stored cases, which keep their order, and the page shows it was submitted |
| Auth.FindCitizen | contexts/AuthContext.tsx:29 | finds a listed citizen with exactly that id, and nothing exactly when there is none |
| Auth.AuthSession.constructor | contexts/AuthContext.tsx:19-26 | the session starts from the stored user |
| Auth.AuthSession.Login | contexts/AuthContext.tsx:28-36 | succeeds exactly when a listed citizen has that id, and signs that citizen in; a failure leaves the user unchanged |
| Auth.AuthSession.PoliceLogin | contexts/AuthContext.tsx:38-56 | succeeds exactly when the trimmed, upper-cased id is `POLICE007` and the trimmed password is `password123`; signs in `Officer Smith` with the trimmed id; a failure leaves the user unchanged |
| Auth.AuthSession.Logout | contexts/AuthContext.tsx:58-61 | the user is gone and the session is not authenticated |
| Auth.KnownCitizenFound | data/users.ts:3-9 | the demo citizen `123456789012` is found |
| Auth.PoliceLoginNeedsPassword | contexts/AuthContext.tsx:42 | a missing password always fails |
| Auth.OfficerIdUpper | contexts/AuthContext.tsx:41 | the lower-case id `police007` is accepted after upper-casing |
| Auth.PoliceLoginLenient | contexts/AuthContext.tsx:40-45 | surrounding white space and the id's case do not matter; the signed-in id keeps its case |
| LoginPage.Login.constructor | pages/Login.tsx:10-12 | the page opens with an empty masked field, no error, not busy |
| LoginPage.Login.Type | pages/Login.tsx:21-24 | the field holds the masked value, stays masked, and keeps exactly the typed digits |
| LoginPage.Login.BeginLogin | pages/Login.tsx:28-29 | an attempt clears the error and shows the busy state |
| LoginPage.Login.CompleteLogin | pages/Login.tsx:34-41 | signs in with the field's digits; succeeds exactly when a citizen has them; sets the error message only on failure; the page is no longer busy either way |
| CivilScore.TimesIsProduct | hooks/useCivilScore.ts:52 | the weighted points are the points times the weight |
| CivilScore.Round | hooks/useCivilScore.ts:74 | `Math.round` is within one half of its argument |
| CivilScore.Clamp | hooks/useCivilScore.ts:74 | the clamped score lies in 0..100, equal to the input inside the range and to the nearer bound outside it |
| CivilScore.TierOf | hooks/useCivilScore.ts:81-94 | Gold exactly from 56, Silver exactly from 46 below 56, Bronze exactly below 46 |
| CivilScore.FindLog | hooks/useCivilScore.ts:37 | a found log has the user's id; nothing is found exactly when there is no user or no log with the id |
| CivilScore.CivilScoreOf | hooks/useCivilScore.ts:35-100 | the score lies in 0..100, the tier is the score's tier, and the breakdown's base score is 50 |
| CivilScore.ReverseInPlace | hooks/useCivilScore.ts:97-98 | the array afterwards is the reverse of what it held |
| CivilScore.TallyPositive | hooks/useCivilScore.ts:48-59 | the loop's positive total and list are the weighted total and entries of the positive activities, in order |
| CivilScore.TallyNegative | hooks/useCivilScore.ts:48-66 | the loop's negative total and list are the weighted total and entries of the negative activities, in order |
| CivilScore.SplitBySign | hooks/useCivilScore.ts:47-68 | the loop's two totals and two lists are those of the positive and the negative activities |
| CivilScore.ReversedList | hooks/useCivilScore.ts:97-98 | the list comes back reversed |
| CivilScore.UseCivilScore | hooks/useCivilScore.ts:35-100 | the hook's loop, rounding, clamping, tier choice and reversal compute the civil score |
| CivilScore.PartitionBySign | hooks/useCivilScore.ts:54-66 | every activity is on the positive list, on the negative list, or (zero points) on neither, exactly once |
| CivilScore.SignMembership | hooks/useCivilScore.ts:54-66 | the positive list holds exactly the activities with positive points, the negative list exactly those with negative points |
| CivilScore.PositivesNewestFirst | hooks/useCivilScore.ts:97 | the breakdown's positive list shows the positive activities last one first |
| CivilScore.NegativesNewestFirst | hooks/useCivilScore.ts:98 | the breakdown's negative list shows the negative activities last one first |
| CivilScore.UnknownUserIsSilver | hooks/useCivilScore.ts:37-74 | a user without a log scores 50, is Silver, and has an empty breakdown |
| CivilScore.TimesSign | hooks/useCivilScore.ts:51-52 | a positive weight keeps the sign of the points |
| CivilScore.TotalSign | hooks/useCivilScore.ts:54-66 | a sum of positive (negative) weighted points is at least (at most) zero |
| CivilScore.TotalsSigns | hooks/useCivilScore.ts:77-78 | the positive total is never below zero and the negative total never above |
| Activities.Distinct | pages/Activities.tsx:109 | `Array.from(new Set(xs))` holds each value of the list, once |
| Activities.FirstIndex | pages/Activities.tsx:109 | the first position at which a value occurs |
| Activities.DistinctFirstOccurrenceOrder | pages/Activities.tsx:109 | the distinct values come in the order of their first appearance |
| Activities.FilteredMembership | pages/Activities.tsx:101-107 | a card is shown exactly when it is listed and passes the category filter |
| Activities.FilteredPermutation | pages/Activities.tsx:101-107 | the shown cards are a permutation of the filtered cards |
| Activities.DefaultShowsEverything | pages/Activities.tsx:98-107 | with `All` and any order other than `A-Z` or `Z-A`, the list is shown as it is |
| Activities.AscendingCompareValid | pages/Activities.tsx:104 | `A-Z` is a total preorder in which only equal titles tie |
| Activities.DescendingCompareValid | pages/Activities.tsx:105 | `Z-A` is a total preorder in which only equal titles tie |
| Activities.TitleCompareValid | pages/Activities.tsx:103-107 | every order choice gives a total preorder |
| Activities.AscendingByTitle | pages/Activities.tsx:104 | `A-Z` shows the titles in ascending order |
| Activities.DescendingByTitle | pages/Activities.tsx:105 | `Z-A` shows the titles in descending order |
| Activities.FilteredStable | pages/Activities.tsx:103-107 | cards that compare equal keep their list order |
| Activities.CategoriesOffered | pages/Activities.tsx:109 | the category choices are `All` and exactly the categories of the list |
| Activities.CategoriesDistinct | pages/Activities.tsx:109 | no category is offered twice when none is named `All` |
| AdminDashboard.RemoveById | pages/AdminDashboard.tsx:34 | removal keeps exactly the submissions with another id |
| AdminDashboard.RemoveByIdKeepsOrder | pages/AdminDashboard.tsx:34 | removal keeps the other submissions in their order |
| AdminDashboard.RemoveByIdCount | pages/AdminDashboard.tsx:48 | the pending count drops exactly when a submission with the id was pending |
| AdminDashboard.EnablingAgreesOffZero | pages/AdminDashboard.tsx:76-83 | the enabling condition as written and as intended agree unless id 0 is in flight; the intended one is never more permissive |
| AdminDashboard.ZeroIdReenablesButtons | pages/AdminDashboard.tsx:76-83 | while submission 0 is being verified or finalised, the condition as written enables the buttons |
| AdminDashboard.Queue.constructor | pages/AdminDashboard.tsx:4-13 | the queue opens on the three submissions with no approval in flight |
| AdminDashboard.Queue.ClickApprove | pages/AdminDashboard.tsx:15-16 | an enabled Approve only marks the submission as being verified; nothing is removed; a disabled one does nothing; at most one approval is in flight |
| AdminDashboard.Queue.VerificationDone | pages/AdminDashboard.tsx:18-21 | verification clears the verifying id and sets the finalising id |
| AdminDashboard.Queue.FinalizationDone | pages/AdminDashboard.tsx:24-27 | finalisation removes the submissions with the id and clears the finalising id |
| AdminDashboard.Queue.ClickReject | pages/AdminDashboard.tsx:32-35 | an enabled Reject removes the submissions with the id at once; a disabled one does nothing |
| ImageCrop.WiderIffRatioAboveOne | components/ImageCropModal.tsx:31-35 | the aspect ratio exceeds the canvas's exactly when the image is wider than high |
| ImageCrop.CenterCrop | components/ImageCropModal.tsx:27-53 | the source is a square with side min(width, height), inside the image, centred on the longer axis with no offset on the other; a square image is taken whole; the destination is the 256 by 256 canvas |
| ShareQR.PublicProfileUrl | components/ShareQRModal.tsx:19 | the link starts with the fixed profile prefix |
| ShareQR.UrlWithoutColon | components/ShareQRModal.tsx:19 | a value without `:` gives a link ending in `undefined` |
| ShareQR.CopyLink | components/ShareQRModal.tsx:15-19 | the closed dialog renders nothing, so there is no link; the open one copies the public profile link |
| ShareQR.UrlOfTaggedValue | components/ShareQRModal.tsx:19 | for `tag:e` with no `:` in the tag or in `e`, the link ends in `e` |
| ShareQR.UrlStopsAtSecondColon | components/ShareQRModal.tsx:19 | when `e` has a `:` of its own, only the text before it reaches the link |
| Profile.InitialProfile | pages/Profile.tsx:14-18 | each field is the user's when the user has a non-empty one; no field is empty; with no user, every field is its default |
| Profile.QrValue | pages/Profile.tsx:68 | the QR value is `civil-score-user:` followed by the saved e-mail |
| Profile.SharedLinkIsEmail | pages/Profile.tsx:68 | the shared link of a profile whose e-mail has no `:` ends in the e-mail |
| Profile.SharedLinkCutsEmail | pages/Profile.tsx:68 | an e-mail with a `:` is cut at its first `:` in the shared link |
| Profile.ProfilePage.constructor | pages/Profile.tsx:14-25 | the page opens on the initial profile, with the edit copy equal to it and every dialog closed |
| Profile.ProfilePage.Qr | pages/Profile.tsx:68 | the QR code shows the saved profile, never the edit copy |
| Profile.ProfilePage.EditClick | pages/Profile.tsx:28-31 | editing starts from the saved profile |
| Profile.ProfilePage.CancelClick | pages/Profile.tsx:33-35 | cancelling leaves edit mode and nothing else changes |
| Profile.ProfilePage.SaveClick | pages/Profile.tsx:37-40 | saving makes the edit copy the saved profile and leaves edit mode |
| Profile.ProfilePage.EditName | pages/Profile.tsx:90 | typing a name changes only the edit copy's name |
| Profile.ProfilePage.EditEmail | pages/Profile.tsx:91 | typing an e-mail changes only the edit copy's e-mail |
| Profile.ProfilePage.ImageLoaded | pages/Profile.tsx:51-54 | a loaded photo opens the crop dialog on it |
| Profile.ProfilePage.CropSave | pages/Profile.tsx:60-66 | a crop changes only the edit copy's photo, closes the dialog and forgets the photo to crop; the saved profile is untouched |
| Profile.ProfilePage.CloseCrop | pages/Profile.tsx:175 | closing the crop dialog changes nothing else |
| Profile.ProfilePage.OpenShare | pages/Profile.tsx:108 | the share dialog opens |
| Profile.ProfilePage.CloseShare | pages/Profile.tsx:170 | the share dialog closes |
| Profile.ProfilePage.CopyLinkClicked | pages/Profile.tsx:168-172 | the copied link is the share dialog's link for the saved profile's QR value, and none while the dialog is closed |

## Left out

- Persistence is not modelled. The case store, the signed-in user and the form reset keep their state in local or session storage, with fallbacks when that fails. Here the store is an in-memory list, and the session starts from a given stored user.
- Text recognition calls an external AI service. Its answer is a parameter of the write-back: the extracted text, or the error sentence the service returns. Fetching the blob, base-64 encoding, and the OCR dialog's loading and error states are left out.
- Object URLs are opaque strings. Only the `blob:` prefix test is kept. The release of a URL on removal is returned as a value, not performed.
- The clock and the random number generator are parameters:
  - case ids and the report's clock reading are numbers;
  - evidence ids, upload times and note times are strings.
- ReportCrime.ReportPage.Submit: one clock reading `now` stands for the three `Date.now()` calls of a submission (ReportCrime.tsx:46, 76 and 77: the evidence id, the case id and the FIR number). In the source they may differ by a millisecond, so the model does not capture a case id and FIR number that disagree.
- FIR dates are integer timestamps. Parsing date strings is left out.
- `localeCompare` is approximated by code-point order, and case mapping covers ASCII letters only.
- Notifications and timers are left out. The selected case is held as its id and looked up in the list; the `selectedCase` effect (`Synced`) runs at the end of each handler that changes the list, the selected id or the edit mode, rather than after React's render.
- PoliceDashboard.Dashboard.RemoveEvidenceClicked: the released URL is looked up in the list. The page itself looks it up in its `selectedCase` copy. The two agree because the effect has run after every earlier change.
- PoliceDashboard.Dashboard.OcrCompleted: the failure path of the OCR request (the caught error and its message) is left out; only a stored result is modelled.
- The new-case dialog's own form state and reset are left out. The submitted form is a parameter of `SaveNewCaseClicked`.
- The browser's `required` checks on the new-case and hearing forms are not modelled: `SaveNewCaseClicked` and `AddHearingClicked` accept forms the browser would refuse to submit.
- PoliceDashboard.Dashboard.SelectCase: the selection is held as an id. What the page reads from its `selectedCase` object (the court details loaded, the URL released on removal) the model reads from the first stored case with that id. The two differ only when two stored cases share the id and the effect has not re-run since the click, in which case the page keeps the object that was clicked.
- These dashboard UI states are left out: the preview image, the active tab, and the evidence-edit dialog's open state.
- The citizen sign-in's half-second pause and the navigation after success are left out. The attempt is split at the pause into `BeginLogin` and `CompleteLogin`.
- CivilScore.CivilScoreOf: the decay weight `Math.exp(-daysSince(date) / 365)` reads the clock and uses floating point. It is an abstract positive function of the activity.
- CivilScore.CivilScoreOf: the breakdown lines carry the unrounded weighted points; the source rounds them with `toFixed(2)`.
- The tier's icon and colours are left out.
- CivilScore.Times: multiplication of points by the weight is written as repeated addition. `TimesIsProduct` proves it equal to the product.
- Canvas drawing, image loading and the JPEG encoding of the crop are left out. The image's pixel size is the input of `CenterCrop`, and its arguments to `drawImage` are the output.
- The crop dialog renders nothing when it is closed or has no image. This is left out, as is the image load failure path.
- The share dialog's clipboard write, its copied-state timer, the SVG serialisation and the PNG download are left out.
- The profile's file picker is left out. Only the reader's result (`ImageLoaded`) is modelled.
- AdminDashboard.Queue.PendingCount: the heading's count is the length of the queue. It has no contract of its own; `RemoveByIdCount` states how the count changes.
- The timer delays of the admin approval (2 s and 1.5 s) are left out. The two callbacks are the step methods `VerificationDone` and `FinalizationDone`.

## Findings

| source | as written | input that shows it | evidently intended | confidence | as-written member | corrected member |
|---|---|---|---|---|---|---|
| pages/AdminDashboard.tsx:76-83 | the buttons are disabled by `!!verifyingId \|\| !!finalizingId`, and `!!0` is false | an approval of a submission with id 0: while it is being verified, Approve and Reject are enabled again | disable both buttons whenever an approval is in flight | low, not executed (the built-in submissions have ids 1 to 3) | AdminDashboard.ZeroIdReenablesButtons | AdminDashboard.EnablingAgreesOffZero |
