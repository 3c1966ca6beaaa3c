/** The admin/NGO review queue (pages/AdminDashboard.tsx): submitted
    activities wait for review; rejecting removes one at once, approving
    runs in two timed steps (verification, then finalisation) before the
    submission leaves the queue.  The two timer callbacks are step methods
    here; the delays themselves are not modelled. */
module AdminDashboard {
  import opened Common

  datatype Submission = Submission(id: int, user: string, activityType: string, description: string, evidenceLink: string)

  const InitialSubmissions: seq<Submission> := [
    Submission(1, "Alice Johnson", "Environmental Care", "Planted 10 trees in the community park on Sunday.", "#"),
    Submission(2, "Bob Williams", "Community Volunteering", "Volunteered at the local food bank for 4 hours.", "#"),
    Submission(3, "Charlie Brown", "Civic Duty", "Reported and tracked a major pothole on 5th avenue until it was fixed.", "#")
  ]

  /** `prev.filter(sub => sub.id !== id)`. */
  function RemoveById(subs: seq<Submission>, id: int): (r: seq<Submission>)
    ensures forall s :: s in r <==> s in subs && s.id != id
  {
    var r := Filter(subs, (s: Submission) => s.id != id);
    assert forall s :: s in r <==> s in subs && s.id != id by {
      forall s ensures s in r <==> s in subs && s.id != id {
        FilterMembership(subs, (s: Submission) => s.id != id, s);
      }
    }
    r
  }

  /** Removing an id keeps the other submissions in their order: removing
      from a concatenation removes from each part. */
  lemma RemoveByIdKeepsOrder(a: seq<Submission>, b: seq<Submission>, id: int)
    ensures RemoveById(a + b, id) == RemoveById(a, id) + RemoveById(b, id)
  {
    FilterConcat(a, b, (s: Submission) => s.id != id);
  }

  /** The queue gets shorter exactly when a submission with that id was in it. */
  lemma RemoveByIdCount(subs: seq<Submission>, id: int)
    ensures |RemoveById(subs, id)| <= |subs|
    ensures |RemoveById(subs, id)| < |subs| <==> exists i :: 0 <= i < |subs| && subs[i].id == id
  {
    var keep := (s: Submission) => s.id != id;
    FilterShorter(subs, keep);
    assert forall i :: 0 <= i < |subs| ==> (!keep(subs[i]) <==> subs[i].id == id);
  }

  /** JavaScript truthiness of a `number | null` state value: `!!id`. */
  predicate Truthy(id: Option<int>) {
    id.Some? && id.value != 0
  }

  /** The buttons' enabling as written: `!(!!verifyingId || !!finalizingId)`. */
  predicate EnabledAsWritten(verifyingId: Option<int>, finalizingId: Option<int>) {
    !(Truthy(verifyingId) || Truthy(finalizingId))
  }

  /** The intended enabling: no approval is being verified or finalised. */
  predicate Enabled(verifyingId: Option<int>, finalizingId: Option<int>) {
    verifyingId.None? && finalizingId.None?
  }

  /** The two conditions agree whenever no id 0 is in flight, and the intended
      one is never more permissive. */
  lemma EnablingAgreesOffZero(verifyingId: Option<int>, finalizingId: Option<int>)
    ensures Enabled(verifyingId, finalizingId) ==> EnabledAsWritten(verifyingId, finalizingId)
    ensures verifyingId != Some(0) && finalizingId != Some(0) ==>
      (Enabled(verifyingId, finalizingId) <==> EnabledAsWritten(verifyingId, finalizingId))
  {
  }

  /** While submission 0 is being verified, the condition as written enables
      Approve and Reject again, so a second approval can start. */
  lemma ZeroIdReenablesButtons()
    ensures EnabledAsWritten(Some(0), None) && !Enabled(Some(0), None)
    ensures EnabledAsWritten(None, Some(0)) && !Enabled(None, Some(0))
  {
  }

  class Queue {
    var submissions: seq<Submission>
    var verifyingId: Option<int>
    var finalizingId: Option<int>
    /** How many approvals have started and not yet finished. */
    ghost var inFlight: nat

    /** At most one approval is in flight, and one is exactly when a
        verifying or finalising id is set.  No queued submission has id 0,
        so no id in flight is 0 either. */
    ghost predicate Valid()
      reads this
    {
      && inFlight <= 1
      && (inFlight == 0 <==> verifyingId.None? && finalizingId.None?)
      && !(verifyingId.Some? && finalizingId.Some?)
      && (forall s :: s in submissions ==> s.id != 0)
      && verifyingId != Some(0) && finalizingId != Some(0)
    }

    /** A button belongs to a submission in the queue. */
    predicate Queued(id: int)
      reads this
    {
      exists s :: s in submissions && s.id == id
    }

    constructor()
      ensures Valid()
      ensures submissions == InitialSubmissions && verifyingId == None && finalizingId == None
    {
      submissions := InitialSubmissions;
      verifyingId := None;
      finalizingId := None;
      inFlight := 0;
    }

    /** The heading's pending count. */
    function PendingCount(): nat
      reads this
    {
      |submissions|
    }

    /** A click on a queued submission's Approve: ignored while the buttons
        are disabled (the test as written at line 83); otherwise it only marks
        the submission as being verified.  With no id 0 in the queue the test
        as written is the intended one. */
    method ClickApprove(id: int)
      requires Valid() && Queued(id)
      modifies this
      ensures Valid()
      ensures submissions == old(submissions)
      ensures EnabledAsWritten(old(verifyingId), old(finalizingId)) <==> Enabled(old(verifyingId), old(finalizingId))
      ensures if EnabledAsWritten(old(verifyingId), old(finalizingId))
              then verifyingId == Some(id) && finalizingId == None
              else verifyingId == old(verifyingId) && finalizingId == old(finalizingId)
    {
      EnablingAgreesOffZero(verifyingId, finalizingId);
      if EnabledAsWritten(verifyingId, finalizingId) {
        verifyingId := Some(id);
        inFlight := 1;
      }
    }

    /** The first timer: verification has succeeded, finalisation starts. */
    method VerificationDone(id: int)
      requires Valid() && verifyingId == Some(id)
      modifies this
      ensures Valid()
      ensures submissions == old(submissions)
      ensures verifyingId == None && finalizingId == Some(id)
    {
      verifyingId := None;
      finalizingId := Some(id);
    }

    /** The second timer: the approved submission leaves the queue. */
    method FinalizationDone(id: int)
      requires Valid() && finalizingId == Some(id)
      modifies this
      ensures Valid()
      ensures submissions == RemoveById(old(submissions), id)
      ensures verifyingId == None && finalizingId == None
    {
      submissions := RemoveById(submissions, id);
      finalizingId := None;
      inFlight := 0;
    }

    /** A click on a queued submission's Reject: ignored while the buttons are
        disabled (the test as written at line 76); otherwise the submission
        leaves the queue at once. */
    method ClickReject(id: int)
      requires Valid() && Queued(id)
      modifies this`submissions
      ensures Valid()
      ensures EnabledAsWritten(verifyingId, finalizingId) <==> Enabled(verifyingId, finalizingId)
      ensures submissions == if EnabledAsWritten(verifyingId, finalizingId) then RemoveById(old(submissions), id)
                             else old(submissions)
    {
      EnablingAgreesOffZero(verifyingId, finalizingId);
      if EnabledAsWritten(verifyingId, finalizingId) {
        submissions := RemoveById(submissions, id);
      }
    }
  }
}
