/** What `resumeUpload` survives: lost replies and busy servers, four in a row; and why alone it throws. */
module UploadRetries {
  import opened UploadClient

  /** The request may be repeated: its reply was lost, the upload was busy or had changed, or the server failed. */
  predicate Transient(r: Reply) {
    r.NetworkError? || (r.Refused? && (r.status == 409 || 500 <= r.status))
  }

  /** A refusal that stands, or an exception of another kind. */
  predicate Fatal(r: Reply) {
    (r.Refused? && r.status != 409 && r.status < 500) || r.OtherError?
  }

  /** The transient failures since the last chunk that was stored. */
  function Failures(replies: seq<Reply>): nat {
    if replies == [] then 0
    else
      var n := |replies| - 1;
      if replies[n].Stored? then 0 else Failures(replies[..n]) + if Transient(replies[n]) then 1 else 0
  }

  /** A reply without failure, but not one that the request under way can have. */
  predicate Useless(size: nat, phase: Phase, r: Reply) {
    match phase
    case Polling => !r.State? || (r.resumable && !(r.expected == size && 0 <= r.uploaded <= size))
    case Verifying(_, _) => !r.Verified?
    case Sending(offset) => !r.Stored? || r.uploaded <= offset
    case Completing => !r.Finished?
    case Ended(_) => false
  }

  /** What follows when everything up to `offset` is known to be on the server: the next four mebibytes, or the end. */
  predicate Continues(size: nat, offset: int, phase: Phase) {
    0 <= offset && phase == if offset < size then Sending(offset) else Completing
  }

  /** What follows when everything up to `offset` of the `uploaded` bytes is verified. */
  predicate GoesOn(size: nat, uploaded: int, offset: nat, phase: Phase) {
    if offset < uploaded then phase == Verifying(uploaded, offset) else Continues(size, uploaded, phase)
  }

  /** A useful reply brings the client one request further. */
  predicate Advances(size: nat, before: Phase, r: Reply, after: Phase) {
    match before
    case Polling =>
      r.State? && if !r.resumable then after == Ended(NotResumable) else GoesOn(size, r.uploaded, 0, after)
    case Verifying(uploaded, offset) =>
      GoesOn(size, uploaded, if offset + 4194304 < uploaded then offset + 4194304 else uploaded, after)
    case Sending(_) => r.Stored? && Continues(size, r.uploaded, after)
    case Completing => after == Ended(Completed)
    case Ended(_) => false
  }

  /** The client is still at work, and its counter holds the failures since the last stored chunk, at most four. */
  ghost predicate AtWork(size: nat, replies: seq<Reply>) {
    var c := Drive(size, replies);
    !c.phase.Ended? && c.retries == Failures(replies) && c.retries <= 4
  }

  lemma {:induction false} CounterExact(size: nat, replies: seq<Reply>)
    ensures !Drive(size, replies).phase.Ended? ==> AtWork(size, replies)
  {
    if replies != [] {
      CounterExact(size, replies[..|replies| - 1]);
    }
  }

  /**
   One more reply, along any replies before it. After a transient failure the client asks again from the start, until
   it has failed five times since the last stored chunk; a stored chunk clears the count. It throws for a refusal that
   stands, another exception, a useless reply or the fifth failure, and for nothing else.
   */
  lemma Replied(size: nat, replies: seq<Reply>, r: Reply)
    requires !Drive(size, replies).phase.Ended?
    ensures var c, d := Drive(size, replies), Drive(size, replies + [r]);
      && (r.Aborted? ==> d.phase == Ended(Stopped))
      && (Fatal(r) ==> d.phase == Ended(Threw))
      && (Transient(r) ==>
            if Failures(replies) < 4 then d == Client(Polling, Failures(replies) + 1) else d.phase == Ended(Threw))
      && (!r.Aborted? && !Fatal(r) && !Transient(r) ==>
            if Useless(size, c.phase, r) then d.phase == Ended(Threw)
            else Advances(size, c.phase, r, d.phase) && d.retries == if r.Stored? then 0 else Failures(replies))
  {
    CounterExact(size, replies);
    assert (replies + [r])[..|replies|] == replies;
  }

  /** The k-th reply is a reason to throw. */
  ghost predicate Reason(size: nat, replies: seq<Reply>, k: nat)
    requires k < |replies|
  {
    var phase := Drive(size, replies[..k]).phase;
    && !phase.Ended?
    && (|| Fatal(replies[k])
        || (Transient(replies[k]) && Failures(replies[..k + 1]) == 5)
        || (!replies[k].Aborted? && !Fatal(replies[k]) && !Transient(replies[k]) && Useless(size, phase, replies[k])))
  }

  /** `resumeUpload` throws if and only if one of the replies is such a reason. */
  lemma {:induction false} ThrowsForAReason(size: nat, replies: seq<Reply>)
    ensures Drive(size, replies).phase == Ended(Threw) <==> exists k :: 0 <= k < |replies| && Reason(size, replies, k)
  {
    hide Drive, Useless, Fatal, Transient;
    if replies == [] {
      NoReplies(size);
    } else {
      var n := |replies| - 1;
      var before, r := replies[..n], replies[n];
      assert replies == before + [r] && replies[..n + 1] == replies;
      ThrowsForAReason(size, before);
      forall k | 0 <= k < n ensures Reason(size, replies, k) <==> Reason(size, before, k) {
        assert replies[..k] == before[..k] && replies[..k + 1] == before[..k + 1];
      }
      if Drive(size, before).phase.Ended? {
        DriveEnded(size, replies, n);
      } else {
        NoReasonYet(size, before);
        LastReason(size, before, r);
      }
    }
  }

  lemma NoReplies(size: nat)
    ensures Drive(size, []).phase == Polling
  {
  }

  /** While the client is at work there was no reason yet. */
  lemma NoReasonYet(size: nat, replies: seq<Reply>)
    requires !Drive(size, replies).phase.Ended?
    requires Drive(size, replies).phase == Ended(Threw) <==> exists k :: 0 <= k < |replies| && Reason(size, replies, k)
    ensures forall k :: 0 <= k < |replies| ==> !Reason(size, replies, k)
  {
  }

  lemma LastReason(size: nat, before: seq<Reply>, r: Reply)
    requires !Drive(size, before).phase.Ended?
    ensures Reason(size, before + [r], |before|) <==> Drive(size, before + [r]).phase == Ended(Threw)
  {
    hide Drive, Useless, Fatal, Transient, Advances, Failures;
    var replies := before + [r];
    assert replies[..|before|] == before && replies[..|before| + 1] == replies;
    Exclusive(r);
    NotThrown(size, Drive(size, before).phase, r, Drive(size, replies).phase);
    Replied(size, before, r);
    CounterExact(size, before);
    OneMore(before, r);
  }

  lemma NotThrown(size: nat, before: Phase, r: Reply, after: Phase)
    ensures Advances(size, before, r, after) ==> after != Ended(Threw)
  {
  }

  lemma Exclusive(r: Reply)
    ensures Transient(r) ==> !Fatal(r) && !r.Aborted? && !r.Stored?
    ensures Fatal(r) ==> !r.Aborted?
  {
  }

  lemma OneMore(before: seq<Reply>, r: Reply)
    ensures Failures(before + [r]) == if r.Stored? then 0 else Failures(before) + if Transient(r) then 1 else 0
  {
    assert (before + [r])[..|before|] == before;
  }

  /** A reply that is lost n times. */
  function Lost(n: nat): seq<Reply> {
    if n == 0 then [] else Lost(n - 1) + [NetworkError]
  }

  /** Four lost replies in a row between any two stored chunks do no harm: the client goes on asking. */
  lemma {:induction false} LostRepliesSurvived(size: nat, replies: seq<Reply>, n: nat)
    requires !Drive(size, replies).phase.Ended? && Failures(replies) + n <= 4
    ensures Drive(size, replies + Lost(n))
      == if n == 0 then Drive(size, replies) else Client(Polling, Failures(replies) + n)
    ensures Failures(replies + Lost(n)) == Failures(replies) + n
  {
    hide Drive, Useless, Advances, Fatal, Failures;
    if n == 0 {
      assert replies + Lost(0) == replies;
    } else {
      var sofar := replies + Lost(n - 1);
      LostRepliesSurvived(size, replies, n - 1);
      Replied(size, sofar, NetworkError);
      OneMore(sofar, NetworkError);
      assert replies + Lost(n) == sofar + [NetworkError];
    }
  }
}
