/**
 The job record, the repository's read-modify-write methods, and the handlers of the API and the worker on one job.
 */
module JobHandlers {
  import opened Wrappers

  datatype Status =
    | Uploading | Ready | Queued
    | Analyzing | ExtractingAudio | PreprocessingAudio | Transcribing | FilteringTranscript | Translating
    | GeneratingSubtitle | AwaitingReview | Encoding | Validating | Cleaning
    | Completed | Failed | Cancelled

  predicate Terminal(s: Status) {
    s.Completed? || s.Failed? || s.Cancelled?
  }

  /** A worker is at work on the job, or has died at it. */
  predicate Processing(s: Status) {
    !Terminal(s) && !s.Uploading? && !s.Ready? && !s.Queued? && !s.AwaitingReview?
  }

  /** `touches` counts the saves of the remaining metadata. */
  datatype Record = Record(
    status: Status,
    cancelRequested: bool,
    interrupted: bool,
    reviewReady: bool,
    retries: nat,
    uploaded: nat,
    expected: nat,
    touches: nat)

  datatype Age = Fresh | Expired | Ancient

  /** One handler with what it finds outside the record: file sizes, capacity, ages, exceptions. */
  datatype Op =
    | Start(source: Option<nat>, room: bool)
    | Cancel
    | Delete
    | Retry(source: Option<nat>, room: bool)
    | Requeue
    | Edit(current: bool, stored: bool, render: bool)
    | CompleteUpload(size: nat)
    | Collect(expire: bool, age: Age)
    | Claim
    | Transition(target: Status)
    | Fail(cancelled: bool, stopping: bool)
    | Beat

  datatype Write = Keep | Put(record: Record) | Remove

  predicate Complete(r: Record, source: Option<nat>) {
    source == Some(r.expected) && r.uploaded == r.expected
  }

  /** The check of `transition`, made again while the state lock is held. */
  predicate Stopped(r: Record) {
    r.cancelRequested || r.status.Cancelled?
  }

  /** What a handler does to the record it has read. */
  function Effect(op: Op, r: Record): Write {
    match op
    case Start(source, room) =>
      if r.status.Ready? && Complete(r, source) && room then Put(r.(status := Queued)) else Keep
    case Cancel =>
      if Terminal(r.status) then Keep
      else if Processing(r.status) then Put(r.(cancelRequested := true))
      else Put(r.(status := Cancelled))
    case Delete => if Terminal(r.status) then Remove else Keep
    case Retry(source, room) =>
      if (r.status.Failed? || r.status.Cancelled?) && Complete(r, source) && room
      then Put(r.(cancelRequested := false, interrupted := false, retries := r.retries + 1))
      else Keep
    case Requeue => Put(r.(status := Queued))
    case Edit(current, stored, render) =>
      if r.status.Completed? then (if current && stored && !render then Put(r.(touches := r.touches + 1)) else Keep)
      else if r.status.AwaitingReview? && current && stored && render
      then Put(r.(status := Queued, reviewReady := true))
      else Keep
    case CompleteUpload(size) =>
      if r.status.Uploading? && size == r.expected then Put(r.(status := Ready, uploaded := size)) else Keep
    case Collect(expire, age) => Collected(r, expire, age)
    case Claim => if r.status.Queued? then Put(r.(status := Analyzing)) else Keep
    case Transition(target) => if Stopped(r) then Keep else Put(r.(status := target))
    case Fail(cancelled, stopping) =>
      Put(r.(status := if cancelled || r.cancelRequested then Cancelled else Failed, interrupted := stopping))
    case Beat => Put(r.(touches := r.touches + 1))
  }

  function Collected(r: Record, expire: bool, age: Age): Write {
    if !expire && (Terminal(r.status) || r.status.Uploading? || r.status.AwaitingReview?) then Keep
    else if Terminal(r.status) then
      (match age
       case Ancient => Remove
       case Expired => Put(r.(touches := r.touches + 1))
       case Fresh => Keep)
    else if r.status.AwaitingReview? || r.status.Uploading? then
      (if age.Fresh? then Keep else Put(r.(status := Cancelled)))
    else if r.status.Queued? || r.status.Ready? then Keep
    else Put(r.(status := Failed, interrupted := true))
  }

  function After(w: Write, disk: Option<Record>): Option<Record> {
    match w
    case Keep => disk
    case Put(record) => Some(record)
    case Remove => None
  }

  datatype Reply = Accepted(status: Status) | Cancelling | Conflict | NoRoom | NotFound

  /** What an API handler answers, for the record it has read. */
  function Answer(op: Op, r: Record): Reply {
    match op
    case Start(source, room) =>
      if r.status.Queued? then Accepted(Queued)
      else if !r.status.Ready? || !Complete(r, source) then Conflict
      else if !room then NoRoom
      else Accepted(Queued)
    case Cancel =>
      if Processing(r.status) then Cancelling else Accepted(if Terminal(r.status) then r.status else Cancelled)
    case Delete => if Terminal(r.status) then Accepted(r.status) else Conflict
    case Retry(source, room) =>
      if !(r.status.Failed? || r.status.Cancelled?) || !Complete(r, source) then Conflict
      else if !room then NoRoom
      else Accepted(Queued)
    case Edit(current, stored, render) =>
      if r.status.Completed? then
        (if render || !current then Conflict else if !stored then NoRoom else Accepted(Completed))
      else if !r.status.AwaitingReview? || !current then Conflict
      else if !stored then NoRoom
      else Accepted(if render then Queued else AwaitingReview)
    case _ => Conflict
  }

  function AnswerTo(op: Op, disk: Option<Record>): Reply {
    if disk.None? then NotFound else Answer(op, disk.value)
  }

  /** What is on disk when an API handler is done; a retry saves twice. */
  function Handled(op: Op, disk: Option<Record>): Option<Record> {
    if disk.None? then None
    else
      var w := Effect(op, disk.value);
      if op.Retry? && w.Put? then After(Effect(Requeue, w.record), disk) else After(w, disk)
  }

  predicate OfApi(op: Op) {
    op.Start? || op.Cancel? || op.Delete? || op.Retry? || op.Edit?
  }

  /** When a request is granted, from the job alone. */
  predicate Grants(op: Op, r: Record)
    requires OfApi(op)
  {
    match op
    case Start(source, room) => r.status.Queued? || (r.status.Ready? && Complete(r, source) && room)
    case Cancel => !Processing(r.status)
    case Delete => Terminal(r.status)
    case Retry(source, room) => (r.status.Failed? || r.status.Cancelled?) && Complete(r, source) && room
    case Edit(current, stored, render) =>
      current && stored && (r.status.AwaitingReview? || (r.status.Completed? && !render))
    case _ => false
  }

  /** The same request with room on the disk. */
  function WithRoom(op: Op): Op {
    match op
    case Start(source, _) => Start(source, true)
    case Retry(source, _) => Retry(source, true)
    case Edit(current, _, render) => Edit(current, true, render)
    case _ => op
  }

  /**
   A request is accepted exactly when it is granted, and the answer is the truth about the record that is left: the
   status it names, no record, a cancellation on record, or nothing changed at all. Room is what a request lacks exactly
   when it would be granted with room.
   */
  lemma AnswerIsTrue(op: Op, disk: Option<Record>)
    requires OfApi(op)
    ensures var reply, left := AnswerTo(op, disk), Handled(op, disk);
      && (reply.NotFound? <==> disk.None?)
      && (reply.Accepted? <==> disk.Some? && Grants(op, disk.value))
      && (reply.NoRoom? <==> disk.Some? && !Grants(op, disk.value) && Grants(WithRoom(op), disk.value))
      && (reply.Accepted? && !op.Delete? ==> left.Some? && left.value.status == reply.status)
      && (reply.Accepted? && op.Delete? ==> left.None?)
      && (reply.Cancelling? <==> op.Cancel? && disk.Some? && Processing(disk.value.status))
      && (reply.Cancelling? ==> left.Some? && left.value.cancelRequested && left.value.status == disk.value.status)
      && (reply.Conflict? || reply.NoRoom? || reply.NotFound? ==> left == disk)
      && (reply.Accepted? && op.Retry? ==> !left.value.cancelRequested && left.value.retries == disk.value.retries + 1)
  {
  }

  // ----- the legal status graph -----

  /** The status changes that the program makes. */
  predicate Edge(from: Status, to: Status) {
    match from
    case Uploading => to.Ready? || to.Cancelled?
    case Ready => to.Queued? || to.Cancelled?
    case Queued => to.Analyzing? || to.Cancelled?
    case AwaitingReview => to.Queued? || to.Cancelled?
    case Failed => to.Queued?
    case Cancelled => to.Queued?
    case Completed => false
    case _ => Processing(to) || to.AwaitingReview? || to.Completed? || to.Failed? || to.Cancelled?
  }

  /** Nothing changed, an edge of the graph, or a finished job removed. */
  predicate Legal(before: Option<Status>, after: Option<Status>) {
    if before.None? then after.None?
    else if after.None? then Terminal(before.value)
    else before == after || Edge(before.value, after.value)
  }

  function StatusOf(disk: Option<Record>): Option<Status> {
    if disk.None? then None else Some(disk.value.status)
  }

  /** The worker's targets are processing states, review and completion. */
  predicate WorkerStep(op: Op) {
    op.Beat? || (op.Transition? && (Processing(op.target) || op.target.AwaitingReview? || op.target.Completed?))
  }

  /** What a handler may rely on: a worker's job is being processed, and a requeue follows the first save of a retry. */
  predicate Justified(op: Op, r: Record) {
    && (op.Transition? ==> WorkerStep(op))
    && (op.Transition? || op.Fail? ==> Processing(r.status))
    && (op.Requeue? ==> r.status.Failed? || r.status.Cancelled?)
  }

  lemma EffectLegal(op: Op, r: Record)
    requires Justified(op, r)
    ensures Legal(Some(r.status), StatusOf(After(Effect(op, r), Some(r))))
  {
  }

  /** A handler that takes this edge, and a record it takes it on. */
  function Cause(from: Status, to: Status): Op {
    if from.Uploading? && to.Ready? then CompleteUpload(0)
    else if from.Ready? && to.Queued? then Start(Some(0), true)
    else if from.Queued? && to.Analyzing? then Claim
    else if from.AwaitingReview? && to.Queued? then Edit(true, true, true)
    else if to.Queued? then Requeue
    else if !Processing(from) then Cancel
    else if to.Failed? || to.Cancelled? then Fail(to.Cancelled?, false)
    else Transition(to)
  }

  /** No edge is there in vain: each is taken by a handler in a state it can meet. */
  lemma EdgeTaken(from: Status, to: Status)
    requires Edge(from, to)
    ensures var r := Record(from, false, false, false, 0, 0, 0, 0);
      Justified(Cause(from, to), r) && StatusOf(After(Effect(Cause(from, to), r), Some(r))) == Some(to)
  {
  }

  /** The record file of one job, and the handlers on it. Each runs while it holds the locks it needs. */
  class Repository {
    var disk: Option<Record>

    constructor (r: Record)
      ensures disk == Some(r)
    {
      disk := Some(r);
    }

    method Read() returns (r: Option<Record>)
      ensures r == disk
    {
      return disk;
    }

    method Save(r: Record)
      modifies this
      ensures disk == Some(r)
    {
      disk := Some(r);
    }

    /** Reads the record again, changes the status and saves it. */
    method UpdateStatus(status: Status)
      requires disk.Some?
      modifies this
      ensures disk == Some(old(disk).value.(status := status))
    {
      var r := Read();
      Save(r.value.(status := status));
    }

    method Heartbeat()
      requires disk.Some?
      modifies this
      ensures disk == After(Effect(Beat, old(disk).value), old(disk))
    {
      var r := Read();
      Save(r.value.(touches := r.value.touches + 1));
    }

    method StartJob(source: Option<nat>, room: bool) returns (reply: Reply)
      modifies this
      ensures reply == AnswerTo(Start(source, room), old(disk)) && disk == Handled(Start(source, room), old(disk))
    {
      var r := Read();
      if r.None? {
        return NotFound;
      }
      if r.value.status.Queued? {
        return Accepted(Queued);
      }
      if !r.value.status.Ready? || !Complete(r.value, source) {
        return Conflict;
      }
      if !room {
        return NoRoom;
      }
      UpdateStatus(Queued);
      return Accepted(Queued);
    }

    method CancelJob() returns (reply: Reply)
      modifies this
      ensures reply == AnswerTo(Cancel, old(disk)) && disk == Handled(Cancel, old(disk))
    {
      var r := Read();
      if r.None? {
        return NotFound;
      }
      if !Terminal(r.value.status) {
        if !Processing(r.value.status) {
          UpdateStatus(Cancelled);
        } else {
          Save(r.value.(cancelRequested := true));
          return Cancelling;
        }
      }
      return Accepted(disk.value.status);
    }

    method DeleteJob() returns (reply: Reply)
      modifies this
      ensures reply == AnswerTo(Delete, old(disk)) && disk == Handled(Delete, old(disk))
    {
      var r := Read();
      if r.None? {
        return NotFound;
      }
      if !Terminal(r.value.status) {
        return Conflict;
      }
      disk := None;
      return Accepted(r.value.status);
    }

    /** Two saves: the request is cleared first, then the job is queued. */
    method RetryJob(source: Option<nat>, room: bool) returns (reply: Reply)
      modifies this
      ensures reply == AnswerTo(Retry(source, room), old(disk)) && disk == Handled(Retry(source, room), old(disk))
    {
      var r := Read();
      if r.None? {
        return NotFound;
      }
      if !r.value.status.Failed? && !r.value.status.Cancelled? {
        return Conflict;
      }
      if !Complete(r.value, source) {
        return Conflict;
      }
      if !room {
        return NoRoom;
      }
      Save(r.value.(cancelRequested := false, interrupted := false, retries := r.value.retries + 1));
      UpdateStatus(Queued);
      return Accepted(Queued);
    }

    /** `update_subtitle_draft`: `current` is the revision check, `stored` the success of writing the draft. */
    method EditSubtitles(current: bool, stored: bool, render: bool) returns (reply: Reply)
      modifies this
      ensures reply == AnswerTo(Edit(current, stored, render), old(disk))
      ensures disk == Handled(Edit(current, stored, render), old(disk))
    {
      var r := Read();
      if r.None? {
        return NotFound;
      }
      if r.value.status.Completed? {
        if render || !current {
          return Conflict;
        }
        if !stored {
          return NoRoom;
        }
        Save(r.value.(touches := r.value.touches + 1));
        return Accepted(Completed);
      }
      if !r.value.status.AwaitingReview? || !current {
        return Conflict;
      }
      if !stored {
        return NoRoom;
      }
      if render {
        Save(r.value.(status := Queued, reviewReady := true));
        return Accepted(Queued);
      }
      return Accepted(AwaitingReview);
    }

    /** `Worker.transition` with the state lock held: raises instead of changing a job that is to stop. */
    method MoveTo(target: Status) returns (raised: bool)
      requires disk.Some?
      modifies this
      ensures disk == After(Effect(Transition(target), old(disk).value), old(disk))
      ensures raised == Stopped(old(disk).value)
    {
      var r := Read();
      if Stopped(r.value) {
        return true;
      }
      UpdateStatus(target);
      return false;
    }

    /** The failure handler of `process`. */
    method Settle(cancelled: bool, stopping: bool)
      requires disk.Some?
      modifies this
      ensures disk == After(Effect(Fail(cancelled, stopping), old(disk).value), old(disk))
    {
      var r := Read();
      var stop := cancelled || r.value.cancelRequested;
      Save(r.value.(status := if stop then Cancelled else Failed, interrupted := stopping));
    }

    /** One job of `collect`. */
    method CollectOne(expire: bool, age: Age)
      requires disk.Some?
      modifies this
      ensures disk == After(Effect(Collect(expire, age), old(disk).value), old(disk))
    {
      var r := disk.value;
      if !expire && (Terminal(r.status) || r.status.Uploading? || r.status.AwaitingReview?) {
        return;
      }
      if Terminal(r.status) {
        if age.Ancient? {
          disk := None;
        } else if age.Expired? {
          Save(r.(touches := r.touches + 1));
        }
      } else if r.status.AwaitingReview? {
        if !age.Fresh? {
          UpdateStatus(Cancelled);
        }
      } else if r.status.Uploading? {
        if !age.Fresh? {
          UpdateStatus(Cancelled);
        }
      } else if !r.status.Queued? && !r.status.Ready? {
        Save(r.(status := Failed, interrupted := true));
      }
    }
  }
}
