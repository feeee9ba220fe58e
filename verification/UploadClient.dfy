/** The client half of an upload: `resumeUpload` and `verifyUploadedPrefix`, driven by the replies to its requests. */
module UploadClient {
  import opened Wrappers

  const BLOCK: nat := 4 * 1024 * 1024

  /** The reply to one request, or how the request failed. `Aborted` stands for the caller's abort signal. */
  datatype Reply =
    | State(uploaded: int, expected: nat, resumable: bool)
    | Verified
    | Stored(uploaded: int)
    | Finished
    | Refused(status: nat)
    | NetworkError
    | OtherError
    | Aborted

  datatype Outcome = Completed | NotResumable | Threw | Stopped

  /** The request that is under way. */
  datatype Phase =
    | Polling
    | Verifying(uploaded: nat, offset: nat)
    | Sending(offset: nat)
    | Completing
    | Ended(outcome: Outcome)

  datatype Client = Client(phase: Phase, retries: nat)

  const MOST_RETRIES := 4

  function Fresh(): Client {
    Client(Polling, 0)
  }

  predicate IsError(r: Reply) {
    r.Refused? || r.NetworkError? || r.OtherError? || r.Aborted?
  }

  predicate Retryable(r: Reply) {
    r.NetworkError? || (r.Refused? && (r.status == 409 || r.status >= 500))
  }

  /** The catch clause. */
  function Caught(retries: nat, r: Reply): Client {
    if r.Aborted? then Client(Ended(Stopped), retries)
    else if !Retryable(r) then Client(Ended(Threw), retries)
    else if retries + 1 > MOST_RETRIES then Client(Ended(Threw), retries + 1)
    else Client(Polling, retries + 1)
  }

  /** From an acknowledged offset on: the next chunk, or the end. */
  function SendFrom(size: nat, offset: nat): Phase {
    if offset < size then Sending(offset) else Completing
  }

  function VerifyFrom(size: nat, uploaded: nat, offset: nat): Phase {
    if offset < uploaded then Verifying(uploaded, offset) else SendFrom(size, uploaded)
  }

  function BlockEnd(uploaded: nat, offset: nat): nat {
    if offset + BLOCK < uploaded then offset + BLOCK else uploaded
  }

  function ChunkEnd(size: nat, offset: nat): nat {
    if offset + BLOCK < size then offset + BLOCK else size
  }

  /** What the client does with the reply to the request that is under way. A reply of another kind cannot be used. */
  function React(size: nat, c: Client, r: Reply): Client {
    if c.phase.Ended? then c
    else if IsError(r) then Caught(c.retries, r)
    else
      match c.phase
      case Polling =>
        if !r.State? then c.(phase := Ended(Threw))
        else if !r.resumable then c.(phase := Ended(NotResumable))
        else if r.expected != size || r.uploaded < 0 || r.uploaded > size then c.(phase := Ended(Threw))
        else c.(phase := VerifyFrom(size, r.uploaded, 0))
      case Verifying(uploaded, offset) =>
        c.(phase := if r.Verified? then VerifyFrom(size, uploaded, BlockEnd(uploaded, offset)) else Ended(Threw))
      case Sending(offset) =>
        if r.Stored? && r.uploaded > offset then Client(SendFrom(size, r.uploaded), 0) else c.(phase := Ended(Threw))
      case Completing => c.(phase := Ended(if r.Finished? then Completed else Threw))
  }

  function Drive(size: nat, replies: seq<Reply>): Client {
    if replies == [] then Fresh()
    else
      var n := |replies| - 1;
      React(size, Drive(size, replies[..n]), replies[n])
  }

  lemma DriveNext(size: nat, replies: seq<Reply>, k: nat)
    requires k < |replies|
    ensures Drive(size, replies[..k + 1]) == React(size, Drive(size, replies[..k]), replies[k])
  {
    assert replies[..k + 1][..k] == replies[..k];
  }

  lemma {:induction false} DriveEnded(size: nat, replies: seq<Reply>, k: nat)
    requires k <= |replies| && Drive(size, replies[..k]).phase.Ended?
    ensures Drive(size, replies) == Drive(size, replies[..k])
  {
    if k == |replies| {
      assert replies[..k] == replies;
    } else {
      var n := |replies| - 1;
      assert replies[..n][..k] == replies[..k];
      DriveEnded(size, replies[..n], k);
    }
  }

  /** Where the client is after the first k replies. */
  ghost predicate Reached(size: nat, replies: seq<Reply>, k: nat, c: Client) {
    k <= |replies| && Drive(size, replies[..k]) == c
  }

  lemma ReachedNext(size: nat, replies: seq<Reply>, k: nat, c: Client)
    requires k < |replies| && Reached(size, replies, k, c)
    ensures Reached(size, replies, k + 1, React(size, c, replies[k]))
  {
    DriveNext(size, replies, k);
  }

  lemma ReachedEnd(size: nat, replies: seq<Reply>, k: nat, c: Client)
    requires Reached(size, replies, k, c) && (k == |replies| || c.phase.Ended?)
    ensures Drive(size, replies) == c
  {
    if k == |replies| {
      assert replies[..k] == replies;
    } else {
      DriveEnded(size, replies, k);
    }
  }

  /** How one attempt of the outer loop ends: the client is done or waits for a reply, or a request failed. */
  datatype Attempt = Over(client: Client) | Error(reply: Reply)

  /** Asks for every block of the prefix, in order, until one is refused. */
  method VerifyPrefix(size: nat, uploaded: nat, replies: seq<Reply>, first: nat, retries: nat)
    returns (result: Option<Attempt>, k: nat)
    requires Reached(size, replies, first, Client(VerifyFrom(size, uploaded, 0), retries))
    ensures k <= |replies|
    ensures result.None? ==> Reached(size, replies, k, Client(SendFrom(size, uploaded), retries))
    ensures result.Some? && result.value.Over? ==> Drive(size, replies) == result.value.client
    ensures result.Some? && result.value.Error? ==>
      IsError(result.value.reply) && Reached(size, replies, k, Caught(retries, result.value.reply)) && k > first
    ensures first <= k
  {
    hide Drive, Caught;
    k := first;
    var offset := 0;
    while offset < uploaded
      invariant first <= k <= |replies|
      invariant Reached(size, replies, k, Client(VerifyFrom(size, uploaded, offset), retries))
    {
      if k == |replies| {
        ReachedEnd(size, replies, k, Client(Verifying(uploaded, offset), retries));
        return Some(Over(Client(Verifying(uploaded, offset), retries))), k;
      }
      ReachedNext(size, replies, k, Client(Verifying(uploaded, offset), retries));
      var reply := replies[k];
      k := k + 1;
      if IsError(reply) {
        return Some(Error(reply)), k;
      }
      if !reply.Verified? {
        ReachedEnd(size, replies, k, Client(Ended(Threw), retries));
        return Some(Over(Client(Ended(Threw), retries))), k;
      }
      offset := BlockEnd(uploaded, offset);
    }
    return None, k;
  }

  /** The chunk loop. */
  method SendChunks(size: nat, from: nat, replies: seq<Reply>, first: nat, before: nat)
    returns (result: Option<Attempt>, k: nat, retries: nat)
    requires Reached(size, replies, first, Client(SendFrom(size, from), before))
    ensures k <= |replies|
    ensures result.None? ==> Reached(size, replies, k, Client(Completing, retries))
    ensures result.Some? && result.value.Over? ==> Drive(size, replies) == result.value.client
    ensures result.Some? && result.value.Error? ==>
      IsError(result.value.reply) && Reached(size, replies, k, Caught(retries, result.value.reply)) && k > first
    ensures first <= k
  {
    hide Drive, Caught;
    k, retries := first, before;
    var offset: nat := from;
    while offset < size
      invariant first <= k <= |replies|
      invariant Reached(size, replies, k, Client(SendFrom(size, offset), retries))
      decreases |replies| - k
    {
      if k == |replies| {
        ReachedEnd(size, replies, k, Client(Sending(offset), retries));
        return Some(Over(Client(Sending(offset), retries))), k, retries;
      }
      ReachedNext(size, replies, k, Client(Sending(offset), retries));
      var reply := replies[k];
      k := k + 1;
      if IsError(reply) {
        return Some(Error(reply)), k, retries;
      }
      if !reply.Stored? || reply.uploaded <= offset {
        ReachedEnd(size, replies, k, Client(Ended(Threw), retries));
        return Some(Over(Client(Ended(Threw), retries))), k, retries;
      }
      offset := reply.uploaded;
      retries := 0;
    }
    return None, k, retries;
  }

  /** One pass through the body of the outer loop. */
  method TryOnce(size: nat, replies: seq<Reply>, first: nat, before: nat)
    returns (result: Attempt, k: nat, retries: nat)
    requires Reached(size, replies, first, Client(Polling, before)) && first < |replies|
    ensures first < k <= |replies|
    ensures result.Over? ==> Drive(size, replies) == result.client
    ensures result.Error? ==> IsError(result.reply) && Reached(size, replies, k, Caught(retries, result.reply))
  {
    hide Drive, Caught;
    retries := before;
    ReachedNext(size, replies, first, Client(Polling, retries));
    var state := replies[first];
    k := first + 1;
    if IsError(state) {
      return Error(state), k, retries;
    }
    if !state.State? {
      ReachedEnd(size, replies, k, Client(Ended(Threw), retries));
      return Over(Client(Ended(Threw), retries)), k, retries;
    }
    if !state.resumable {
      ReachedEnd(size, replies, k, Client(Ended(NotResumable), retries));
      return Over(Client(Ended(NotResumable), retries)), k, retries;
    }
    if state.expected != size || state.uploaded < 0 || state.uploaded > size {
      ReachedEnd(size, replies, k, Client(Ended(Threw), retries));
      return Over(Client(Ended(Threw), retries)), k, retries;
    }
    var verified: Option<Attempt>;
    verified, k := VerifyPrefix(size, state.uploaded, replies, k, retries);
    if verified.Some? {
      return verified.value, k, retries;
    }
    var sent: Option<Attempt>;
    sent, k, retries := SendChunks(size, state.uploaded, replies, k, retries);
    if sent.Some? {
      return sent.value, k, retries;
    }
    if k == |replies| {
      ReachedEnd(size, replies, k, Client(Completing, retries));
      return Over(Client(Completing, retries)), k, retries;
    }
    ReachedNext(size, replies, k, Client(Completing, retries));
    var last := replies[k];
    k := k + 1;
    if IsError(last) {
      return Error(last), k, retries;
    }
    var ended := Client(Ended(if last.Finished? then Completed else Threw), retries);
    ReachedEnd(size, replies, k, ended);
    return Over(ended), k, retries;
  }

  /**
   The whole upload, given the replies that arrive: the nested loops, with their local offset and retry counter, are
   the state machine `Drive`.
   */
  method ResumeUpload(size: nat, replies: seq<Reply>) returns (client: Client)
    ensures client == Drive(size, replies)
  {
    hide Drive;
    var k: nat, retries: nat := 0, 0;
    DriveNothing(size, replies);
    while k < |replies|
      invariant Reached(size, replies, k, Client(Polling, retries))
      decreases |replies| - k
    {
      var result: Attempt;
      result, k, retries := TryOnce(size, replies, k, retries);
      if result.Over? {
        return result.client;
      }
      var error := result.reply;
      if error.Aborted? {
        ReachedEnd(size, replies, k, Client(Ended(Stopped), retries));
        return Client(Ended(Stopped), retries);
      }
      if !Retryable(error) {
        ReachedEnd(size, replies, k, Client(Ended(Threw), retries));
        return Client(Ended(Threw), retries);
      }
      retries := retries + 1;
      if retries > MOST_RETRIES {
        ReachedEnd(size, replies, k, Client(Ended(Threw), retries));
        return Client(Ended(Threw), retries);
      }
    }
    ReachedEnd(size, replies, k, Client(Polling, retries));
    return Client(Polling, retries);
  }

  lemma DriveNothing(size: nat, replies: seq<Reply>)
    ensures Reached(size, replies, 0, Client(Polling, 0))
  {
  }

  // ----- what the machine keeps -----

  /** Offsets stay within the file; a completion is sent only when everything is acknowledged. */
  predicate Proper(size: nat, c: Client) {
    && (c.retries <= MOST_RETRIES || c.phase == Ended(Threw))
    && match c.phase
       case Verifying(uploaded, offset) => offset < uploaded <= size
       case Sending(offset) => offset < size
       case _ => true
  }

  /** Along any replies: at most four failures in a row are retried, and every request is about a part of the file. */
  lemma {:induction false} DriveProper(size: nat, replies: seq<Reply>)
    ensures Proper(size, Drive(size, replies))
    ensures Drive(size, replies).retries <= MOST_RETRIES + 1
  {
    if replies != [] {
      DriveProper(size, replies[..|replies| - 1]);
    }
  }
}
