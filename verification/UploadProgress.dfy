/** An upload that nobody disturbs comes to its end, from whatever part of the file is on the server already. */
module UploadProgress {
  import opened Wrappers
  import opened UploadClient
  import opened UploadProtocol

  /** At most four mebibytes further, and not past the end. */
  function Further(offset: nat, end: nat): nat {
    if offset + 4194304 < end then offset + 4194304 else end
  }

  /** Every block of what is there is verified by one request. */
  function Checks(c: nat, uploaded: nat, offset: nat): seq<Step>
    decreases uploaded - offset
  {
    if offset >= uploaded then [] else [Request(c, true)] + Checks(c, uploaded, Further(offset, uploaded))
  }

  /** Every further chunk is sent by one request, written and committed, and one more request completes the upload. */
  function Sends(c: nat, size: nat, offset: nat): seq<Step>
    decreases size - offset
  {
    if offset >= size then [Request(c, true)]
    else
      var end := Further(offset, size);
      [Request(c, true), Write(end - offset), Commit] + Sends(c, size, end)
  }

  /** The server is idle and has the first n bytes of the client's file, which is of the declared size. */
  ghost predicate Holds(setup: Setup, w: World, c: nat, n: nat, phase: Phase) {
    && c in setup.files && c in w.clients && n <= |setup.files[c]|
    && w.server == Server(setup.files[c][..n], Uploading, |setup.files[c]|, None)
    && w.clients[c].phase == phase
  }

  /** The client has returned, and the server has its file, whole. */
  ghost predicate Whole(setup: Setup, w: World, c: nat) {
    && c in setup.files && c in w.clients && w.clients[c].phase == Ended(Completed)
    && w.server == Server(setup.files[c], Ready, |setup.files[c]|, None)
  }

  lemma {:induction false} RunParts(setup: Setup, w: World, a: seq<Step>, b: seq<Step>)
    ensures Run(setup, w, a + b) == Run(setup, Run(setup, w, a), b)
    decreases |a|
  {
    hide Next;
    if a == [] {
      assert a + b == b;
    } else {
      assert (a + b)[1..] == a[1..] + b;
      RunParts(setup, Next(setup, w, a[0]), a[1..], b);
    }
  }

  lemma RunEmpty(setup: Setup, w: World)
    ensures Run(setup, w, []) == w
  {
  }

  lemma RunFirst(setup: Setup, w: World, step: Step, rest: seq<Step>)
    ensures Run(setup, w, [step] + rest) == Run(setup, Next(setup, w, step), rest)
  {
    hide Next;
    assert ([step] + rest)[1..] == rest;
  }

  lemma RunThree(setup: Setup, w: World, a: Step, b: Step, c: Step, rest: seq<Step>)
    ensures Run(setup, w, [a, b, c] + rest) == Run(setup, Next(setup, Next(setup, Next(setup, w, a), b), c), rest)
  {
    hide Next, Run;
    RunFirst(setup, w, a, [b, c] + rest);
    RunFirst(setup, Next(setup, w, a), b, [c] + rest);
    RunFirst(setup, Next(setup, Next(setup, w, a), b), c, rest);
    assert [a, b, c] + rest == [a] + ([b, c] + rest) && [b, c] + rest == [b] + ([c] + rest);
  }

  /** What the client does next when n bytes are on the server and verified. */
  function Onward(size: nat, n: nat): Phase {
    if n < size then Sending(n) else Completing
  }

  /** What it does next when `offset` of these n bytes are verified. */
  function Checking(size: nat, n: nat, offset: nat): Phase {
    if offset < n then Verifying(n, offset) else Onward(size, n)
  }

  lemma SendOne(setup: Setup, w: World, c: nat, n: nat)
    requires c in setup.files && n < |setup.files[c]| && Holds(setup, w, c, n, Sending(n))
    ensures var size := |setup.files[c]|; var end := Further(n, size);
      Holds(setup, Next(setup, Next(setup, Next(setup, w, Request(c, true)), Write(end - n)), Commit), c, end,
            Onward(size, end))
  {
    var mine := setup.files[c];
    var end := Further(n, |mine|);
    var a := Next(setup, w, Request(c, true));
    assert a.server.append == Some(Append(c, n, mine[n..end], true));
    var b := Next(setup, a, Write(end - n));
    assert mine[n..end][..end - n] == mine[n..end] && mine[..n] + mine[n..end] == mine[..end];
    assert b.server.file == mine[..end] && b.server.append.value.rest == [];
  }

  lemma {:induction false} SendRest(setup: Setup, w: World, c: nat, n: nat)
    requires c in setup.files && Holds(setup, w, c, n, Onward(|setup.files[c]|, n))
    ensures Whole(setup, Run(setup, w, Sends(c, |setup.files[c]|, n)), c)
    decreases |setup.files[c]| - n
  {
    hide Next, Run, Holds, Whole;
    var size := |setup.files[c]|;
    if n >= size {
      RunEmpty(setup, Next(setup, w, Request(c, true)));
      CompleteLast(setup, w, c, n);
      RunFirst(setup, w, Request(c, true), []);
      assert [Request(c, true)] + [] == [Request(c, true)];
    } else {
      var end := Further(n, size);
      SendOne(setup, w, c, n);
      RunThree(setup, w, Request(c, true), Write(end - n), Commit, Sends(c, size, end));
      SendRest(setup, Next(setup, Next(setup, Next(setup, w, Request(c, true)), Write(end - n)), Commit), c, end);
    }
  }

  lemma CompleteLast(setup: Setup, w: World, c: nat, n: nat)
    requires c in setup.files && n >= |setup.files[c]| && Holds(setup, w, c, n, Completing)
    ensures Whole(setup, Next(setup, w, Request(c, true)), c)
  {
    assert setup.files[c][..n] == setup.files[c];
  }

  lemma CheckOne(setup: Setup, w: World, c: nat, n: nat, offset: nat)
    requires offset < n && Holds(setup, w, c, n, Verifying(n, offset))
    ensures Holds(setup, Next(setup, w, Request(c, true)), c, n,
                  Checking(|setup.files[c]|, n, Further(offset, n)))
  {
    var mine, end := setup.files[c], Further(offset, n);
    assert mine[..n][offset..end] == mine[offset..end];
  }

  lemma {:induction false} CheckRest(setup: Setup, w: World, c: nat, n: nat, offset: nat)
    requires c in setup.files && offset <= n && Holds(setup, w, c, n, Checking(|setup.files[c]|, n, offset))
    ensures Holds(setup, Run(setup, w, Checks(c, n, offset)), c, n, Onward(|setup.files[c]|, n))
    decreases n - offset
  {
    hide Next, Holds;
    if offset < n {
      CheckOne(setup, w, c, n, offset);
      RunFirst(setup, w, Request(c, true), Checks(c, n, Further(offset, n)));
      CheckRest(setup, Next(setup, w, Request(c, true)), c, n, Further(offset, n));
    }
  }

  lemma PollOnce(setup: Setup, w: World, c: nat, n: nat)
    requires Holds(setup, w, c, n, Polling)
    ensures Holds(setup, Next(setup, w, Request(c, true)), c, n, Checking(|setup.files[c]|, n, 0))
  {
  }

  /**
   A client that polls while the server is idle with the first n bytes of its file, of the declared size, finishes: one
   request for the state, one for every four mebibytes that are there, one for every four mebibytes that are not, and
   one to complete the upload. Then it returns, and the server holds exactly its file.
   */
  lemma UploadCompletes(setup: Setup, w: World, c: nat, n: nat)
    requires c in setup.files && Holds(setup, w, c, n, Polling)
    ensures var steps := [Request(c, true)] + Checks(c, n, 0) + Sends(c, |setup.files[c]|, n);
      Whole(setup, Run(setup, w, steps), c)
  {
    hide Next, Holds, Whole;
    var checks, sends := Checks(c, n, 0), Sends(c, |setup.files[c]|, n);
    PollOnce(setup, w, c, n);
    var polled := Next(setup, w, Request(c, true));
    CheckRest(setup, polled, c, n, 0);
    SendRest(setup, Run(setup, polled, checks), c, n);
    assert [Request(c, true)] + checks + sends == [Request(c, true)] + (checks + sends);
    RunFirst(setup, w, Request(c, true), checks + sends);
    RunParts(setup, polled, checks, sends);
  }

  /** That holds for a client that has just begun, with nothing on the server, and so for every file. */
  lemma FreshUploadCompletes(setup: Setup, c: nat)
    requires c in setup.files
    ensures var size := |setup.files[c]|;
      Whole(setup, Run(setup, Initial(size), [Join(c), Request(c, true)] + Sends(c, size, 0)), c)
  {
    hide Whole, Run;
    var size := |setup.files[c]|;
    var w := Next(setup, Initial(size), Join(c));
    assert Holds(setup, w, c, 0, Polling) by {
      assert setup.files[c][..0] == [];
    }
    UploadCompletes(setup, w, c, 0);
    assert [Request(c, true)] + Checks(c, 0, 0) + Sends(c, size, 0) == [Request(c, true)] + Sends(c, size, 0);
    RunFirst(setup, Initial(size), Join(c), [Request(c, true)] + Sends(c, size, 0));
    assert [Join(c), Request(c, true)] + Sends(c, size, 0) == [Join(c)] + ([Request(c, true)] + Sends(c, size, 0));
  }

  // ----- what else a client can meet -----

  /** The client asks for the state again, with one more failure on its count, or throws at the fifth. */
  predicate AsksAgain(before: Client, after: Client) {
    if before.retries < 4 then after == Client(Polling, before.retries + 1) else after.phase == Ended(Threw)
  }

  /** Nothing has changed but what this client knows. */
  predicate OnlyClient(w: World, t: World, c: nat) {
    t.server == w.server && t.stale == w.stale && t.clients.Keys == w.clients.Keys
    && forall d :: d in w.clients && d != c ==> t.clients[d] == w.clients[d]
  }

  /** While another client's chunk, or an abandoned one, is being written, every request is to be made again. */
  lemma BusyAsksAgain(setup: Setup, w: World, c: nat)
    requires c in setup.files && c in w.clients && !w.clients[c].phase.Ended?
    requires w.clients[c].phase.Verifying? ==>
      w.clients[c].phase.offset <= w.clients[c].phase.uploaded <= |setup.files[c]|
    requires w.server.append.Some? && !(w.server.append.value.client == c && w.server.append.value.heard)
    requires w.server.state == Uploading
    ensures var t := Next(setup, w, Request(c, true));
      OnlyClient(w, t, c) && AsksAgain(w.clients[c], t.clients[c])
  {
  }

  /** The client has found out that a block of its file is not what the server has, or that the upload is closed. */
  lemma OtherBytesThrow(setup: Setup, w: World, c: nat, uploaded: nat, offset: nat)
    requires c in setup.files && c in w.clients && w.clients[c].phase == Verifying(uploaded, offset)
    requires offset < uploaded <= |setup.files[c]| && w.server.append.None? && w.server.state == Uploading
    ensures var t := Next(setup, w, Request(c, true)); var end := Further(offset, uploaded);
      && OnlyClient(w, t, c)
      && (|w.server.file| != uploaded ==> AsksAgain(w.clients[c], t.clients[c]))
      && (|w.server.file| == uploaded
          && setup.digest(w.server.file[offset..end]) != setup.digest(setup.files[c][offset..end]) ==>
            t.clients[c].phase == Ended(Threw))
  {
  }

  /** Sending behind or ahead of what the server has, and completing too early, is done again from the state. */
  lemma OutOfStepAsksAgain(setup: Setup, w: World, c: nat)
    requires c in setup.files && c in w.clients && w.server.append.None? && w.server.state == Uploading
    requires var phase := w.clients[c].phase;
      || (phase.Sending? && phase.offset != |w.server.file|)
      || (phase == Completing && |w.server.file| != w.server.expected)
    ensures var t := Next(setup, w, Request(c, true));
      OnlyClient(w, t, c) && AsksAgain(w.clients[c], t.clients[c])
  {
  }

  /** When the upload is closed a poll makes the client return, and sending or completing makes it throw. */
  lemma ClosedEnds(setup: Setup, w: World, c: nat)
    requires c in setup.files && c in w.clients && w.server.append.None? && w.server.state != Uploading
    ensures var t := Next(setup, w, Request(c, true)); var phase := w.clients[c].phase;
      && OnlyClient(w, t, c)
      && (phase == Polling ==> t.clients[c].phase == Ended(NotResumable))
      && (phase.Sending? || phase == Completing ==> t.clients[c].phase == Ended(Threw))
      && (phase.Verifying? && phase.offset <= phase.uploaded <= |setup.files[c]| ==>
            AsksAgain(w.clients[c], t.clients[c]))
  {
  }

  /** A file larger than the declared size is not even begun. */
  lemma TooLargeThrows(setup: Setup, w: World, c: nat, offset: nat)
    requires c in setup.files && c in w.clients && w.clients[c].phase == Sending(offset)
    requires w.server.append.None? && w.server.state == Uploading && |w.server.file| == offset <= |setup.files[c]|
    requires Further(offset, |setup.files[c]|) > w.server.expected
    ensures var t := Next(setup, w, Request(c, true));
      OnlyClient(w, t, c) && t.clients[c].phase == Ended(Threw)
  {
  }
}
