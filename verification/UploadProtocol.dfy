/**
 Any number of clients, each with its own file, uploading to one job on one server: requests in any order, lost
 replies, requests that arrive after their client has given them up, bodies that break off, server crashes in the middle
 of a write, cancellation, expiry. The clients are those of `UploadClient`; the writes are those of `UploadServer`
 (`AppendIsWrites`).
 */
module UploadProtocol {
  import opened Wrappers
  import opened UploadClient
  import opened UploadServer

  /** The files of the clients and the digest of a block. */
  datatype Setup = Setup(files: map<nat, Bytes>, digest: Bytes -> int)

  /** Digests of different blocks differ. */
  ghost predicate CollisionFree(setup: Setup) {
    forall a: Bytes, b: Bytes :: setup.digest(a) == setup.digest(b) ==> a == b
  }

  /** A withdrawn job was cancelled and keeps its file; the files of one that is gone have expired. */
  datatype JobState = Uploading | Ready | Busy | Withdrawn | Gone

  /** A chunk request that the server is working on; `heard` says whether its client still waits for the reply. */
  datatype Append = Append(client: nat, base: nat, rest: Bytes, heard: bool)

  datatype Server = Server(file: Bytes, state: JobState, expected: nat, append: Option<Append>)

  /** A request that its client has given up and that is still on its way. */
  datatype Stale = StalePut(client: nat, offset: nat) | StaleComplete(client: nat)

  datatype World = World(server: Server, clients: map<nat, Client>, stale: set<Stale>)

  datatype Step =
    | Join(c: nat)
    | Request(c: nat, delivered: bool)
    | Lose(c: nat, failure: Reply)
    | Arrive(late: Stale)
    | Write(n: nat)
    | Commit
    | Rollback(failure: Reply)
    | CrashServer
    | Advance
    | Cancel
    | Expire

  const CONFLICT := Refused(409)

  function Busied(server: Server): bool {
    server.append.Some?
  }

  /** GET: the size is the size on disk. */
  function StatusReply(server: Server): Reply {
    if server.state.Uploading? && Busied(server) then CONFLICT
    else State(|server.file|, server.expected, server.state.Uploading?)
  }

  /** POST verify, for a block that the client has read from its own file. */
  function VerifyReply(setup: Setup, server: Server, mine: Bytes, uploaded: nat, offset: nat): Reply
    requires offset <= uploaded <= |mine|
  {
    var end := BlockEnd(uploaded, offset);
    if Busied(server) || !server.state.Uploading? || |server.file| != uploaded then CONFLICT
    else if setup.digest(server.file[offset..end]) != setup.digest(mine[offset..end]) then Refused(422)
    else Verified
  }

  function CompleteReply(server: Server): Reply {
    if Busied(server) then CONFLICT
    else if !server.state.Uploading? then Refused(400)
    else if |server.file| != server.expected then CONFLICT
    else Finished
  }

  function PutRefusal(server: Server, offset: nat): Option<Reply> {
    if Busied(server) then Some(CONFLICT)
    else if !server.state.Uploading? then Some(Refused(400))
    else if |server.file| != offset then Some(CONFLICT)
    else None
  }

  function Delivered(delivered: bool, r: Reply): Reply {
    if delivered then r else NetworkError
  }

  function Reacts(setup: Setup, w: World, c: nat, r: Reply): World
    requires c in w.clients && c in setup.files
  {
    w.(clients := w.clients[c := React(|setup.files[c]|, w.clients[c], r)])
  }

  /** The client whose chunk is being written and who still waits for the reply. */
  predicate WaitsForChunk(server: Server, c: nat) {
    server.append.Some? && server.append.value.client == c && server.append.value.heard
  }

  /** One request of client c, and the reply if it is delivered. */
  function Requested(setup: Setup, w: World, c: nat, delivered: bool): World
    requires c in w.clients && c in setup.files
  {
    var server, mine := w.server, setup.files[c];
    if WaitsForChunk(server, c) then w
    else
      match w.clients[c].phase
      case Ended(_) => w
      case Polling => Reacts(setup, w, c, Delivered(delivered, StatusReply(server)))
      case Verifying(uploaded, offset) =>
        if offset <= uploaded <= |mine|
        then Reacts(setup, w, c, Delivered(delivered, VerifyReply(setup, server, mine, uploaded, offset)))
        else w
      case Sending(offset) =>
        if PutRefusal(server, offset).Some?
        then Reacts(setup, w, c, Delivered(delivered, PutRefusal(server, offset).value))
        else if offset > |mine| then w
        else if ChunkEnd(|mine|, offset) > server.expected then Reacts(setup, w, c, Delivered(delivered, Refused(400)))
        else
          var t := w.(server := Begun(setup, server, c, offset, delivered));
          if delivered then t else Reacts(setup, t, c, NetworkError)
      case Completing =>
        var r := CompleteReply(server);
        var t := if r.Finished? then w.(server := server.(state := Ready)) else w;
        Reacts(setup, t, c, Delivered(delivered, r))
  }

  /** What the client may leave on its way when it gives its request up. */
  function GivenUp(c: nat, phase: Phase): set<Stale> {
    match phase
    case Sending(offset) => {StalePut(c, offset)}
    case Completing => {StaleComplete(c)}
    case _ => {}
  }

  /** The server begins to write a chunk of the client's file. */
  function Begun(setup: Setup, server: Server, c: nat, offset: nat, heard: bool): Server
    requires c in setup.files && offset <= |setup.files[c]|
  {
    var mine := setup.files[c];
    server.(append := Some(Append(c, offset, mine[offset..ChunkEnd(|mine|, offset)], heard)))
  }

  /** A late request takes effect if the server would take it now. It may arrive more than once. */
  function Arrived(setup: Setup, server: Server, late: Stale): Server {
    match late
    case StalePut(c, offset) =>
      if c in setup.files && offset <= |setup.files[c]| && PutRefusal(server, offset).None?
         && ChunkEnd(|setup.files[c]|, offset) <= server.expected
      then Begun(setup, server, c, offset, false)
      else server
    case StaleComplete(_) => if CompleteReply(server).Finished? then server.(state := Ready) else server
  }

  /** The reply to the chunk, if its client still waits for it. */
  function Answer(setup: Setup, w: World, a: Append, r: Reply): World {
    if a.heard && a.client in w.clients && a.client in setup.files then Reacts(setup, w, a.client, r) else w
  }

  function Next(setup: Setup, w: World, step: Step): World {
    var server := w.server;
    match step
    case Join(c) => if c in setup.files && c !in w.clients then w.(clients := w.clients[c := Fresh()]) else w
    case Request(c, delivered) => if c in w.clients && c in setup.files then Requested(setup, w, c, delivered) else w
    case Lose(c, failure) =>
      if c in w.clients && c in setup.files && IsError(failure) then
        var t :=
          if WaitsForChunk(server, c) then w.(server := server.(append := Some(server.append.value.(heard := false))))
          else w.(stale := w.stale + GivenUp(c, w.clients[c].phase));
        Reacts(setup, t, c, failure)
      else w
    case Arrive(late) => if late in w.stale then w.(server := Arrived(setup, server, late)) else w
    case Write(n) =>
      if server.append.Some? && n <= |server.append.value.rest| then
        var a := server.append.value;
        w.(server := server.(file := server.file + a.rest[..n], append := Some(a.(rest := a.rest[n..]))))
      else w
    case Commit =>
      if server.append.Some? && server.append.value.rest == [] then
        Answer(setup, w.(server := server.(append := None)), server.append.value, Stored(|server.file|))
      else w
    case Rollback(failure) =>
      if server.append.Some? && server.append.value.base <= |server.file| && IsError(failure) then
        var a := server.append.value;
        Answer(setup, w.(server := server.(file := server.file[..a.base], append := None)), a, failure)
      else w
    case CrashServer =>
      if server.append.Some? then
        Answer(setup, w.(server := server.(append := None)), server.append.value, NetworkError)
      else w
    case Advance => if server.state.Ready? then w.(server := server.(state := Busy)) else w
    case Cancel =>
      if server.append.None? && !server.state.Gone? then w.(server := server.(state := Withdrawn)) else w
    case Expire =>
      if server.append.None? then w.(server := server.(state := Gone, file := [])) else w
  }

  function Run(setup: Setup, w: World, steps: seq<Step>): World
    decreases |steps|
  {
    if steps == [] then w else Run(setup, Next(setup, w, steps[0]), steps[1..])
  }

  function Initial(expected: nat): World {
    World(Server([], Uploading, expected, None), map[], {})
  }

  // ----- what every step keeps -----

  /** What is safely on disk: while a chunk is being written, only what was there before it. */
  function Committed(server: Server): Bytes {
    if server.append.Some? && server.append.value.base <= |server.file|
    then server.file[..server.append.value.base]
    else server.file
  }

  /** The first n bytes on the server are the first n bytes of the client's file. */
  ghost predicate Agrees(server: Server, mine: Bytes, n: nat) {
    n <= |mine| && n <= |Committed(server)| && Committed(server)[..n] == mine[..n]
  }

  /** What a client has been told is true of the server's bytes, unless the job is gone. */
  ghost predicate ClientSound(server: Server, mine: Bytes, c: Client) {
    !server.state.Gone? ==>
      match c.phase
      case Polling => true
      case Verifying(uploaded, offset) =>
        |mine| == server.expected && offset < uploaded <= |mine| && Agrees(server, mine, offset)
      case Sending(offset) => |mine| == server.expected && offset < |mine| && Agrees(server, mine, offset)
      case Completing => |mine| == server.expected && Agrees(server, mine, |mine|)
      case Ended(outcome) =>
        && (outcome.Completed? ==> !server.state.Uploading? && server.file == mine)
        && (outcome.NotResumable? ==> !server.state.Uploading?)
  }

  /** What made the client send the request still holds when it arrives. */
  ghost predicate StaleSound(setup: Setup, server: Server, late: Stale) {
    late.client in setup.files && (!server.state.Gone? ==>
      var mine := setup.files[late.client];
      match late
      case StalePut(_, offset) => offset < |mine| && Agrees(server, mine, offset)
      case StaleComplete(_) => |mine| == server.expected && Agrees(server, mine, |mine|))
  }

  ghost predicate AppendSound(setup: Setup, w: World) {
    w.server.append.Some? ==>
      var a := w.server.append.value;
      && w.server.state.Uploading?
      && a.client in setup.files && a.base <= |w.server.file| && a.base < |w.server.file| + |a.rest|
      && w.server.file + a.rest <= setup.files[a.client]
      && (a.heard ==> a.client in w.clients && w.clients[a.client].phase == Sending(a.base))
  }

  /** A complete upload is exactly the file of one of the clients, of the declared size. */
  ghost predicate SomeonesFile(setup: Setup, server: Server) {
    server.state.Ready? || server.state.Busy? ==>
      |server.file| == server.expected && exists c :: c in setup.files && setup.files[c] == server.file
  }

  ghost predicate Inv(setup: Setup, w: World) {
    && AppendSound(setup, w)
    && SomeonesFile(setup, w.server)
    && (forall c :: c in w.clients ==> c in setup.files && ClientSound(w.server, setup.files[c], w.clients[c]))
    && forall late :: late in w.stale ==> StaleSound(setup, w.server, late)
  }

  /**
   The server side only moves forward: committed bytes stay, and a complete file is not touched until the job is
   gone.
   */
  ghost predicate Forward(server: Server, t: Server) {
    && t.expected == server.expected
    && (!t.state.Gone? ==>
        && !server.state.Gone?
        && Committed(server) <= Committed(t)
        && (!server.state.Uploading? ==> t.file == server.file && !t.state.Uploading?))
  }

  lemma ForwardSound(server: Server, t: Server, mine: Bytes, c: Client)
    requires Forward(server, t) && ClientSound(server, mine, c)
    ensures ClientSound(t, mine, c)
  {
    if !t.state.Gone? && (c.phase.Verifying? || c.phase.Sending? || c.phase.Completing?) {
      ForwardAgrees(server, t, mine, if c.phase.Completing? then |mine| else c.phase.offset);
    }
  }

  lemma ForwardAgrees(server: Server, t: Server, mine: Bytes, n: nat)
    requires Forward(server, t) && !t.state.Gone? && Agrees(server, mine, n)
    ensures Agrees(t, mine, n)
  {
    assert Committed(t)[..n] == Committed(server)[..n];
  }

  lemma ForwardStale(setup: Setup, server: Server, t: Server, late: Stale)
    requires Forward(server, t) && StaleSound(setup, server, late)
    ensures StaleSound(setup, t, late)
  {
    hide Agrees;
    if !t.state.Gone? {
      var mine := setup.files[late.client];
      ForwardAgrees(server, t, mine, if late.StalePut? then late.offset else |mine|);
    }
  }

  /** A reply that says nothing false. */
  ghost predicate TrueReply(server: Server, mine: Bytes, c: Client, r: Reply) {
    match r
    case State(_, expected, resumable) => expected == server.expected && resumable == server.state.Uploading?
    case Verified => c.phase.Verifying? ==> Agrees(server, mine, BlockEnd(c.phase.uploaded, c.phase.offset))
    case Stored(n) => c.phase.Sending? ==> 0 <= n && Agrees(server, mine, n)
    case Finished => !server.state.Uploading? && server.file == mine
    case _ => true
  }

  lemma ReactSound(server: Server, mine: Bytes, c: Client, r: Reply)
    requires ClientSound(server, mine, c)
    requires !server.state.Gone? ==> TrueReply(server, mine, c, r)
    ensures ClientSound(server, mine, React(|mine|, c, r))
  {
    var d := React(|mine|, c, r);
    if !server.state.Gone? && c.phase.Polling? && r.State? && !d.phase.Ended? {
      assert Agrees(server, mine, 0);
    }
  }

  /** Equal digests of a block are equal bytes, so one more block agrees. */
  lemma BlockAgrees(setup: Setup, server: Server, mine: Bytes, uploaded: nat, offset: nat)
    requires CollisionFree(setup) && server.append.None?
    requires offset < uploaded <= |mine| && |server.file| == uploaded && Agrees(server, mine, offset)
    requires setup.digest(server.file[offset..BlockEnd(uploaded, offset)])
      == setup.digest(mine[offset..BlockEnd(uploaded, offset)])
    ensures Agrees(server, mine, BlockEnd(uploaded, offset))
  {
    var end := BlockEnd(uploaded, offset);
    assert server.file[offset..end] == mine[offset..end];
    assert server.file[..end] == server.file[..offset] + server.file[offset..end];
    assert mine[..end] == mine[..offset] + mine[offset..end];
  }

  // ----- step by step -----

  lemma ReactsInv(setup: Setup, w: World, c: nat, r: Reply)
    requires Inv(setup, w) && c in w.clients && !WaitsForChunk(w.server, c)
    requires !w.server.state.Gone? ==> TrueReply(w.server, setup.files[c], w.clients[c], r)
    ensures Inv(setup, Reacts(setup, w, c, r))
  {
    ReactSound(w.server, setup.files[c], w.clients[c], r);
  }

  /** Only the server changes, and forward. */
  lemma ServerInv(setup: Setup, w: World, t: Server)
    requires Inv(setup, w) && Forward(w.server, t)
    requires AppendSound(setup, w.(server := t)) && SomeonesFile(setup, t)
    ensures Inv(setup, w.(server := t))
  {
    forall c | c in w.clients ensures ClientSound(t, setup.files[c], w.clients[c]) {
      ForwardSound(w.server, t, setup.files[c], w.clients[c]);
    }
    forall late | late in w.stale ensures StaleSound(setup, t, late) {
      ForwardStale(setup, w.server, t, late);
    }
  }

  lemma VerifyInv(setup: Setup, w: World, c: nat, delivered: bool)
    requires CollisionFree(setup) && Inv(setup, w) && c in w.clients && !WaitsForChunk(w.server, c)
    requires w.clients[c].phase.Verifying?
    ensures Inv(setup, Requested(setup, w, c, delivered))
  {
    var server, mine, phase := w.server, setup.files[c], w.clients[c].phase;
    if phase.offset <= phase.uploaded <= |mine| {
      var r := VerifyReply(setup, server, mine, phase.uploaded, phase.offset);
      assert ClientSound(server, mine, w.clients[c]);
      if r.Verified? && !server.state.Gone? {
        BlockAgrees(setup, server, mine, phase.uploaded, phase.offset);
      }
      ReactsInv(setup, w, c, Delivered(delivered, r));
    }
  }

  lemma SendInv(setup: Setup, w: World, c: nat, delivered: bool)
    requires Inv(setup, w) && c in w.clients && !WaitsForChunk(w.server, c)
    requires w.clients[c].phase.Sending?
    ensures Inv(setup, Requested(setup, w, c, delivered))
  {
    var server, mine, offset := w.server, setup.files[c], w.clients[c].phase.offset;
    assert ClientSound(server, mine, w.clients[c]);
    if PutRefusal(server, offset).Some? {
      ReactsInv(setup, w, c, Delivered(delivered, PutRefusal(server, offset).value));
    } else if ChunkEnd(|mine|, offset) > server.expected {
      ReactsInv(setup, w, c, Delivered(delivered, Refused(400)));
    } else {
      BeginInv(setup, w, c, offset, delivered);
      if !delivered {
        ReactsInv(setup, w.(server := Begun(setup, server, c, offset, delivered)), c, NetworkError);
      }
    }
  }

  /** A chunk is begun where the server's bytes agree with its file, so the file that grows is a part of that file. */
  lemma BeginInv(setup: Setup, w: World, c: nat, offset: nat, heard: bool)
    requires Inv(setup, w) && c in setup.files && PutRefusal(w.server, offset).None?
    requires offset < |setup.files[c]| && Agrees(w.server, setup.files[c], offset)
    requires heard ==> c in w.clients && w.clients[c].phase == Sending(offset)
    ensures Inv(setup, w.(server := Begun(setup, w.server, c, offset, heard)))
  {
    var server, mine := w.server, setup.files[c];
    var chunk := mine[offset..ChunkEnd(|mine|, offset)];
    assert server.file == mine[..offset];
    assert server.file + chunk == mine[..ChunkEnd(|mine|, offset)];
    var t := Begun(setup, server, c, offset, heard);
    assert Committed(t) == server.file;
    ServerInv(setup, w, t);
  }

  /** A file of the declared size that agrees as far as the client's file goes is that file. */
  lemma FinishInv(setup: Setup, w: World, c: nat)
    requires Inv(setup, w) && c in setup.files && CompleteReply(w.server).Finished?
    requires |setup.files[c]| == w.server.expected && Agrees(w.server, setup.files[c], |setup.files[c]|)
    ensures w.server.file == setup.files[c]
    ensures Inv(setup, w.(server := w.server.(state := Ready)))
  {
    var server, mine := w.server, setup.files[c];
    assert server.file == server.file[..|mine|] == mine[..|mine|] == mine;
    ServerInv(setup, w, server.(state := Ready));
  }

  lemma CompleteInv(setup: Setup, w: World, c: nat, delivered: bool)
    requires Inv(setup, w) && c in w.clients && !WaitsForChunk(w.server, c)
    requires w.clients[c].phase.Completing?
    ensures Inv(setup, Requested(setup, w, c, delivered))
  {
    var server, mine := w.server, setup.files[c];
    var r := CompleteReply(server);
    assert ClientSound(server, mine, w.clients[c]);
    if r.Finished? {
      FinishInv(setup, w, c);
      ReactsInv(setup, w.(server := server.(state := Ready)), c, Delivered(delivered, r));
    } else {
      ReactsInv(setup, w, c, Delivered(delivered, r));
    }
  }

  lemma RequestInv(setup: Setup, w: World, c: nat, delivered: bool)
    requires CollisionFree(setup) && Inv(setup, w) && c in w.clients
    ensures Inv(setup, Requested(setup, w, c, delivered))
  {
    hide Inv;
    ClientsKnown(setup, w, c);
    if !WaitsForChunk(w.server, c) {
      match w.clients[c].phase {
        case Polling =>
          PollTrue(w.server, setup.files[c], w.clients[c], delivered);
          ReactsInv(setup, w, c, Delivered(delivered, StatusReply(w.server)));
        case Verifying(_, _) => VerifyInv(setup, w, c, delivered);
        case Sending(_) => SendInv(setup, w, c, delivered);
        case Completing => CompleteInv(setup, w, c, delivered);
        case Ended(_) =>
      }
    }
  }

  lemma ClientsKnown(setup: Setup, w: World, c: nat)
    requires Inv(setup, w) && c in w.clients
    ensures c in setup.files
  {
  }

  lemma PollTrue(server: Server, mine: Bytes, c: Client, delivered: bool)
    ensures TrueReply(server, mine, c, Delivered(delivered, StatusReply(server)))
  {
  }

  lemma LoseInv(setup: Setup, w: World, c: nat, failure: Reply)
    requires Inv(setup, w) && c in w.clients && IsError(failure)
    ensures Inv(setup, Next(setup, w, Lose(c, failure)))
  {
    var server := w.server;
    if WaitsForChunk(server, c) {
      var t := server.(append := Some(server.append.value.(heard := false)));
      assert Committed(t) == Committed(server);
      ServerInv(setup, w, t);
      ReactsInv(setup, w.(server := t), c, failure);
    } else {
      var t := w.(stale := w.stale + GivenUp(c, w.clients[c].phase));
      assert ClientSound(server, setup.files[c], w.clients[c]);
      assert Inv(setup, t);
      ReactsInv(setup, t, c, failure);
    }
  }

  lemma ArriveInv(setup: Setup, w: World, late: Stale)
    requires Inv(setup, w) && late in w.stale
    ensures Inv(setup, w.(server := Arrived(setup, w.server, late)))
  {
    assert StaleSound(setup, w.server, late);
    assert w.(server := w.server) == w;
    match late
    case StalePut(c, offset) =>
      if Arrived(setup, w.server, late) != w.server {
        BeginInv(setup, w, c, offset, false);
      }
    case StaleComplete(c) =>
      if CompleteReply(w.server).Finished? {
        FinishInv(setup, w, c);
      }
  }

  lemma WriteInv(setup: Setup, w: World, n: nat)
    requires Inv(setup, w) && w.server.append.Some? && n <= |w.server.append.value.rest|
    ensures Inv(setup, Next(setup, w, Write(n)))
  {
    var server := w.server;
    var a := server.append.value;
    var t := server.(file := server.file + a.rest[..n], append := Some(a.(rest := a.rest[n..])));
    assert t.file + a.rest[n..] == server.file + a.rest;
    assert Committed(t) == Committed(server);
    ServerInv(setup, w, t);
  }

  lemma AnswerInv(setup: Setup, w: World, t: Server, r: Reply)
    requires Inv(setup, w) && w.server.append.Some? && t.append.None?
    requires Forward(w.server, t) && SomeonesFile(setup, t)
    requires var a := w.server.append.value;
      a.client in setup.files && (a.client in w.clients && a.heard && !t.state.Gone? ==>
        TrueReply(t, setup.files[a.client], w.clients[a.client], r))
    ensures Inv(setup, Answer(setup, w.(server := t), w.server.append.value, r))
  {
    var a := w.server.append.value;
    ServerInv(setup, w, t);
    if a.heard && a.client in w.clients {
      ReactsInv(setup, w.(server := t), a.client, r);
    }
  }

  lemma CommitInv(setup: Setup, w: World)
    requires Inv(setup, w) && w.server.append.Some? && w.server.append.value.rest == []
    ensures Inv(setup, Next(setup, w, Commit))
  {
    var server := w.server;
    var a := server.append.value;
    var t := server.(append := None);
    assert server.file + a.rest == server.file;
    assert Committed(server) == server.file[..a.base] <= server.file;
    AnswerInv(setup, w, t, Stored(|server.file|));
  }

  lemma RollbackInv(setup: Setup, w: World, failure: Reply)
    requires Inv(setup, w) && w.server.append.Some? && IsError(failure)
    ensures Inv(setup, Next(setup, w, Rollback(failure)))
  {
    var server := w.server;
    var t := server.(file := server.file[..server.append.value.base], append := None);
    assert Committed(t) == Committed(server);
    AnswerInv(setup, w, t, failure);
  }

  lemma CrashInv(setup: Setup, w: World)
    requires Inv(setup, w) && w.server.append.Some?
    ensures Inv(setup, Next(setup, w, CrashServer))
  {
    var t := w.server.(append := None);
    assert Committed(w.server) <= t.file;
    AnswerInv(setup, w, t, NetworkError);
  }

  lemma StepInv(setup: Setup, w: World, step: Step)
    requires CollisionFree(setup) && Inv(setup, w)
    ensures Inv(setup, Next(setup, w, step))
  {
    hide Requested, Answer, ClientSound;
    match step
    case Join(c) =>
      JoinSound(w.server, if c in setup.files then setup.files[c] else []);
    case Request(c, delivered) =>
      if c in w.clients {
        RequestInv(setup, w, c, delivered);
      }
    case Lose(c, failure) =>
      if c in w.clients && IsError(failure) {
        LoseInv(setup, w, c, failure);
      }
    case Arrive(late) =>
      if late in w.stale {
        ArriveInv(setup, w, late);
      }
    case Write(n) =>
      if w.server.append.Some? && n <= |w.server.append.value.rest| {
        WriteInv(setup, w, n);
      }
    case Commit =>
      if w.server.append.Some? && w.server.append.value.rest == [] {
        CommitInv(setup, w);
      }
    case Rollback(failure) =>
      if w.server.append.Some? && IsError(failure) {
        RollbackInv(setup, w, failure);
      }
    case CrashServer =>
      if w.server.append.Some? {
        CrashInv(setup, w);
      }
    case Advance =>
      if w.server.state.Ready? {
        ServerInv(setup, w, w.server.(state := Busy));
      }
    case Cancel =>
      if w.server.append.None? && !w.server.state.Gone? {
        ServerInv(setup, w, w.server.(state := Withdrawn));
      }
    case Expire =>
      if w.server.append.None? {
        ServerInv(setup, w, w.server.(state := Gone, file := []));
      }
  }

  lemma JoinSound(server: Server, mine: Bytes)
    ensures ClientSound(server, mine, Fresh())
  {
  }

  lemma {:induction false} RunInv(setup: Setup, w: World, steps: seq<Step>)
    requires CollisionFree(setup) && Inv(setup, w)
    ensures Inv(setup, Run(setup, w, steps))
    decreases |steps|
  {
    if steps != [] {
      StepInv(setup, w, steps[0]);
      RunInv(setup, Next(setup, w, steps[0]), steps[1..]);
    }
  }

  lemma InitialInv(setup: Setup, expected: nat)
    ensures Inv(setup, Initial(expected))
  {
  }

  // ----- results over whole runs -----

  /** Every step: what is safely on disk is only ever extended, until the job is gone. */
  lemma StepForward(setup: Setup, w: World, step: Step)
    requires Inv(setup, w)
    ensures Forward(w.server, Next(setup, w, step).server)
  {
    var server := w.server;
    if server.append.Some? {
      var a := server.append.value;
      match step
      case Write(n) =>
        if n <= |a.rest| {
          assert (server.file + a.rest[..n])[..a.base] == server.file[..a.base];
        }
      case _ =>
    }
  }

  lemma {:induction false} OnlyExtended(setup: Setup, w: World, steps: seq<Step>)
    requires CollisionFree(setup) && Inv(setup, w)
    ensures Forward(w.server, Run(setup, w, steps).server)
    decreases |steps|
  {
    if steps != [] {
      StepInv(setup, w, steps[0]);
      StepForward(setup, w, steps[0]);
      OnlyExtended(setup, Next(setup, w, steps[0]), steps[1..]);
    }
  }

  /**
   Upload agreement. In any interleaving of any clients with lost replies, broken bodies and server crashes: when a
   client's own completion was accepted, the server's file is that client's file, and stays so until the job is gone.
   */
  lemma UploadAgreement(setup: Setup, expected: nat, steps: seq<Step>, c: nat)
    requires CollisionFree(setup)
    requires var w := Run(setup, Initial(expected), steps);
      c in w.clients && w.clients[c].phase == Ended(Completed) && !w.server.state.Gone?
    ensures c in setup.files && Run(setup, Initial(expected), steps).server.file == setup.files[c]
  {
    InitialInv(setup, expected);
    RunInv(setup, Initial(expected), steps);
  }

  /** A complete upload is never a mixture: it is exactly one client's file. */
  lemma CompleteIsSomeones(setup: Setup, expected: nat, steps: seq<Step>)
    requires CollisionFree(setup)
    requires var w := Run(setup, Initial(expected), steps); w.server.state.Ready? || w.server.state.Busy?
    ensures exists c :: c in setup.files && setup.files[c] == Run(setup, Initial(expected), steps).server.file
  {
    InitialInv(setup, expected);
    RunInv(setup, Initial(expected), steps);
  }

  /** Between two moments of a run at which no chunk is being written, the file is only extended. */
  lemma QuiescentExtended(setup: Setup, expected: nat, before: seq<Step>, steps: seq<Step>)
    requires CollisionFree(setup)
    requires var w := Run(setup, Initial(expected), before); w.server.append.None?
    requires var t := Run(setup, Run(setup, Initial(expected), before), steps);
      t.server.append.None? && !t.server.state.Gone?
    ensures var w := Run(setup, Initial(expected), before); w.server.file <= Run(setup, w, steps).server.file
  {
    InitialInv(setup, expected);
    RunInv(setup, Initial(expected), before);
    OnlyExtended(setup, Run(setup, Initial(expected), before), steps);
  }

  // ----- what a normal return means -----

  /** The client's call has returned without an exception and without having been aborted. */
  predicate Returned(phase: Phase) {
    phase == Ended(Completed) || phase == Ended(NotResumable)
  }

  ghost predicate HasReturned(w: World, c: nat) {
    c in w.clients && Returned(w.clients[c].phase)
  }

  /**
   With the last step the client returns normally, and at that moment the bytes of the job are not those of its file.
   */
  ghost predicate Misled(setup: Setup, expected: nat, steps: seq<Step>, last: Step, c: nat) {
    var w := Run(setup, Initial(expected), steps);
    var v := Next(setup, w, last);
    c in setup.files && !HasReturned(w, c) && HasReturned(v, c) && v.server.file != setup.files[c]
  }

  /** The steps that end an upload from outside: a cancellation and the expiry of the job. */
  predicate Closes(step: Step) {
    step.Cancel? || step.Expire?
  }

  ghost predicate Undisturbed(steps: seq<Step>) {
    forall step :: step in steps ==> !Closes(step)
  }

  /** No client is misled as long as the job is neither cancelled nor expires. */
  ghost predicate ReturnsAreTrue(setup: Setup, expected: nat) {
    forall steps, last, c :: Undisturbed(steps) ==> !Misled(setup, expected, steps, last, c)
  }

  /** No client is ever misled. */
  ghost predicate ReturnsAreAlwaysTrue(setup: Setup, expected: nat) {
    forall steps, last, c :: !Misled(setup, expected, steps, last, c)
  }

  /** Nobody has a file of the declared size that differs from somebody else's file. */
  predicate OneFile(setup: Setup, expected: nat) {
    forall c, d :: c in setup.files && d in setup.files && |setup.files[d]| == expected ==>
      setup.files[c] == setup.files[d]
  }

  /** A client whose own completion has just been accepted is never misled: who is has found the upload closed. */
  lemma MisledFoundClosed(setup: Setup, expected: nat, steps: seq<Step>, last: Step, c: nat)
    requires CollisionFree(setup) && Misled(setup, expected, steps, last, c)
    ensures var w := Run(setup, Initial(expected), steps);
      last == Request(c, true) && !w.server.state.Uploading? && Next(setup, w, last).server == w.server
      && c in w.clients && w.clients[c].phase.Polling?
  {
    InitialInv(setup, expected);
    RunInv(setup, Initial(expected), steps);
    var w := Run(setup, Initial(expected), steps);
    StepInv(setup, w, last);
    ReturnStep(setup, w, last, c);
  }

  lemma ReactReturns(size: nat, client: Client, r: Reply)
    requires !Returned(client.phase)
    ensures Returned(React(size, client, r).phase) ==>
      (client.phase.Polling? && r.State? && !r.resumable) || (client.phase.Completing? && r.Finished?)
  {
  }

  /** A client whose last reply was an error, or an acknowledged chunk, has not returned. */
  lemma NoReturn(setup: Setup, w: World, d: nat, r: Reply, c: nat)
    requires d in w.clients && d in setup.files && !r.State? && !r.Finished? && !HasReturned(w, c)
    ensures !HasReturned(Reacts(setup, w, d, r), c)
  {
    hide React;
    if d == c {
      ReactReturns(|setup.files[c]|, w.clients[c], r);
    }
  }

  /** A request after which its client has returned is one for the state or a completion. */
  lemma RequestReturns(setup: Setup, w: World, c: nat, delivered: bool)
    requires Inv(setup, w) && c in w.clients && c in setup.files
    requires !HasReturned(w, c) && HasReturned(Requested(setup, w, c, delivered), c)
    ensures delivered
    ensures var v := Requested(setup, w, c, delivered);
      || (w.clients[c].phase.Polling? && !w.server.state.Uploading? && v.server == w.server)
      || v.server.file == setup.files[c]
  {
    hide React;
    var client := w.clients[c];
    assert ClientSound(w.server, setup.files[c], client);
    if !WaitsForChunk(w.server, c) {
      match client.phase
      case Polling => ReactReturns(|setup.files[c]|, client, Delivered(delivered, StatusReply(w.server)));
      case Completing => ReactReturns(|setup.files[c]|, client, Delivered(delivered, CompleteReply(w.server)));
      case Verifying(uploaded, offset) =>
        if offset <= uploaded <= |setup.files[c]| {
          var r := VerifyReply(setup, w.server, setup.files[c], uploaded, offset);
          NoReturn(setup, w, c, Delivered(delivered, r), c);
        }
      case Sending(offset) => SendingStays(setup, w, c, delivered);
      case Ended(_) =>
    }
  }

  lemma SendingStays(setup: Setup, w: World, c: nat, delivered: bool)
    requires c in w.clients && c in setup.files && w.clients[c].phase.Sending? && !HasReturned(w, c)
    ensures !HasReturned(Requested(setup, w, c, delivered), c)
  {
  }

  /** How a client comes to return: its completion is accepted, or it asks and hears that the upload is closed. */
  lemma ReturnStep(setup: Setup, w: World, last: Step, c: nat)
    requires Inv(setup, w) && !HasReturned(w, c) && HasReturned(Next(setup, w, last), c)
    ensures last == Request(c, true) && c in w.clients && c in setup.files
    ensures var v := Next(setup, w, last);
      || (w.clients[c].phase.Polling? && !w.server.state.Uploading? && v.server == w.server)
      || (v.server.file == setup.files[c])
  {
    hide Requested, React, Inv;
    match last
    case Request(d, delivered) =>
      if d == c {
        RequestReturns(setup, w, c, delivered);
      } else {
        OtherRequest(setup, w, d, delivered, c);
      }
    case Lose(d, failure) =>
      LostStays(setup, w, d, failure, c);
    case Commit => AnsweredStays(setup, w, last, c);
    case Rollback(failure) => AnsweredStays(setup, w, last, c);
    case CrashServer => AnsweredStays(setup, w, last, c);
    case _ =>
  }

  lemma OtherRequest(setup: Setup, w: World, d: nat, delivered: bool, c: nat)
    requires c != d && !HasReturned(w, c)
    ensures !HasReturned(Next(setup, w, Request(d, delivered)), c)
  {
  }

  lemma LostStays(setup: Setup, w: World, d: nat, failure: Reply, c: nat)
    requires !HasReturned(w, c)
    ensures !HasReturned(Next(setup, w, Lose(d, failure)), c)
  {
  }

  lemma AnsweredStays(setup: Setup, w: World, step: Step, c: nat)
    requires !HasReturned(w, c) && (step.Commit? || step.Rollback? || step.CrashServer?)
    ensures !HasReturned(Next(setup, w, step), c)
  {
  }

  predicate StillOpen(server: Server) {
    !server.state.Gone? && !server.state.Withdrawn?
  }

  lemma {:induction false} NeverClosed(setup: Setup, w: World, steps: seq<Step>)
    requires StillOpen(w.server) && Undisturbed(steps)
    ensures StillOpen(Run(setup, w, steps).server)
    decreases |steps|
  {
    if steps != [] {
      assert steps[0] in steps && forall step :: step in steps[1..] ==> step in steps;
      OpenStep(setup, w, steps[0]);
      NeverClosed(setup, Next(setup, w, steps[0]), steps[1..]);
    }
  }

  lemma OpenStep(setup: Setup, w: World, step: Step)
    requires StillOpen(w.server) && !Closes(step)
    ensures StillOpen(Next(setup, w, step).server)
  {
  }

  lemma OneFileNotMisled(setup: Setup, expected: nat, steps: seq<Step>, last: Step, c: nat)
    requires CollisionFree(setup) && OneFile(setup, expected) && Undisturbed(steps)
    ensures !Misled(setup, expected, steps, last, c)
  {
    var w := Run(setup, Initial(expected), steps);
    InitialInv(setup, expected);
    RunInv(setup, Initial(expected), steps);
    OnlyExtended(setup, Initial(expected), steps);
    NeverClosed(setup, Initial(expected), steps);
    assert SomeonesFile(setup, w.server);
    assert c in setup.files && !w.server.state.Uploading? ==> w.server.file == setup.files[c];
    if Misled(setup, expected, steps, last, c) {
      MisledFoundClosed(setup, expected, steps, last, c);
    }
  }

  lemma RunOne(setup: Setup, w: World, a: Step, rest: seq<Step>)
    ensures Run(setup, w, [a] + rest) == Run(setup, Next(setup, w, a), rest)
  {
    hide Next;
    assert ([a] + rest)[1..] == rest;
  }

  lemma RunNone(setup: Setup, w: World)
    ensures Run(setup, w, []) == w
  {
  }

  lemma {:induction false} RunConcat(setup: Setup, w: World, a: seq<Step>, b: seq<Step>)
    ensures Run(setup, w, a + b) == Run(setup, Run(setup, w, a), b)
    decreases |a|
  {
    hide Next;
    if a == [] {
      assert a + b == b;
    } else {
      assert (a + b)[1..] == a[1..] + b;
      RunConcat(setup, Next(setup, w, a[0]), a[1..], b);
    }
  }

  /** Client d alone, with the first `offset` bytes of its file on the server. */
  function Partly(setup: Setup, d: nat, offset: nat): World
    requires d in setup.files && offset <= |setup.files[d]|
  {
    var mine := setup.files[d];
    World(Server(mine[..offset], Uploading, |mine|, None), map[d := Client(SendFrom(|mine|, offset), 0)], {})
  }

  /** One chunk: sent, written and acknowledged. */
  lemma ChunkUploads(setup: Setup, d: nat, offset: nat)
    requires d in setup.files && offset < |setup.files[d]|
    ensures var mine := setup.files[d];
      var end := ChunkEnd(|mine|, offset);
      offset < end <= |mine| &&
      Next(setup, Next(setup, Next(setup, Partly(setup, d, offset), Request(d, true)), Write(end - offset)), Commit)
      == Partly(setup, d, end)
  {
    var mine := setup.files[d];
    var end := ChunkEnd(|mine|, offset);
    var chunk := mine[offset..end];
    var w := Partly(setup, d, offset);
    var a := Next(setup, w, Request(d, true));
    assert a == w.(server := w.server.(append := Some(Append(d, offset, chunk, true))));
    assert chunk[..end - offset] == chunk && chunk[end - offset..] == [];
    assert mine[..offset] + chunk == mine[..end];
    var b := Next(setup, a, Write(end - offset));
    assert b.server == Server(mine[..end], Uploading, |mine|, Some(Append(d, offset, [], true)));
    var v := Next(setup, b, Commit);
    assert v.clients == map[d := Client(SendFrom(|mine|, end), 0)];
  }

  lemma {:induction false} RestUploads(setup: Setup, d: nat, offset: nat) returns (steps: seq<Step>)
    requires d in setup.files && offset <= |setup.files[d]|
    ensures Run(setup, Partly(setup, d, offset), steps) == Partly(setup, d, |setup.files[d]|)
    ensures Undisturbed(steps)
    decreases |setup.files[d]| - offset
  {
    hide Next, Run;
    var mine := setup.files[d];
    if offset == |mine| {
      steps := [];
      RunNone(setup, Partly(setup, d, offset));
    } else {
      ChunkUploads(setup, d, offset);
      var end := ChunkEnd(|mine|, offset);
      var rest := RestUploads(setup, d, end);
      var w := Partly(setup, d, offset);
      var a := Next(setup, w, Request(d, true));
      steps := [Request(d, true)] + ([Write(end - offset)] + ([Commit] + rest));
      RunOne(setup, w, Request(d, true), [Write(end - offset)] + ([Commit] + rest));
      RunOne(setup, a, Write(end - offset), [Commit] + rest);
      RunOne(setup, Next(setup, a, Write(end - offset)), Commit, rest);
    }
  }

  /** From nothing, client d uploads its whole file, chunk by chunk, and completes. */
  lemma WholeUploads(setup: Setup, d: nat) returns (steps: seq<Step>)
    requires d in setup.files
    ensures var mine := setup.files[d];
      Run(setup, Initial(|mine|), steps)
        == World(Server(mine, Ready, |mine|, None), map[d := Client(Ended(Completed), 0)], {})
    ensures Undisturbed(steps)
  {
    hide Run;
    var mine := setup.files[d];
    var w := Initial(|mine|);
    var a := Next(setup, w, Join(d));
    assert a.clients == map[d := Client(Polling, 0)];
    var b := Next(setup, a, Request(d, true));
    assert mine[..0] == [] && b == Partly(setup, d, 0);
    var middle := RestUploads(setup, d, 0);
    var done := Partly(setup, d, |mine|);
    assert mine[..|mine|] == mine;
    var last: seq<Step> := [Request(d, true)] + [];
    steps := [Join(d)] + ([Request(d, true)] + (middle + last));
    RunOne(setup, w, Join(d), [Request(d, true)] + (middle + last));
    RunOne(setup, a, Request(d, true), middle + last);
    RunConcat(setup, b, middle, last);
    RunOne(setup, done, Request(d, true), []);
    RunNone(setup, Next(setup, done, Request(d, true)));
    assert Next(setup, done, Request(d, true)).clients == map[d := Client(Ended(Completed), 0)];
  }

  /** Client d uploads its file; client c, with another file, finds the upload closed and returns normally. */
  lemma OtherFileMisleads(setup: Setup, expected: nat, c: nat, d: nat) returns (steps: seq<Step>)
    requires c in setup.files && d in setup.files
    requires |setup.files[d]| == expected && setup.files[c] != setup.files[d]
    ensures Undisturbed(steps) && Misled(setup, expected, steps, Request(c, true), c)
    ensures var w := Run(setup, Initial(expected), steps); w.server.state.Ready? && w.server.file == setup.files[d]
  {
    hide Run;
    var first := WholeUploads(setup, d);
    var w := Run(setup, Initial(expected), first);
    var more: seq<Step> := [Join(c)] + [];
    steps := first + more;
    RunConcat(setup, Initial(expected), first, more);
    RunOne(setup, w, Join(c), []);
    var v := Next(setup, w, Join(c));
    RunNone(setup, v);
    assert v.clients[c] == Client(Polling, 0);
  }

  /**
   As long as the job is neither cancelled nor expires: a normal return of `resumeUpload` means in every run that the
   client's own bytes are on the server, if and only if no client has a file of the declared size that differs from
   another client's file.
   */
  lemma ReturnMeansMyBytes(setup: Setup, expected: nat)
    requires CollisionFree(setup)
    ensures ReturnsAreTrue(setup, expected) <==> OneFile(setup, expected)
  {
    hide Misled, Undisturbed;
    if OneFile(setup, expected) {
      forall steps, last, c | Undisturbed(steps) ensures !Misled(setup, expected, steps, last, c) {
        OneFileNotMisled(setup, expected, steps, last, c);
      }
    } else {
      var c, d :| c in setup.files && d in setup.files && |setup.files[d]| == expected
        && setup.files[c] != setup.files[d];
      var steps := OtherFileMisleads(setup, expected, c, d);
      assert Misled(setup, expected, steps, Request(c, true), c);
    }
  }

  function TwoFiles(digest: Bytes -> int): Setup {
    Setup(map[0 := [1], 1 := [2]], digest)
  }

  /** Two files of one byte each are enough: client 1 returns normally and the server holds client 0's byte. */
  lemma NotResumableSaysNothing(digest: Bytes -> int) returns (steps: seq<Step>)
    ensures Misled(TwoFiles(digest), 1, steps, Request(1, true), 1)
    ensures Run(TwoFiles(digest), Initial(1), steps).server.state.Ready?
  {
    hide Run, Next, Misled;
    var setup := TwoFiles(digest);
    assert setup.files[0][0] == 1 && setup.files[1][0] == 2;
    steps := OtherFileMisleads(setup, 1, 1, 0);
  }

  // ----- cancellation and expiry -----

  /**
   A client alone with its file: the job is closed before it asks, and it returns normally with nothing on the
   server.
   */
  lemma ClosingMisleads(setup: Setup, expected: nat, c: nat, closing: Step)
    requires c in setup.files && setup.files[c] != [] && Closes(closing)
    ensures Misled(setup, expected, [Join(c), closing], Request(c, true), c)
    ensures Run(setup, Initial(expected), [Join(c), closing]).server.file == []
  {
    hide Run;
    var w := Initial(expected);
    var a := Next(setup, w, Join(c));
    var b := Next(setup, a, closing);
    assert [Join(c), closing] == [Join(c)] + ([closing] + []);
    RunOne(setup, w, Join(c), [closing] + []);
    RunOne(setup, a, closing, []);
    RunNone(setup, b);
    assert b.clients == map[c := Client(Polling, 0)] && b.server.file == [] && !b.server.state.Uploading?;
  }

  predicate NothingToUpload(setup: Setup) {
    forall c :: c in setup.files ==> setup.files[c] == []
  }

  predicate NoBytes(server: Server) {
    server.file == [] && (server.append.Some? ==> server.append.value.rest == [])
  }

  lemma NoBytesStep(setup: Setup, w: World, step: Step)
    requires NothingToUpload(setup) && NoBytes(w.server)
    ensures NoBytes(Next(setup, w, step).server)
  {
  }

  lemma {:induction false} NoBytesRun(setup: Setup, w: World, steps: seq<Step>)
    requires NothingToUpload(setup) && NoBytes(w.server)
    ensures NoBytes(Run(setup, w, steps).server)
    decreases |steps|
  {
    hide Next, NoBytes;
    if steps != [] {
      NoBytesStep(setup, w, steps[0]);
      NoBytesRun(setup, Next(setup, w, steps[0]), steps[1..]);
    }
  }

  /**
   With cancellation and expiry a normal return is worth nothing: it means in every run that the client's own bytes are
   on the server if and only if there are no bytes to upload at all.
   */
  lemma ClosedReturnMeansNothing(setup: Setup, expected: nat)
    ensures ReturnsAreAlwaysTrue(setup, expected) <==> NothingToUpload(setup)
  {
    hide Run, Next;
    if NothingToUpload(setup) {
      forall steps, last, c ensures !Misled(setup, expected, steps, last, c) {
        NoBytesRun(setup, Initial(expected), steps);
        NoBytesStep(setup, Run(setup, Initial(expected), steps), last);
      }
    } else {
      var c :| c in setup.files && setup.files[c] != [];
      ClosingMisleads(setup, expected, c, Expire);
    }
  }

  // ----- the writes of the server -----

  /** The file on disk and what is still to be written make up the old content and the chunk. */
  ghost predicate Writing(w: World, file: Bytes, whole: Bytes, base: nat) {
    w.server.append.Some? && w.server.file == file && w.server.append.value.base == base
      && file + w.server.append.value.rest == whole
  }

  /** The disk states of `append_chunk` are states of the protocol, one `Write` after the other. */
  lemma {:induction false} DiskIsWrites(setup: Setup, w: World, before: Bytes, chunk: Bytes, disk: seq<Bytes>, k: nat)
    returns (steps: seq<Step>)
    requires GrowsBy(disk, before, chunk) && k < |disk|
    requires Writing(w, before, before + chunk, |before|)
    ensures forall j :: 0 <= j < |steps| ==> steps[j].Write?
    ensures Writing(Run(setup, w, steps), disk[k], before + chunk, |before|)
    ensures var v := Run(setup, w, steps);
      v.server.append.value.(rest := []) == w.server.append.value.(rest := []) && v.clients == w.clients
  {
    if k == 0 {
      steps := [];
    } else {
      var sofar := DiskIsWrites(setup, w, before, chunk, disk, k - 1);
      var v := Run(setup, w, sofar);
      assert Part(disk[k - 1], disk[k]) && Part(disk[k], before + chunk);
      var n := |disk[k]| - |disk[k - 1]|;
      var rest := v.server.append.value.rest;
      assert disk[k - 1] + rest[..n] == (before + chunk)[..|disk[k]|] == disk[k];
      assert disk[k] + rest[n..] == before + chunk;
      steps := sofar + [Write(n)];
      RunConcat(setup, w, sofar, [Write(n)]);
      assert [Write(n)] + [] == [Write(n)];
      RunOne(setup, v, Write(n), []);
    }
  }

  /**
   A whole `append_chunk` is a sequence of `Write` steps ended by `Commit` if it succeeds and by `Rollback` if it fails,
   and a crash after any of its disk states leaves exactly that state.
   */
  lemma AppendIsWrites(setup: Setup, w: World, before: Bytes, chunk: Bytes, disk: seq<Bytes>, ok: bool, failure: Reply)
    returns (steps: seq<Step>)
    requires GrowsBy(disk, before, chunk) && Writing(w, before, before + chunk, |before|)
    requires IsError(failure) && (ok ==> disk[|disk| - 1] == before + chunk)
    ensures var v := Run(setup, w, steps + [if ok then Commit else Rollback(failure)]);
      v.server.append.None? && v.server.file == if ok then before + chunk else before
    ensures forall j :: 0 <= j < |steps| ==> steps[j].Write?
  {
    steps := DiskIsWrites(setup, w, before, chunk, disk, |disk| - 1);
    var v := Run(setup, w, steps);
    var last := if ok then Commit else Rollback(failure);
    RunConcat(setup, w, steps, [last]);
    assert [last] + [] == [last];
    RunOne(setup, v, last, []);
    assert Part(before, disk[|disk| - 1]);
    if ok {
      WrittenOut(before + chunk, v.server.append.value.rest);
    }
  }

  lemma WrittenOut(whole: Bytes, rest: Bytes)
    requires whole + rest == whole
    ensures rest == []
  {
    assert |whole + rest| == |whole| + |rest|;
  }

  lemma CrashLeaves(setup: Setup, w: World, before: Bytes, chunk: Bytes, disk: seq<Bytes>, k: nat)
    returns (steps: seq<Step>)
    requires GrowsBy(disk, before, chunk) && k < |disk| && Writing(w, before, before + chunk, |before|)
    ensures var v := Run(setup, w, steps); v.server.append.None? && v.server.file == disk[k]
  {
    var writes := DiskIsWrites(setup, w, before, chunk, disk, k);
    steps := writes + [CrashServer];
    RunConcat(setup, w, writes, [CrashServer]);
    assert [CrashServer] + [] == [CrashServer];
    RunOne(setup, Run(setup, w, writes), CrashServer, []);
  }
}
