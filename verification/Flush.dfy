/**
  FLUSH/FUA sequencing of block/blk-flush.c as a state machine.

  A request that needs a cache flush before or after its data runs through up to three stages.
  Waiting requests gather on the pending one of two queues; a flush request is issued for all of
  them at once and the queues change roles while it is in flight.

  The state carries the history the guarantees speak about: a log of what reached the device and
  came back, and for every request the stages it has run.
 */
module Flush {
  import opened Basics
  import opened Completion

  /** A mask of REQ_FSEQ_PREFLUSH, REQ_FSEQ_DATA and REQ_FSEQ_POSTFLUSH. */
  datatype Stages = Stages(pre: bool, data: bool, post: bool) {
    function Or(s: Stages): Stages { Stages(pre || s.pre, data || s.data, post || s.post) }

    function Not(): Stages { Stages(!pre, !data, !post) }
  }

  datatype Step = PreFlush | Data | PostFlush | Done

  function Mask(s: Step): Stages { Stages(s.PreFlush?, s.Data?, s.PostFlush?) }

  /** What the device supports and what the request asks for. */
  datatype Flags = Flags(flush: bool, fua: bool)

  /** blk_flush_policy */
  function Policy(device: Flags, rq: Flags, hasData: bool): Stages {
    Stages(device.flush && rq.flush, hasData, device.flush && !device.fua && rq.fua)
  }

  /** blk_flush_cur_seq: the first stage not yet marked. */
  function CurSeq(seq_: Stages): Step {
    if !seq_.pre then PreFlush else if !seq_.data then Data else if !seq_.post then PostFlush else Done
  }

  /** A request that goes through the machinery, and does not ask for a flush after data it does not have. */
  predicate Sequenced(p: Stages) {
    (p.pre || p.post) && (p.post ==> p.data)
  }

  /** A stage that has been run, with its error. */
  datatype Ran = Ran(step: Step, error: int)

  /**
    A request in the machinery. `queuedAt` is where the log records its latest wait for a flush, `nrBios` how many bios
    it came with.
   */
  datatype Rq = Rq(policy: Stages, seq_: Stages, req: Req, trace: seq<Ran>, partFailed: bool, queuedAt: nat,
                   nrBios: nat)

  /** A request that has left it. */
  datatype Gone = Gone(policy: Stages, req: Req, trace: seq<Ran>, partFailed: bool, error: int, nrBios: nat)

  datatype Event =
    | Queued(id: nat, step: Step)      // waits for the next flush to be issued
    | DataQueued(id: nat)              // its data went to the dispatch queue
    | DataDone(id: nat, error: int)    // its data came back
    | Issued(flush: nat)               // a flush request went to the dispatch queue
    | FlushDone(flush: nat, error: int)
    | Ended(id: nat, error: int)       // the request was completed
    | Direct(id: nat)                  // a request that needs no flush went to the dispatch queue

  const HZ: nat := 100
  const FLUSH_PENDING_TIMEOUT: nat := 5 * HZ

  datatype Machine = Machine(queue0: seq<nat>, queue1: seq<nat>, pendingIdx: bool, runningIdx: bool,
                             dataInFlight: seq<nat>, pendingSince: nat, rqs: map<nat, Rq>,
                             gone: map<nat, Gone>, log: seq<Event>, issued: nat, issuedAt: nat)
  {
    function Queue(idx: bool): seq<nat> { if idx then queue1 else queue0 }

    function SetQueue(idx: bool, q: seq<nat>): Machine { if idx then this.(queue1 := q) else this.(queue0 := q) }

    predicate InFlight() { pendingIdx != runningIdx }

    function Log(e: Event): Machine { this.(log := log + [e]) }
  }

  /** list_del_init on whichever list holds the request */
  function Unlink(m: Machine, id: nat): Machine {
    m.(queue0 := Without(m.queue0, id), queue1 := Without(m.queue1, id), dataInFlight := Without(m.dataInFlight, id))
  }

  /** blk_kick_flush */
  function KickFlush(m: Machine, now: nat): Machine {
    if m.InFlight() || m.Queue(m.pendingIdx) == [] then m
    else if m.dataInFlight != [] && now < m.pendingSince + FLUSH_PENDING_TIMEOUT then m
    else m.(pendingIdx := !m.pendingIdx, issued := m.issued + 1, issuedAt := |m.log|).Log(Issued(m.issued + 1))
  }

  /** A request with no bio or a single one. */
  predicate FewBios(r: Req) { |r.bios| + |r.done| <= 1 }

  /** The bio of a single-bio request: the head of the chain, or the one already taken off it. */
  function TheBio(r: Req): Bio
    requires |r.bios| + |r.done| == 1
  {
    if r.bios != [] then r.bios[0] else r.done[0]
  }

  /** blk_flush_restore_request, which makes the tail of the chain its head again, and __blk_end_request_all */
  function EndAll(r: Req, error: int): (Req, bool)
    requires FewBios(r)
  {
    Update(r.(bios := r.bios + r.done, done := [], flushSeq := false), error, r.dataLen)
  }

  /** The step that follows: the first unmarked stage, or the end after an error. */
  function NextStep(rq: Rq, error: int): Step {
    if error == 0 then CurSeq(rq.seq_) else Done
  }

  /** The end of a request: it leaves the machinery and its bio is ended. */
  function Leave(u: Machine, id: nat, rq: Rq, error: int): Machine
    requires FewBios(rq.req)
  {
    u.(rqs := u.rqs - {id},
        gone := u.gone[id := Gone(rq.policy, EndAll(rq.req, error).0, rq.trace, rq.partFailed, error, rq.nrBios)])
     .Log(Ended(id, error))
  }

  /** A request goes to the device with its data. */
  function Transfer(u: Machine, id: nat, rq: Rq): Machine {
    u.(rqs := u.rqs[id := rq], dataInFlight := u.dataInFlight + [id]).Log(DataQueued(id))
  }

  /** A request joins the pending queue. */
  function Await(u: Machine, id: nat, rq: Rq, step: Step, since: nat): Machine {
    u.SetQueue(u.pendingIdx, u.Queue(u.pendingIdx) + [id])
     .(pendingSince := since, rqs := u.rqs[id := rq.(queuedAt := |u.log|)])
     .Log(Queued(id, step))
  }

  /** Puts a request, whose stages so far are marked in `rq`, where its next step needs it. */
  function Proceed(m: Machine, id: nat, rq: Rq, error: int, now: nat): Machine
    requires FewBios(rq.req)
  {
    var u := Unlink(m, id);
    match NextStep(rq, error)
    case Data => Transfer(u, id, rq)
    case Done => Leave(u, id, rq, error)
    case step => Await(u, id, rq, step, if m.Queue(m.pendingIdx) == [] then now else m.pendingSince)
  }

  /** blk_flush_complete_seq for a stage that was run */
  function CompleteSeq(m: Machine, id: nat, step: Step, error: int, now: nat): Machine
    requires id in m.rqs && FewBios(m.rqs[id].req)
  {
    var rq := m.rqs[id];
    var rq' := rq.(seq_ := rq.seq_.Or(Mask(step)), trace := rq.trace + [Ran(step, error)]);
    KickFlush(Proceed(m, id, rq', error, now), now)
  }

  /** The requests of a queue one after the other, each completing the stage it waited in. */
  function CompleteAll(m: Machine, ids: seq<nat>, error: int, now: nat): Machine
    decreases |ids|
  {
    if ids == [] then m
    else if ids[0] in m.rqs && FewBios(m.rqs[ids[0]].req) then
      CompleteAll(CompleteSeq(m, ids[0], CurSeq(m.rqs[ids[0]].seq_), error, now), ids[1..], error, now)
    else m
  }

  /** flush_end_io */
  function FlushEndIo(m: Machine, error: int, now: nat): Machine {
    CompleteAll(m.(runningIdx := !m.runningIdx).Log(FlushDone(m.issued, error)), m.Queue(m.runningIdx), error, now)
  }

  /** The driver completes bytes of a request's data; with the last of them flush_data_end_io runs. */
  function DataEndIo(m: Machine, id: nat, error: int, bytes: nat, now: nat): Machine
    requires id in m.rqs && FewBios(m.rqs[id].req)
  {
    var rq := m.rqs[id];
    var (req, more) := Update(rq.req, error, bytes);
    var failed := rq.partFailed || (error != 0 && bytes > 0);
    var m1 := m.(rqs := m.rqs[id := rq.(req := req, partFailed := failed)]);
    if more || !FewBios(req) then m1
    else CompleteSeq(m1.Log(DataDone(id, error)), id, Data, error, now)
  }

  /** blk_insert_flush */
  function InsertFlush(m: Machine, id: nat, device: Flags, flags: Flags, req: Req, now: nat): Machine
    requires FewBios(req)
  {
    var policy := Policy(device, flags, req.dataLen / 512 > 0);
    if policy == Stages(false, false, false) then
      m.(gone := m.gone[id := Gone(policy, Update(req, 0, 0).0, [], false, 0, |req.bios|)]).Log(Ended(id, 0))
    else if policy == Stages(false, true, false) then
      m.Log(Direct(id))
    else
      var rq := Rq(policy, policy.Not(), req.(flushSeq := true), [], false, 0, |req.bios|);
      KickFlush(Proceed(m, id, rq, 0, now), now)
  }

  // ---- what the log must show ----

  /** Between the moments a and c a flush was issued and came back with `error`. */
  ghost predicate FlushBetween(log: seq<Event>, a: nat, b: nat, c: nat, error: int) {
    a < b < c < |log| && log[b].Issued? && log[c] == FlushDone(log[b].flush, error)
  }

  /** A flush issued after the request was queued has come back without error. */
  ghost predicate PreOk(log: seq<Event>, id: nat) {
    exists a: nat, b: nat, c: nat :: FlushBetween(log, a, b, c, 0) && log[a] == Queued(id, PreFlush)
  }

  /** A flush issued after the data came back has come back without error. */
  ghost predicate PostOk(log: seq<Event>, id: nat) {
    exists a: nat, b: nat, c: nat :: FlushBetween(log, a, b, c, 0) && log[a] == DataDone(id, 0)
  }

  ghost predicate DataOk(log: seq<Event>, id: nat) {
    exists a :: 0 <= a < |log| && log[a] == DataDone(id, 0)
  }

  lemma Extends(log: seq<Event>, log': seq<Event>, id: nat)
    requires log <= log'
    ensures PreOk(log, id) ==> PreOk(log', id)
    ensures PostOk(log, id) ==> PostOk(log', id)
    ensures DataOk(log, id) ==> DataOk(log', id)
  {
    if PreOk(log, id) {
      var a: nat, b: nat, c: nat :| FlushBetween(log, a, b, c, 0) && log[a] == Queued(id, PreFlush);
      assert FlushBetween(log', a, b, c, 0);
    }
    if PostOk(log, id) {
      var a: nat, b: nat, c: nat :| FlushBetween(log, a, b, c, 0) && log[a] == DataDone(id, 0);
      assert FlushBetween(log', a, b, c, 0);
    }
    if DataOk(log, id) {
      var a :| 0 <= a < |log| && log[a] == DataDone(id, 0);
      assert log'[a] == DataDone(id, 0);
    }
  }

  // ---- invariants of one request ----

  /** The stages of a policy that are marked, in order, each run without error. */
  function RanSoFar(policy: Stages, seq_: Stages): seq<Ran> {
    (if policy.pre && seq_.pre then [Ran(PreFlush, 0)] else [])
    + (if policy.data && seq_.data then [Ran(Data, 0)] else [])
    + (if policy.post && seq_.post then [Ran(PostFlush, 0)] else [])
  }

  /** The bio, if there is one, has not been ended; it is off the chain exactly when the data was transferred. */
  ghost predicate BioOk(rq: Rq) {
    && |rq.req.bios| + |rq.req.done| == rq.nrBios <= 1 && rq.req.flushSeq && rq.req.ended == []
    && (rq.policy.data ==> rq.nrBios == 1)
    && (rq.nrBios == 1 ==> (rq.policy.data && rq.seq_.data <==> rq.req.bios == []))
    && (rq.req.bios == [] ==> rq.req.dataLen == 0 && (rq.nrBios == 1 ==> TheBio(rq.req).size == 0))
    && (rq.req.bios != [] ==> ReqOk(rq.req) && (rq.policy.data ==> rq.req.dataLen > 0))
    && (if rq.nrBios == 1 then TheBio(rq.req).uptodate == !rq.partFailed else !rq.partFailed)
  }

  ghost predicate RqOk(log: seq<Event>, rq: Rq, id: nat) {
    && Sequenced(rq.policy) && rq.policy.Not().Or(rq.seq_) == rq.seq_
    && (rq.seq_.data && rq.policy.data ==> rq.seq_.pre) && !(rq.seq_.post && rq.policy.post)
    && CurSeq(rq.seq_) != Done
    && rq.trace == RanSoFar(rq.policy, rq.seq_)
    && BioOk(rq)
    && (rq.policy.pre && rq.seq_.pre ==> PreOk(log, id))
    && (rq.policy.data && rq.seq_.data ==> DataOk(log, id))
  }

  /** A request on a flush queue: the log shows when it was queued, and its data before that. */
  ghost predicate Waits(log: seq<Event>, rq: Rq, id: nat) {
    && (CurSeq(rq.seq_).PreFlush? || CurSeq(rq.seq_).PostFlush?)
    && rq.queuedAt < |log| && log[rq.queuedAt] == Queued(id, CurSeq(rq.seq_))
    && (CurSeq(rq.seq_).PostFlush? ==> DataOk(log[..rq.queuedAt], id))
  }

  // ---- invariants of finished requests ----

  /** The stages a request ran: all of its policy without error, or up to and including the first that failed. */
  ghost predicate RanPolicy(policy: Stages, trace: seq<Ran>, error: int) {
    if error == 0 then trace == RanSoFar(policy, Stages(true, true, true))
    else exists done: Stages ::
        OrderedUpTo(policy, done) && trace == RanSoFar(policy, done) + [Ran(CurSeq(done), error)]
  }

  /** A set of marked stages reached by running a policy in order, with something left to run. */
  ghost predicate OrderedUpTo(policy: Stages, done: Stages) {
    && policy.Not().Or(done) == done && CurSeq(done) != Done
    && (done.data && policy.data ==> done.pre) && !(done.post && policy.post)
  }

  /** Each bio was ended once, with an error exactly when the request or a part of its data failed. */
  ghost predicate GoneOk(g: Gone) {
    && RanPolicy(g.policy, g.trace, g.error)
    && |g.req.ended| == g.nrBios <= 1 && g.req.bios == []
    && (g.nrBios == 1 ==> (g.req.ended[0].error == 0 <==> g.error == 0 && !g.partFailed))
  }

  // ---- invariants of the machine ----

  /** Every request is on exactly one list; `rest` is the part of a finished queue not yet moved on. */
  ghost predicate ListsOk(m: Machine, rest: seq<nat>) {
    && NoDups(m.queue0) && NoDups(m.queue1) && NoDups(m.dataInFlight)
    && (forall id | id in m.queue0 :: id !in m.queue1 && id !in m.dataInFlight)
    && (forall id | id in m.queue1 :: id !in m.dataInFlight)
    && (forall id :: id in m.rqs <==> id in m.queue0 || id in m.queue1 || id in m.dataInFlight)
    && (m.InFlight() ==> m.Queue(m.runningIdx) != [])
    && (rest != [] || !m.InFlight() ==> m.Queue(!m.runningIdx) == rest)
  }

  ghost predicate RqsOk(m: Machine) {
    && (forall id | id in m.rqs :: RqOk(m.log, m.rqs[id], id))
    && (forall id | id in m.dataInFlight && id in m.rqs :: CurSeq(m.rqs[id].seq_).Data?)
    && (forall id | (id in m.queue0 || id in m.queue1) && id in m.rqs :: Waits(m.log, m.rqs[id], id))
  }

  /** While a flush is in flight, everything on the running queue was there before it was issued. */
  ghost predicate FlightOk(m: Machine) {
    m.InFlight() ==>
      && m.issuedAt < |m.log| && m.log[m.issuedAt] == Issued(m.issued)
      && forall id | id in m.Queue(m.runningIdx) && id in m.rqs :: m.rqs[id].queuedAt < m.issuedAt
  }

  /** The requests of `rest` have just seen their flush come back with `error`. */
  ghost predicate RestOk(m: Machine, rest: seq<nat>, error: int) {
    forall id | id in rest && id in m.rqs :: exists b: nat, c: nat ::
        FlushBetween(m.log, m.rqs[id].queuedAt, b, c, error)
  }

  ghost predicate Known(m: Machine, id: nat) { id in m.rqs || id in m.gone }

  ghost function PolicyOf(m: Machine, id: nat): Stages
    requires Known(m, id)
  {
    if id in m.rqs then m.rqs[id].policy else m.gone[id].policy
  }

  /** The promise of the header comment, at one entry of the log. */
  ghost predicate EventOk(m: Machine, i: nat)
    requires i < |m.log|
  {
    match m.log[i]
    case DataQueued(id) => Known(m, id) && (PolicyOf(m, id).pre ==> PreOk(m.log[..i], id))
    case Ended(id, error) =>
      Known(m, id) && (error == 0 ==>
        && (PolicyOf(m, id).pre ==> PreOk(m.log[..i], id))
        && (PolicyOf(m, id).data && (PolicyOf(m, id).pre || PolicyOf(m, id).post) ==> DataOk(m.log[..i], id))
        && (PolicyOf(m, id).post ==> PostOk(m.log[..i], id)))
    case _ => true
  }

  ghost predicate LogOk(m: Machine) {
    forall i | 0 <= i < |m.log| :: EventOk(m, i)
  }

  ghost predicate AllGoneOk(m: Machine) {
    m.rqs.Keys !! m.gone.Keys && forall id | id in m.gone :: GoneOk(m.gone[id])
  }

  /** Requests wait without a flush in flight only while some data is. */
  ghost predicate NoStall(m: Machine) {
    !m.InFlight() && m.Queue(m.pendingIdx) != [] ==> m.dataInFlight != []
  }

  ghost predicate Core0(m: Machine, rest: seq<nat>) {
    ListsOk(m, rest) && RqsOk(m) && FlightOk(m) && AllGoneOk(m)
  }

  ghost predicate Core(m: Machine, rest: seq<nat>) {
    Core0(m, rest) && LogOk(m)
  }

  ghost predicate Inv(m: Machine) {
    Core(m, []) && NoStall(m)
  }

  // ---- appending to the log ----

  lemma LogAppend(m: Machine, m': Machine, e: Event)
    requires LogOk(m) && m'.log == m.log + [e]
    requires forall id | Known(m, id) :: Known(m', id) && PolicyOf(m', id) == PolicyOf(m, id)
    requires EventOk(m', |m.log|)
    ensures LogOk(m')
  {
    forall i | 0 <= i < |m'.log|
      ensures EventOk(m', i)
    {
      if i < |m.log| {
        assert EventOk(m, i);
        assert m'.log[..i] == m.log[..i] && m'.log[i] == m.log[i];
      }
    }
  }

  lemma RqOkAppend(log: seq<Event>, log': seq<Event>, rq: Rq, id: nat)
    requires log <= log'
    ensures RqOk(log, rq, id) ==> RqOk(log', rq, id)
    ensures Waits(log, rq, id) ==> Waits(log', rq, id)
  {
    Extends(log, log', id);
    if Waits(log, rq, id) {
      assert log'[..rq.queuedAt] == log[..rq.queuedAt];
    }
  }

  lemma FlushBetweenAppend(log: seq<Event>, log': seq<Event>, a: nat, error: int)
    requires log <= log' && exists b: nat, c: nat :: FlushBetween(log, a, b, c, error)
    ensures exists b: nat, c: nat :: FlushBetween(log', a, b, c, error)
  {
    var b: nat, c: nat :| FlushBetween(log, a, b, c, error);
    assert FlushBetween(log', a, b, c, error);
  }

  // ---- taking a request off its list ----

  function Detach(m: Machine, id: nat): Machine {
    Unlink(m, id).(rqs := m.rqs - {id})
  }

  lemma DetachLists(m: Machine, id: nat, rest: seq<nat>, rest': seq<nat>)
    requires ListsOk(m, rest) && id in m.rqs
    requires if id in m.dataInFlight then rest' == rest else rest != [] && id == rest[0] && rest' == rest[1..]
    ensures ListsOk(Detach(m, id), rest')
  {
    WithoutNoDups(m.queue0, id);
    WithoutNoDups(m.queue1, id);
    WithoutNoDups(m.dataInFlight, id);
    if id !in m.dataInFlight {
      WithoutHead(rest);
      assert m.Queue(!m.runningIdx) == rest;
    }
  }

  lemma DetachOk(m: Machine, id: nat, rest: seq<nat>, rest': seq<nat>)
    requires Core0(m, rest) && id in m.rqs
    requires if id in m.dataInFlight then rest' == rest else rest != [] && id == rest[0] && rest' == rest[1..]
    ensures Core0(Detach(m, id), rest')
  {
    hide RqOk, Waits, GoneOk, ListsOk;
    DetachLists(m, id, rest, rest');
  }

  // ---- putting it where it goes next ----

  lemma AppendNoDups(q: seq<nat>, id: nat)
    requires NoDups(q) && id !in q
    ensures NoDups(q + [id])
  {
  }

  lemma TransferLists(u: Machine, id: nat, rq: Rq, rest: seq<nat>)
    requires ListsOk(u, rest) && id !in u.rqs
    ensures ListsOk(Transfer(u, id, rq), rest)
  {
    AppendNoDups(u.dataInFlight, id);
  }

  /** All requests other than `id` are as before; only the log has grown. */
  lemma RqsOkAppend(u: Machine, m: Machine, id: nat)
    requires RqsOk(u) && u.log <= m.log && id !in u.rqs
    requires m.rqs.Keys == u.rqs.Keys + {id} && (forall x | x in u.rqs :: m.rqs[x] == u.rqs[x])
    requires forall x | x in u.rqs :: (x in m.dataInFlight <==> x in u.dataInFlight)
    requires forall x | x in u.rqs :: ((x in m.queue0 || x in m.queue1) <==> (x in u.queue0 || x in u.queue1))
    requires RqOk(m.log, m.rqs[id], id)
    requires id in m.dataInFlight ==> CurSeq(m.rqs[id].seq_).Data?
    requires id in m.queue0 || id in m.queue1 ==> Waits(m.log, m.rqs[id], id)
    ensures RqsOk(m)
  {
    hide RqOk, Waits;
    forall x | x in m.rqs && x != id
      ensures RqOk(m.log, m.rqs[x], x)
      ensures x in m.queue0 || x in m.queue1 ==> Waits(m.log, m.rqs[x], x)
    {
      assert x in u.rqs;
      RqOkAppend(u.log, m.log, u.rqs[x], x);
    }
  }

  lemma TransferOk(u: Machine, id: nat, rq: Rq, rest: seq<nat>)
    requires Core0(u, rest) && id !in u.rqs && id !in u.gone
    requires RqOk(u.log, rq, id) && CurSeq(rq.seq_).Data?
    ensures Core0(Transfer(u, id, rq), rest)
  {
    hide RqOk, Waits, GoneOk, ListsOk, RqsOk;
    var m := Transfer(u, id, rq);
    TransferLists(u, id, rq, rest);
    RqOkAppend(u.log, m.log, rq, id);
    ListsCover(u, rest);
    RqsOkAppend(u, m, id);
  }

  lemma ListsCover(u: Machine, rest: seq<nat>)
    requires ListsOk(u, rest)
    ensures forall id :: id in u.rqs <==> id in u.queue0 || id in u.queue1 || id in u.dataInFlight
  {
  }

  lemma AwaitLists(u: Machine, id: nat, rq: Rq, step: Step, since: nat)
    requires ListsOk(u, []) && id !in u.rqs
    ensures ListsOk(Await(u, id, rq, step, since), [])
  {
    AppendNoDups(u.queue0, id);
    AppendNoDups(u.queue1, id);
  }

  lemma AwaitOk(u: Machine, id: nat, rq: Rq, step: Step, since: nat)
    requires Core0(u, []) && id !in u.rqs && id !in u.gone
    requires RqOk(u.log, rq, id) && CurSeq(rq.seq_) == step && (step.PreFlush? || step.PostFlush?)
    requires step.PostFlush? ==> DataOk(u.log, id)
    ensures Core0(Await(u, id, rq, step, since), [])
  {
    hide GoneOk, ListsOk, RqsOk, PreOk, DataOk;
    var m := Await(u, id, rq, step, since);
    AwaitLists(u, id, rq, step, since);
    RqOkAppend(u.log, m.log, m.rqs[id], id);
    assert RqOk(u.log, m.rqs[id], id);
    assert m.log[..m.rqs[id].queuedAt] == u.log;
    ListsCover(u, []);
    RqsOkAppend(u, m, id);
    AwaitFlight(u, m, id);
  }

  lemma AwaitFlight(u: Machine, m: Machine, id: nat)
    requires FlightOk(u) && u.log <= m.log && m.pendingIdx == u.pendingIdx && m.runningIdx == u.runningIdx
    requires m.issued == u.issued && m.issuedAt == u.issuedAt
    requires u.InFlight() ==> m.Queue(m.runningIdx) == u.Queue(u.runningIdx)
    requires id !in u.rqs && (forall x | x in u.rqs :: x in m.rqs && m.rqs[x] == u.rqs[x])
             && m.rqs.Keys <= u.rqs.Keys + {id}
    requires u.InFlight() ==> id !in u.Queue(u.runningIdx)
    ensures FlightOk(m)
  {
  }

  lemma LeaveOk(u: Machine, id: nat, rq: Rq, error: int, rest: seq<nat>)
    requires Core0(u, rest) && id !in u.rqs && FewBios(rq.req)
    requires GoneOk(Leave(u, id, rq, error).gone[id])
    ensures Core0(Leave(u, id, rq, error), rest)
  {
    hide RqOk, Waits, GoneOk;
    var m := Leave(u, id, rq, error);
    forall x | x in m.rqs
      ensures RqOk(m.log, m.rqs[x], x)
      ensures x in m.queue0 || x in m.queue1 ==> Waits(m.log, m.rqs[x], x)
    {
      RqOkAppend(u.log, m.log, u.rqs[x], x);
    }
  }

  // ---- issuing a flush ----

  lemma KickLists(m: Machine, now: nat, rest: seq<nat>)
    requires ListsOk(m, rest)
    ensures ListsOk(KickFlush(m, now), rest) && NoStall(KickFlush(m, now))
  {
  }

  lemma KickOk(m: Machine, now: nat, rest: seq<nat>)
    requires Core(m, rest)
    ensures Core(KickFlush(m, now), rest) && NoStall(KickFlush(m, now))
    ensures m.log <= KickFlush(m, now).log && KickFlush(m, now).rqs == m.rqs
  {
    hide RqOk, GoneOk, ListsOk, EventOk;
    var k := KickFlush(m, now);
    KickLists(m, now, rest);
    if k != m {
      LogAppend(m, k, Issued(m.issued + 1)) by { assert EventOk(k, |m.log|) by { IssuedOk(k, |m.log|); } }
      forall x | x in m.rqs
        ensures RqOk(k.log, k.rqs[x], x)
        ensures x in k.queue0 || x in k.queue1 ==> Waits(k.log, k.rqs[x], x)
      {
        RqOkAppend(m.log, k.log, m.rqs[x], x);
      }
    }
  }

  lemma IssuedOk(m: Machine, i: nat)
    requires i < |m.log| && m.log[i].Issued?
    ensures EventOk(m, i)
  {
  }

  // ---- one request moves on ----

  /** What must be known of a request, marked as `rq`, for it to move on from where it was. */
  ghost predicate MayProceed(log: seq<Event>, rq: Rq, id: nat, error: int, rest: seq<nat>) {
    && FewBios(rq.req)
    && (if NextStep(rq, error).Done? then
          && GoneOk(Gone(rq.policy, EndAll(rq.req, error).0, rq.trace, rq.partFailed, error, rq.nrBios))
          && (error == 0 ==>
                && (rq.policy.pre ==> PreOk(log, id)) && (rq.policy.data ==> DataOk(log, id))
                && (rq.policy.post ==> PostOk(log, id)))
        else
          RqOk(log, rq, id) && (NextStep(rq, error).Data? || rest == []))
  }

  /** The three ways on, seen from the log. */
  lemma TransferLog(m: Machine, u: Machine, id: nat, rq: Rq)
    requires LogOk(m) && id !in m.gone && (id in m.rqs ==> m.rqs[id].policy == rq.policy) && m.rqs.Keys !! m.gone.Keys
    requires u.log == m.log && u.gone == m.gone && u.rqs == m.rqs - {id}
    requires rq.policy.pre ==> PreOk(m.log, id)
    ensures LogOk(Transfer(u, id, rq))
  {
    hide PreOk, PostOk, DataOk, LogOk;
    var m' := Transfer(u, id, rq);
    assert m'.log[..|m.log|] == m.log;
    LogAppend(m, m', DataQueued(id));
  }

  lemma AwaitLog(m: Machine, u: Machine, id: nat, rq: Rq, step: Step, since: nat)
    requires LogOk(m) && id !in m.gone && (id in m.rqs ==> m.rqs[id].policy == rq.policy) && m.rqs.Keys !! m.gone.Keys
    requires u.log == m.log && u.gone == m.gone && u.rqs == m.rqs - {id}
    ensures LogOk(Await(u, id, rq, step, since))
  {
    hide PreOk, PostOk, DataOk, LogOk;
    LogAppend(m, Await(u, id, rq, step, since), Queued(id, step));
  }

  lemma LeaveLog(m: Machine, u: Machine, id: nat, rq: Rq, error: int)
    requires LogOk(m) && id !in m.gone && (id in m.rqs ==> m.rqs[id].policy == rq.policy) && m.rqs.Keys !! m.gone.Keys
    requires u.log == m.log && u.gone == m.gone && u.rqs == m.rqs - {id} && FewBios(rq.req)
    requires error == 0 ==>
               && (rq.policy.pre ==> PreOk(m.log, id)) && (rq.policy.data ==> DataOk(m.log, id))
               && (rq.policy.post ==> PostOk(m.log, id))
    ensures LogOk(Leave(u, id, rq, error))
  {
    hide PreOk, PostOk, DataOk, LogOk, EndAll;
    var m' := Leave(u, id, rq, error);
    assert m'.log[..|m.log|] == m.log;
    LogAppend(m, m', Ended(id, error));
  }

  /** Forgetting a request and then placing it is the same as replacing it. */
  lemma ProceedFromDetached(m: Machine, id: nat, rq: Rq, error: int, now: nat)
    requires FewBios(rq.req)
    ensures var u := Detach(m, id);
            Proceed(m, id, rq, error, now) ==
              match NextStep(rq, error)
              case Data => Transfer(u, id, rq)
              case Done => Leave(u, id, rq, error)
              case step => Await(u, id, rq, step, if m.Queue(m.pendingIdx) == [] then now else m.pendingSince)
  {
    hide EndAll, Without;
    var rq' := rq.(queuedAt := |m.log|);
    assert m.rqs[id := rq] == (m.rqs - {id})[id := rq] && m.rqs[id := rq'] == (m.rqs - {id})[id := rq'];
    assert (m.rqs - {id}) - {id} == m.rqs - {id};
  }

  lemma ProceedOk(m: Machine, id: nat, rq: Rq, error: int, now: nat, rest: seq<nat>)
    requires Core0(Detach(m, id), rest) && LogOk(m) && id !in m.gone && (id in m.rqs ==> m.rqs[id].policy == rq.policy)
    requires MayProceed(m.log, rq, id, error, rest)
    ensures Core(Proceed(m, id, rq, error, now), rest)
  {
    hide GoneOk, Core0, PreOk, PostOk, EndAll, LogOk, Proceed, Without, Transfer, Leave, Await;
    var u := Detach(m, id);
    assert m.rqs.Keys !! m.gone.Keys by { Core0Gone(u, rest); DetachKeys(m, id, rest); }
    ProceedFromDetached(m, id, rq, error, now);
    match NextStep(rq, error)
    case Data =>
      TransferOk(u, id, rq, rest);
      TransferLog(m, u, id, rq);
    case Done =>
      LeaveGone(u, id, rq, error);
      LeaveOk(u, id, rq, error, rest);
      LeaveLog(m, u, id, rq, error);
    case step =>
      var since := if m.Queue(m.pendingIdx) == [] then now else m.pendingSince;
      AwaitOk(u, id, rq, step, since);
      AwaitLog(m, u, id, rq, step, since);
  }

  lemma Core0Gone(m: Machine, rest: seq<nat>)
    requires Core0(m, rest)
    ensures AllGoneOk(m)
  {
  }

  lemma LeaveGone(u: Machine, id: nat, rq: Rq, error: int)
    requires FewBios(rq.req)
    ensures id in Leave(u, id, rq, error).gone
    ensures Leave(u, id, rq, error).gone[id]
            == Gone(rq.policy, EndAll(rq.req, error).0, rq.trace, rq.partFailed, error, rq.nrBios)
  {
    hide EndAll;
  }

  /** Moving one request on only lengthens the log and touches no other request. */
  lemma ProceedFrame(m: Machine, id: nat, rq: Rq, error: int, now: nat)
    requires FewBios(rq.req)
    ensures var m' := Proceed(m, id, rq, error, now);
            && m.log <= m'.log && (forall x | x in m'.rqs && x != id :: x in m.rqs && m'.rqs[x] == m.rqs[x])
  {
    hide EndAll, Without;
  }

  lemma DetachKeys(m: Machine, id: nat, rest: seq<nat>)
    requires AllGoneOk(Detach(m, id)) && id !in m.gone
    ensures m.rqs.Keys !! m.gone.Keys
  {
    assert Detach(m, id).rqs.Keys == m.rqs.Keys - {id};
  }

  /** Ending a request ends its bio, if it has one, once, with an error if the request or a part of its data failed. */
  lemma EndAllOnce(r: Req, error: int)
    requires FewBios(r) && r.ended == [] && (|r.bios| + |r.done| == 1 ==> r.dataLen == TheBio(r).size)
    ensures var (r', more) := EndAll(r, error);
            && !more && r'.bios == []
            && r'.ended == if |r.bios| + |r.done| == 0 then [] else [EndIo(TheBio(r).id, EndError(TheBio(r), error))]
  {
    if |r.bios| + |r.done| == 1 {
      var b := TheBio(r);
      assert r.bios + r.done == [b];
      assert [b][1..] == [] && TotalSize([b]) == b.size;
      assert Finished([b], r.dataLen) == 1 && Remaining([b], r.dataLen, error) == [];
      assert [b][..1] == [b];
    }
  }

  /** The bio is in one piece again when its length matches. */
  lemma BioLength(rq: Rq)
    requires BioOk(rq)
    ensures rq.nrBios == 1 ==> rq.req.dataLen == TheBio(rq.req).size
  {
    if rq.req.bios != [] {
      assert rq.req.bios[1..] == [] && TotalSize(rq.req.bios[1..]) == 0;
      assert TotalSize(rq.req.bios) == rq.req.bios[0].size;
    }
  }

  /** Marking the stage a request waits in. */
  function Marked(rq: Rq, error: int): Rq {
    rq.(seq_ := rq.seq_.Or(Mask(CurSeq(rq.seq_))), trace := rq.trace + [Ran(CurSeq(rq.seq_), error)])
  }

  /** A flush came back for a request that waited for it. */
  lemma FlushedProceeds(log: seq<Event>, rq: Rq, id: nat, error: int, rest: seq<nat>)
    requires RqOk(log, rq, id) && Waits(log, rq, id)
    requires exists b: nat, c: nat :: FlushBetween(log, rq.queuedAt, b, c, error)
    ensures MayProceed(log, Marked(rq, error), id, error, rest)
  {
    var rq' := Marked(rq, error);
    BioLength(rq);
    EndAllOnce(rq.req, error);
    if error == 0 {
      FlushedMeans(log, rq, id);
      if CurSeq(rq.seq_).PostFlush? { Extends(log[..rq.queuedAt], log, id); }
    } else {
      assert OrderedUpTo(rq.policy, rq.seq_);
    }
  }

  lemma FlushedMeans(log: seq<Event>, rq: Rq, id: nat)
    requires Waits(log, rq, id) && exists b: nat, c: nat :: FlushBetween(log, rq.queuedAt, b, c, 0)
    ensures if CurSeq(rq.seq_).PreFlush? then PreOk(log, id) else PostOk(log, id)
  {
    var b: nat, c: nat :| FlushBetween(log, rq.queuedAt, b, c, 0);
    if CurSeq(rq.seq_).PostFlush? {
      var a :| 0 <= a < rq.queuedAt && log[..rq.queuedAt][a] == DataDone(id, 0);
      assert FlushBetween(log, a, b, c, 0) && log[a] == DataDone(id, 0);
    }
  }

  // ---- the operations keep the invariant ----

  lemma CompleteSeqRest(m: Machine, rest: seq<nat>, error: int, now: nat)
    requires Core(m, rest) && rest != [] && RestOk(m, rest, error)
    ensures rest[0] in m.rqs && FewBios(m.rqs[rest[0]].req)
    ensures var m' := CompleteSeq(m, rest[0], CurSeq(m.rqs[rest[0]].seq_), error, now);
            Core(m', rest[1..]) && NoStall(m') && RestOk(m', rest[1..], error)
  {
    hide RqOk, Waits, GoneOk, LogOk, FlightOk, Proceed, KickFlush, MayProceed;
    var id := rest[0];
    RestOnQueue(m, rest);
    var rq := m.rqs[id];
    RqFewBios(m.log, rq, id);
    DetachOk(m, id, rest, rest[1..]);
    FlushedProceeds(m.log, rq, id, error, rest[1..]);
    ProceedOk(m, id, Marked(rq, error), error, now, rest[1..]);
    ProceedFrame(m, id, Marked(rq, error), error, now);
    var p := Proceed(m, id, Marked(rq, error), error, now);
    KickOk(p, now, rest[1..]);
    var m' := KickFlush(p, now);
    forall x | x in rest[1..] && x in m'.rqs
      ensures exists b: nat, c: nat :: FlushBetween(m'.log, m'.rqs[x].queuedAt, b, c, error)
    {
      assert x in rest && x != id;
      FlushBetweenAppend(m.log, m'.log, m.rqs[x].queuedAt, error);
    }
  }

  lemma RestOnQueue(m: Machine, rest: seq<nat>)
    requires Core0(m, rest) && rest != []
    ensures rest[0] in m.rqs && rest[0] !in m.dataInFlight && rest[0] !in m.gone && rest[0] !in rest[1..]
    ensures RqOk(m.log, m.rqs[rest[0]], rest[0]) && Waits(m.log, m.rqs[rest[0]], rest[0])
  {
    hide RqOk, Waits, GoneOk;
    assert m.Queue(!m.runningIdx) == rest && NoDups(rest);
    WithoutHead(rest);
  }

  lemma RqFewBios(log: seq<Event>, rq: Rq, id: nat)
    requires RqOk(log, rq, id)
    ensures FewBios(rq.req)
  {
  }

  lemma {:induction false} CompleteAllOk(m: Machine, rest: seq<nat>, error: int, now: nat)
    requires Core(m, rest) && RestOk(m, rest, error) && (rest == [] ==> NoStall(m))
    ensures Inv(CompleteAll(m, rest, error, now))
    decreases |rest|
  {
    hide Core, NoStall, RestOk, CompleteSeq;
    if rest != [] {
      CompleteSeqRest(m, rest, error, now);
      CompleteAllOk(CompleteSeq(m, rest[0], CurSeq(m.rqs[rest[0]].seq_), error, now), rest[1..], error, now);
    }
  }

  /** The machine at the moment a flush comes back. */
  lemma FlushReturns(m: Machine, error: int)
    requires Inv(m) && m.InFlight()
    ensures var m1 := m.(runningIdx := !m.runningIdx).Log(FlushDone(m.issued, error));
            var rest := m.Queue(m.runningIdx);
            Core(m1, rest) && RestOk(m1, rest, error) && rest != []
  {
    hide RqOk, Waits, GoneOk, EventOk;
    var m1 := m.(runningIdx := !m.runningIdx).Log(FlushDone(m.issued, error));
    var rest := m.Queue(m.runningIdx);
    LogAppend(m, m1, FlushDone(m.issued, error)) by { FlushDoneOk(m1, |m.log|); }
    forall x | x in m.rqs
      ensures RqOk(m1.log, m1.rqs[x], x)
      ensures x in m1.queue0 || x in m1.queue1 ==> Waits(m1.log, m1.rqs[x], x)
    {
      RqOkAppend(m.log, m1.log, m.rqs[x], x);
    }
    forall x | x in rest && x in m1.rqs
      ensures exists b: nat, c: nat :: FlushBetween(m1.log, m1.rqs[x].queuedAt, b, c, error)
    {
      assert FlushBetween(m1.log, m1.rqs[x].queuedAt, m.issuedAt, |m.log|, error);
    }
  }

  lemma FlushDoneOk(m: Machine, i: nat)
    requires i < |m.log| && (m.log[i].FlushDone? || m.log[i].DataDone? || m.log[i].Direct?)
    ensures EventOk(m, i)
  {
  }

  lemma FlushEndIoOk(m: Machine, error: int, now: nat)
    requires Inv(m) && m.InFlight()
    ensures Inv(FlushEndIo(m, error, now))
  {
    hide Inv, Core, RestOk, CompleteAll, NoStall;
    FlushReturns(m, error);
    CompleteAllOk(m.(runningIdx := !m.runningIdx).Log(FlushDone(m.issued, error)), m.Queue(m.runningIdx), error, now);
  }

  /** A part of the data of a single-bio request comes back. */
  lemma SingleUpdate(r: Req, error: int, bytes: nat)
    requires FewBios(r) && r.bios != [] && ReqOk(r) && r.flushSeq && r.ended == []
    ensures var (r', more) := Update(r, error, bytes);
            && |r'.bios| + |r'.done| == 1 && r'.flushSeq && r'.ended == [] && (more <==> bytes < r.dataLen)
            && (more <==> r'.bios != [])
            && TheBio(r').uptodate == (TheBio(r).uptodate && (error == 0 || (bytes == 0 && more)))
            && (more ==> ReqOk(r'))
            && (!more ==> r'.dataLen == 0 && TheBio(r').size == 0)
  {
    var b := r.bios[0];
    assert r.bios == [b] && r.bios[1..] == [] && r.done == [];
    assert TotalSize(r.bios) == b.size;
    ReqOkUpdate(r, error, bytes);
    if bytes < b.size {
      assert Finished(r.bios, bytes) == 0 && Remaining(r.bios, bytes, error) == [Advance(b, bytes, error)];
      assert r.bios[..0] == [] && FinishAll([], error) == [] && Reports([], error) == [];
    } else {
      assert Finished(r.bios, bytes) == 1 && r.bios[..1] == [b];
      assert Remaining(r.bios, bytes, error) == [];
      assert FinishAll([b], error) == [Finish(b, error)];
    }
  }

  /** The log grows by an entry that says nothing about requests waiting. */
  lemma Core0Log(u: Machine, e: Event, rest: seq<nat>)
    requires Core0(u, rest)
    ensures Core0(u.Log(e), rest)
  {
    hide RqOk, Waits, GoneOk;
    var m := u.Log(e);
    forall x | x in m.rqs
      ensures RqOk(m.log, m.rqs[x], x)
      ensures x in m.queue0 || x in m.queue1 ==> Waits(m.log, m.rqs[x], x)
    {
      RqOkAppend(u.log, m.log, u.rqs[x], x);
    }
  }

  lemma InData(m: Machine, id: nat)
    requires Core0(m, []) && id in m.dataInFlight
    ensures id in m.rqs && id !in m.gone && RqOk(m.log, m.rqs[id], id) && CurSeq(m.rqs[id].seq_).Data?
  {
    hide RqOk, Waits, GoneOk;
  }

  /** A request whose data is only partly back stays as it is in every respect but its bio. */
  lemma PartOk(m: Machine, id: nat, rq: Rq)
    requires Inv(m) && id in m.rqs && id in m.dataInFlight
    requires RqOk(m.log, rq, id) && rq.policy == m.rqs[id].policy && rq.seq_ == m.rqs[id].seq_
             && rq.queuedAt == m.rqs[id].queuedAt
    ensures Inv(m.(rqs := m.rqs[id := rq]))
  {
    hide RqOk, Waits, PreOk, PostOk, DataOk, GoneOk;
    var m' := m.(rqs := m.rqs[id := rq]);
    forall i | 0 <= i < |m'.log|
      ensures EventOk(m', i)
    {
      assert EventOk(m, i);
    }
  }

  /** The last of a request's data came back. */
  lemma DataProceeds(log: seq<Event>, rq: Rq, id: nat, error: int, bytes: nat)
    requires RqOk(log, rq, id) && CurSeq(rq.seq_).Data? && !Update(rq.req, error, bytes).1
    ensures FewBios(Update(rq.req, error, bytes).0)
    ensures var rq1 := rq.(req := Update(rq.req, error, bytes).0,
                           partFailed := rq.partFailed || (error != 0 && bytes > 0));
            MayProceed(log + [DataDone(id, error)], Marked(rq1, error), id, error, [])
  {
    hide PreOk, PostOk;
    var log' := log + [DataDone(id, error)];
    SingleUpdate(rq.req, error, bytes);
    var rq1 := rq.(req := Update(rq.req, error, bytes).0, partFailed := rq.partFailed || (error != 0 && bytes > 0));
    EndAllOnce(rq1.req, error);
    Extends(log, log', id);
    assert log'[|log|] == DataDone(id, error);
    if error != 0 { assert OrderedUpTo(rq.policy, rq.seq_); }
  }

  lemma DataEndIoOk(m: Machine, id: nat, error: int, bytes: nat, now: nat)
    requires Inv(m) && id in m.dataInFlight
    ensures id in m.rqs && FewBios(m.rqs[id].req) && Inv(DataEndIo(m, id, error, bytes, now))
  {
    hide GoneOk, LogOk, PreOk, PostOk, DataOk, Proceed, KickFlush, MayProceed, Update, ListsOk, FlightOk, RqsOk,
         AllGoneOk;
    InData(m, id);
    var rq := m.rqs[id];
    SingleUpdate(rq.req, error, bytes);
    var (req, more) := Update(rq.req, error, bytes);
    var rq1 := rq.(req := req, partFailed := rq.partFailed || (error != 0 && bytes > 0));
    if more {
      ReqOkUpdate(rq.req, error, bytes);
      PartOk(m, id, rq1);
    } else {
      var m2 := m.(rqs := m.rqs[id := rq1]).Log(DataDone(id, error));
      DetachOk(m, id, [], []);
      Core0Log(Detach(m, id), DataDone(id, error), []);
      assert Detach(m2, id) == Detach(m, id).Log(DataDone(id, error)) by {
        assert m.rqs[id := rq1] - {id} == m.rqs - {id};
      }
      LogAppend(m, m2, DataDone(id, error)) by { FlushDoneOk(m2, |m.log|); }
      DataProceeds(m.log, rq, id, error, bytes);
      ProceedOk(m2, id, Marked(rq1, error), error, now, []);
      KickOk(Proceed(m2, id, Marked(rq1, error), error, now), now, []);
    }
  }

  /** A request as the block layer hands it over: no bio or one, whole sectors, and no FUA without data. */
  ghost predicate Insertable(flags: Flags, req: Req) {
    && |req.bios| <= 1 && req.done == [] && ReqOk(req) && req.ended == [] && !req.flushSeq
    && (req.bios != [] ==> req.bios[0].uptodate)
    && req.dataLen % 512 == 0 && (flags.fua ==> req.dataLen > 0)
  }

  lemma EmptyFlush(req: Req)
    requires Insertable(Flags(false, false), req) && req.dataLen == 0
    ensures GoneOk(Gone(Stages(false, false, false), Update(req, 0, 0).0, [], false, 0, |req.bios|))
  {
    if req.bios != [] {
      var b := req.bios[0];
      assert req.bios == [b] && req.bios[1..] == [] && TotalSize(req.bios) == b.size;
      assert req.bios[..1] == [b] && Remaining(req.bios, 0, 0) == [];
    }
  }

  lemma NewRequest(log: seq<Event>, id: nat, device: Flags, flags: Flags, req: Req)
    requires Insertable(flags, req)
    requires var p := Policy(device, flags, req.dataLen / 512 > 0); p.pre || p.post
    ensures var p := Policy(device, flags, req.dataLen / 512 > 0);
            MayProceed(log, Rq(p, p.Not(), req.(flushSeq := true), [], false, 0, |req.bios|), id, 0, [])
  {
    hide PreOk, PostOk, DataOk;
  }

  lemma InsertFlushOk(m: Machine, id: nat, device: Flags, flags: Flags, req: Req, now: nat)
    requires Inv(m) && !Known(m, id) && Insertable(flags, req)
    ensures Inv(InsertFlush(m, id, device, flags, req, now))
  {
    hide GoneOk, LogOk, PreOk, PostOk, DataOk, Proceed, KickFlush, MayProceed, Update, ListsOk, FlightOk, RqsOk;
    var policy := Policy(device, flags, req.dataLen / 512 > 0);
    if policy == Stages(false, false, false) {
      EmptyFlush(req);
      LeaveDirectly(m, id, Gone(policy, Update(req, 0, 0).0, [], false, 0, |req.bios|));
    } else if policy == Stages(false, true, false) {
      Core0Log(m, Direct(id), []);
      LogAppend(m, m.Log(Direct(id)), Direct(id)) by { FlushDoneOk(m.Log(Direct(id)), |m.log|); }
    } else {
      var rq := Rq(policy, policy.Not(), req.(flushSeq := true), [], false, 0, |req.bios|);
      NewRequest(m.log, id, device, flags, req);
      DetachFresh(m, id);
      ProceedOk(m, id, rq, 0, now, []);
      KickOk(Proceed(m, id, rq, 0, now), now, []);
    }
  }

  lemma DetachFresh(m: Machine, id: nat)
    requires ListsOk(m, []) && id !in m.rqs
    ensures Detach(m, id) == m
  {
    assert m.rqs - {id} == m.rqs;
  }

  lemma LeaveDirectly(m: Machine, id: nat, g: Gone)
    requires Inv(m) && !Known(m, id) && GoneOk(g) && g.policy == Stages(false, false, false)
    ensures Inv(m.(gone := m.gone[id := g]).Log(Ended(id, 0)))
  {
    hide GoneOk, RqOk, Waits, PreOk, PostOk, DataOk, LogOk;
    var m' := m.(gone := m.gone[id := g]).Log(Ended(id, 0));
    Core0Log(m, Ended(id, 0), []);
    LogAppend(m, m', Ended(id, 0));
  }

  // ---- every run ----

  datatype Op =
    | Insert(id: nat, device: Flags, flags: Flags, req: Req)
    | FlushComplete(error: int)
    | DataComplete(id: nat, error: int, bytes: nat)

  /** What can happen next: fresh requests arrive, and what is in flight comes back. */
  ghost predicate Enabled(m: Machine, op: Op) {
    match op
    case Insert(id, _, flags, req) => !Known(m, id) && Insertable(flags, req)
    case FlushComplete(_) => m.InFlight()
    case DataComplete(id, _, _) => id in m.dataInFlight && id in m.rqs && FewBios(m.rqs[id].req)
  }

  ghost function Apply(m: Machine, op: Op, now: nat): Machine
    requires Enabled(m, op)
  {
    match op
    case Insert(id, device, flags, req) => InsertFlush(m, id, device, flags, req, now)
    case FlushComplete(error) => FlushEndIo(m, error, now)
    case DataComplete(id, error, bytes) => DataEndIo(m, id, error, bytes, now)
  }

  const Idle: Machine := Machine([], [], false, false, [], 0, map[], map[], [], 0, 0)

  /** The state after a run; a step that is not possible where it stands is skipped. */
  ghost function Exec(ops: seq<(Op, nat)>): Machine {
    if ops == [] then Idle else
      var m := Exec(ops[..|ops| - 1]);
      var (op, now) := ops[|ops| - 1];
      if Enabled(m, op) then Apply(m, op, now) else m
  }

  /** The invariant of the machine holds after every run. */
  lemma {:induction false} MachineInvariant(ops: seq<(Op, nat)>)
    ensures Inv(Exec(ops))
  {
    hide Inv, InsertFlush, FlushEndIo, DataEndIo;
    if ops == [] {
      IdleOk();
    } else {
      var m := Exec(ops[..|ops| - 1]);
      MachineInvariant(ops[..|ops| - 1]);
      var (op, now) := ops[|ops| - 1];
      if Enabled(m, op) {
        match op
        case Insert(id, device, flags, req) => InsertFlushOk(m, id, device, flags, req, now);
        case FlushComplete(error) => FlushEndIoOk(m, error, now);
        case DataComplete(id, error, bytes) => DataEndIoOk(m, id, error, bytes, now);
      }
    }
  }

  lemma IdleOk()
    ensures Inv(Idle)
  {
  }

  /**
    Ordering, over every run.  The data of a request that asked for a flush first reaches the device
    only after a flush that was issued after the request was queued has come back without error.  A
    request that asked for a flush afterwards ends without error only after a flush that was issued
    after its data came back has come back without error.
   */
  lemma FlushOrdering(ops: seq<(Op, nat)>, i: nat)
    requires i < |Exec(ops).log|
    ensures var m := Exec(ops);
            match m.log[i]
            case DataQueued(id) => Known(m, id) && (PolicyOf(m, id).pre ==> PreOk(m.log[..i], id))
            case Ended(id, error) =>
              Known(m, id) && (error == 0
                  ==> (PolicyOf(m, id).pre ==> PreOk(m.log[..i], id))
                      && (PolicyOf(m, id).post ==> PostOk(m.log[..i], id)))
            case _ => true
  {
    hide Exec, Core0, PreOk, PostOk, DataOk;
    MachineInvariant(ops);
    assert EventOk(Exec(ops), i);
  }

  /** The queue cannot stall: while any request is in the machinery, a flush or some data is in flight. */
  lemma NeverStalls(ops: seq<(Op, nat)>)
    requires Exec(ops).rqs != map[]
    ensures Exec(ops).InFlight() || Exec(ops).dataInFlight != []
  {
    hide Exec, RqsOk, FlightOk, LogOk, AllGoneOk;
    MachineInvariant(ops);
    var m := Exec(ops);
    var id :| id in m.rqs;
  }

  /** Where a request is, over every run: on exactly one list, on the one its next stage calls for. */
  lemma OneList(ops: seq<(Op, nat)>, id: nat)
    requires id in Exec(ops).rqs
    ensures var m := Exec(ops);
            && (id in m.dataInFlight <==> CurSeq(m.rqs[id].seq_).Data?)
            && (id in m.queue0 || id in m.queue1 <==> !CurSeq(m.rqs[id].seq_).Data?)
            && !(id in m.queue0 && id in m.queue1)
  {
    hide Exec, RqOk, FlightOk, LogOk, AllGoneOk;
    MachineInvariant(ops);
  }

  /** How many flushes have been issued and have not come back. */
  ghost function Unreturned(log: seq<Event>): int {
    if log == [] then 0 else
      var e := log[|log| - 1];
      Unreturned(log[..|log| - 1]) + if e.Issued? then 1 else if e.FlushDone? then -1 else 0
  }

  ghost predicate Balanced(m: Machine) {
    Unreturned(m.log) == if m.InFlight() then 1 else 0
  }

  lemma UnreturnedAppend(log: seq<Event>, e: Event)
    ensures Unreturned(log + [e]) == Unreturned(log) + if e.Issued? then 1 else if e.FlushDone? then -1 else 0
  {
    assert (log + [e])[..|log|] == log;
  }

  lemma KickBalanced(m: Machine, now: nat)
    requires Balanced(m)
    ensures Balanced(KickFlush(m, now))
  {
    UnreturnedAppend(m.log, Issued(m.issued + 1));
  }

  lemma ProceedBalanced(m: Machine, id: nat, rq: Rq, error: int, now: nat)
    requires Balanced(m) && FewBios(rq.req)
    ensures Balanced(Proceed(m, id, rq, error, now))
  {
    hide EndAll;
    UnreturnedAppend(m.log, DataQueued(id));
    UnreturnedAppend(m.log, Ended(id, error));
    UnreturnedAppend(m.log, Queued(id, NextStep(rq, error)));
  }

  lemma {:induction false} CompleteAllBalanced(m: Machine, ids: seq<nat>, error: int, now: nat)
    requires Balanced(m)
    ensures Balanced(CompleteAll(m, ids, error, now))
    decreases |ids|
  {
    hide Balanced, Proceed, KickFlush;
    if ids != [] && ids[0] in m.rqs && FewBios(m.rqs[ids[0]].req) {
      CompleteSeqBalanced(m, ids[0], CurSeq(m.rqs[ids[0]].seq_), error, now);
      CompleteAllBalanced(CompleteSeq(m, ids[0], CurSeq(m.rqs[ids[0]].seq_), error, now), ids[1..], error, now);
    }
  }

  lemma CompleteSeqBalanced(m: Machine, id: nat, step: Step, error: int, now: nat)
    requires Balanced(m) && id in m.rqs && FewBios(m.rqs[id].req)
    ensures Balanced(CompleteSeq(m, id, step, error, now))
  {
    hide Balanced, Proceed, KickFlush;
    var rq := m.rqs[id];
    var rq' := rq.(seq_ := rq.seq_.Or(Mask(step)), trace := rq.trace + [Ran(step, error)]);
    ProceedBalanced(m, id, rq', error, now);
    KickBalanced(Proceed(m, id, rq', error, now), now);
  }

  lemma ApplyBalanced(m: Machine, op: Op, now: nat)
    requires Balanced(m) && Enabled(m, op)
    ensures Balanced(Apply(m, op, now))
  {
    match op
    case Insert(id, device, flags, req) => InsertBalanced(m, id, device, flags, req, now);
    case FlushComplete(error) =>
      hide CompleteAll;
      UnreturnedAppend(m.log, FlushDone(m.issued, error));
      CompleteAllBalanced(m.(runningIdx := !m.runningIdx).Log(FlushDone(m.issued, error)), m.Queue(m.runningIdx), error,
          now);
    case DataComplete(id, error, bytes) => DataBalanced(m, id, error, bytes, now);
  }

  lemma InsertBalanced(m: Machine, id: nat, device: Flags, flags: Flags, req: Req, now: nat)
    requires Balanced(m) && FewBios(req)
    ensures Balanced(InsertFlush(m, id, device, flags, req, now))
  {
    hide Proceed, KickFlush, Update;
    var policy := Policy(device, flags, req.dataLen / 512 > 0);
    UnreturnedAppend(m.log, Ended(id, 0));
    UnreturnedAppend(m.log, Direct(id));
    var rq := Rq(policy, policy.Not(), req.(flushSeq := true), [], false, 0, |req.bios|);
    ProceedBalanced(m, id, rq, 0, now);
    KickBalanced(Proceed(m, id, rq, 0, now), now);
  }

  lemma DataBalanced(m: Machine, id: nat, error: int, bytes: nat, now: nat)
    requires Balanced(m) && id in m.rqs && FewBios(m.rqs[id].req)
    ensures Balanced(DataEndIo(m, id, error, bytes, now))
  {
    hide CompleteSeq, Update;
    var rq := m.rqs[id];
    var (req, more) := Update(rq.req, error, bytes);
    var m1 := m.(rqs := m.rqs[id := rq.(req := req, partFailed := rq.partFailed || (error != 0 && bytes > 0))]);
    if !more && FewBios(req) {
      UnreturnedAppend(m1.log, DataDone(id, error));
      CompleteSeqBalanced(m1.Log(DataDone(id, error)), id, Data, error, now);
    }
  }

  lemma {:induction false} RunBalanced(ops: seq<(Op, nat)>)
    ensures Balanced(Exec(ops))
  {
    hide Balanced, Apply;
    if ops == [] {
      assert Balanced(Idle) by { IdleBalanced(); }
    } else {
      var m := Exec(ops[..|ops| - 1]);
      RunBalanced(ops[..|ops| - 1]);
      var (op, now) := ops[|ops| - 1];
      if Enabled(m, op) { ApplyBalanced(m, op, now); }
    }
  }

  lemma IdleBalanced()
    ensures Balanced(Idle)
  {
  }

  /**
    One flush at a time: exactly when the indexes differ a flush that was issued has not come back, and then its
    list is not empty; otherwise none is out and only the pending list can hold anything.
   */
  lemma FlightMeans(ops: seq<(Op, nat)>)
    ensures var m := Exec(ops);
            && Unreturned(m.log) == (if m.pendingIdx != m.runningIdx then 1 else 0)
            && (m.InFlight() ==>
                  && m.Queue(m.runningIdx) != []
                  && m.issuedAt < |m.log| && m.log[m.issuedAt] == Issued(m.issued))
            && (!m.InFlight() ==> m.Queue(!m.pendingIdx) == [])
  {
    hide Exec, RqOk, LogOk, AllGoneOk;
    MachineInvariant(ops);
    RunBalanced(ops);
  }

  /**
    Every request that has ended ran the stages of its policy in order, all of them or up to the first
    failure, and its bio, if it has one, was ended exactly once, with an error exactly if a stage or a part
    of its data failed.  One that has not ended has run the stages before its current one, and its bio is not ended.
   */
  lemma StagesInOrder(ops: seq<(Op, nat)>, id: nat)
    ensures var m := Exec(ops);
            && (id in m.gone ==>
                  var g := m.gone[id];
                  && RanPolicy(g.policy, g.trace, g.error) && |g.req.ended| == g.nrBios <= 1
                  && (g.nrBios == 1 ==> (g.req.ended[0].error == 0 <==> g.error == 0 && !g.partFailed)))
            && (id in m.rqs ==>
                  var rq := m.rqs[id];
                  rq.trace == RanSoFar(rq.policy, rq.seq_) && rq.req.ended == [] && id !in m.gone)
  {
    hide Exec, FlightOk, LogOk, ListsOk, RanPolicy;
    MachineInvariant(ops);
  }
}
