/**
  The queue that block/blk-flush.c keeps up to date in place, each operation proved to be the step
  of the state machine of module Flush.
 */
module FlushQueue {
  import opened Basics
  import opened Completion
  import opened Flush

  /** What a request in the machinery carries: the stages marked in flush.seq, and its bios. */
  datatype Live = Live(seq_: Stages, req: Req)

  function Strip(rq: Rq): Live { Live(rq.seq_, rq.req) }

  /** The requests here and those ended are the ones of the history. */
  ghost predicate Matches(live: map<nat, Live>, ended: map<nat, Req>, rqs: map<nat, Rq>, gone: map<nat, Gone>) {
    && live.Keys == rqs.Keys && (forall id | id in live :: live[id] == Strip(rqs[id]))
    && ended.Keys == gone.Keys && (forall id | id in ended :: ended[id] == gone[id].req)
  }

  lemma MatchesSet(live: map<nat, Live>, ended: map<nat, Req>, rqs: map<nat, Rq>, gone: map<nat, Gone>, id: nat, rq: Rq)
    requires Matches(live, ended, rqs, gone)
    ensures Matches(live[id := Strip(rq)], ended, rqs[id := rq], gone)
  {
  }

  lemma MatchesEnd(live: map<nat, Live>, ended: map<nat, Req>, rqs: map<nat, Rq>, gone: map<nat, Gone>, id: nat,
                   g: Gone)
    requires Matches(live, ended, rqs, gone)
    ensures Matches(live, ended[id := g.req], rqs, gone[id := g])
    ensures Matches(live - {id}, ended[id := g.req], rqs - {id}, gone[id := g])
  {
  }

  lemma MatchesAt(live: map<nat, Live>, ended: map<nat, Req>, rqs: map<nat, Rq>, gone: map<nat, Gone>, id: nat)
    requires Matches(live, ended, rqs, gone) && id in rqs
    ensures id in live && live[id] == Strip(rqs[id])
  {
  }

  class RequestQueue {
    var queue0: seq<nat>
    var queue1: seq<nat>
    var pendingIdx: bool
    var runningIdx: bool
    var dataInFlight: seq<nat>
    var pendingSince: nat
    var live: map<nat, Live>
    var ended: map<nat, Req>
    // the same requests with their history, and the rest of it
    ghost var rqs: map<nat, Rq>
    ghost var gone: map<nat, Gone>
    ghost var log: seq<Event>
    ghost var issued: nat
    ghost var issuedAt: nat

    ghost function State(): Machine
      reads this
    {
      Machine(queue0, queue1, pendingIdx, runningIdx, dataInFlight, pendingSince, rqs, gone, log, issued, issuedAt)
    }

    ghost predicate Linked()
      reads this
    {
      Matches(live, ended, rqs, gone)
    }

    ghost predicate Valid()
      reads this
    {
      Inv(State()) && Linked()
    }

    constructor ()
      ensures State() == Idle && Valid()
    {
      queue0, queue1, dataInFlight := [], [], [];
      pendingIdx, runningIdx, pendingSince := false, false, 0;
      live, ended, rqs, gone, log, issued, issuedAt := map[], map[], map[], map[], [], 0, 0;
      new;
      IdleOk();
    }

    /** blk_kick_flush */
    method KickFlushNow(now: nat) returns (queued: bool)
      modifies `pendingIdx, `issued, `issuedAt, `log
      ensures State() == KickFlush(old(State()), now)
      ensures (queued <==> log != old(log)) && Linked() == old(Linked())
    {
      var pending := if pendingIdx then queue1 else queue0;
      if pendingIdx != runningIdx || pending == [] { return false; }
      if dataInFlight != [] && now < pendingSince + FLUSH_PENDING_TIMEOUT { return false; }
      issued, issuedAt := issued + 1, |log|;
      pendingIdx := !pendingIdx;
      log := log + [Issued(issued)];
      return true;
    }

    /** list_move_tail from wherever the request is */
    method UnlinkRequest(id: nat)
      modifies `queue0, `queue1, `dataInFlight
      ensures State() == Unlink(old(State()), id)
    {
      queue0 := Without(queue0, id);
      queue1 := Without(queue1, id);
      dataInFlight := Without(dataInFlight, id);
    }

    /** A request goes to the device with its data. */
    method TransferRequest(id: nat, marked: Live, ghost rq: Rq)
      requires marked == Strip(rq) && Linked()
      modifies `live, `rqs, `dataInFlight, `log
      ensures State() == Transfer(old(State()), id, rq) && Linked()
    {
      hide Matches;
      MatchesSet(live, ended, rqs, gone, id, rq);
      live := live[id := marked];
      rqs := rqs[id := rq];
      dataInFlight := dataInFlight + [id];
      log := log + [DataQueued(id)];
    }

    /** The end of a request. */
    method EndRequest(id: nat, marked: Live, ghost rq: Rq, error: int)
      requires FewBios(rq.req) && marked == Strip(rq) && Linked()
      modifies `live, `ended, `rqs, `gone, `log
      ensures State() == Leave(old(State()), id, rq, error) && Linked()
    {
      hide Matches, EndAll;
      ghost var g := Gone(rq.policy, EndAll(rq.req, error).0, rq.trace, rq.partFailed, error, rq.nrBios);
      MatchesEnd(live, ended, rqs, gone, id, g);
      ended := ended[id := EndAll(marked.req, error).0];
      live := live - {id};
      gone := gone[id := g];
      rqs := rqs - {id};
      log := log + [Ended(id, error)];
    }

    /** A request joins the pending queue. */
    method AwaitFlush(id: nat, marked: Live, ghost rq: Rq, ghost step: Step)
      requires marked == Strip(rq) && Linked()
      modifies `live, `rqs, `queue0, `queue1, `log
      ensures State() == Await(old(State()), id, rq, step, pendingSince) && Linked()
    {
      hide Matches;
      MatchesSet(live, ended, rqs, gone, id, rq.(queuedAt := |log|));
      live := live[id := marked];
      rqs := rqs[id := rq.(queuedAt := |log|)];
      if pendingIdx { queue1 := queue1 + [id]; } else { queue0 := queue0 + [id]; }
      log := log + [Queued(id, step)];
    }

    /** blk_flush_complete_seq: the request, with the completed stages marked, goes to its next step. */
    method CompleteSequence(id: nat, marked: Live, ghost rq: Rq, error: int, now: nat) returns (queued: bool)
      requires FewBios(rq.req) && marked == Strip(rq) && Linked()
      modifies this
      ensures State() == KickFlush(Proceed(old(State()), id, rq, error, now), now) && Linked()
    {
      hide KickFlush, Matches, Transfer, Leave;
      var pending := if pendingIdx then queue1 else queue0;
      queued := false;
      UnlinkRequest(id);
      match if error == 0 then CurSeq(marked.seq_) else Done {
        case Data =>
          TransferRequest(id, marked, rq);
          queued := true;
        case Done =>
          EndRequest(id, marked, rq, error);
        case step =>
          if pending == [] { pendingSince := now; }
          AwaitFlush(id, marked, rq, step);
      }
      var kicked := KickFlushNow(now);
      queued := kicked || queued;
    }

    /** flush_end_io */
    method FlushEnd(error: int, now: nat)
      requires Valid() && pendingIdx != runningIdx
      modifies this
      ensures State() == FlushEndIo(old(State()), error, now) && Valid()
    {
      hide Inv, Core, RestOk, NoStall, Proceed, KickFlush, CompleteAll, FewBios, Matches;
      FlushReturns(State(), error);
      FlushEndIoOk(State(), error, now);
      var rest := if runningIdx then queue1 else queue0;
      runningIdx := !runningIdx;
      log := log + [FlushDone(issued, error)];
      while rest != []
        invariant Linked() && Core(State(), rest) && RestOk(State(), rest, error)
        invariant CompleteAll(State(), rest, error, now) == FlushEndIo(old(State()), error, now)
        decreases |rest|
      {
        CompleteSeqRest(State(), rest, error, now);
        CompleteAllStep(State(), rest, error, now);
        var id := rest[0];
        MatchesAt(live, ended, rqs, gone, id);
        var seq_ := live[id].seq_;
        var _ := CompleteSequence(id, live[id].(seq_ := seq_.Or(Mask(CurSeq(seq_)))), Marked(rqs[id], error), error,
            now);
        rest := rest[1..];
      }
      CompleteAllEnd(State(), error, now);
    }

    /** The completion of data: blk_update_request and, with the last byte, flush_data_end_io. */
    method DataEnd(id: nat, error: int, bytes: nat, now: nat)
      requires Valid() && id in dataInFlight
      modifies this
      ensures old(id in rqs && FewBios(rqs[id].req))
      ensures State() == DataEndIo(old(State()), id, error, bytes, now) && Valid()
    {
      hide Inv, Core0, Update, Proceed, KickFlush, RqOk, Matches;
      DataEndIoOk(State(), id, error, bytes, now);
      InDataNow(State(), id);
      MatchesAt(live, ended, rqs, gone, id);
      var rq := live[id];
      var (req, more) := Update(rq.req, error, bytes);
      ghost var rq1 := rqs[id].(req := req, partFailed := rqs[id].partFailed || (error != 0 && bytes > 0));
      MatchesSet(live, ended, rqs, gone, id, rq1);
      live := live[id := rq.(req := req)];
      rqs := rqs[id := rq1];
      if !more && FewBios(req) {
        log := log + [DataDone(id, error)];
        var _ := CompleteSequence(id, Live(rq.seq_.Or(Mask(Data)), req), Marked(rq1, error), error, now);
      }
    }

    /** blk_insert_flush */
    method InsertRequest(id: nat, device: Flags, flags: Flags, req: Req, now: nat)
      requires Valid() && !Known(State(), id) && Insertable(flags, req)
      modifies this
      ensures State() == InsertFlush(old(State()), id, device, flags, req, now) && Valid()
    {
      hide Inv, Update, Proceed, KickFlush, ReqOk, Matches;
      InsertFlushOk(State(), id, device, flags, req, now);
      var policy := Policy(device, flags, req.dataLen / 512 > 0);
      if policy == Stages(false, false, false) {
        var (done, _) := Update(req, 0, 0);
        ghost var g := Gone(policy, done, [], false, 0, |req.bios|);
        MatchesEnd(live, ended, rqs, gone, id, g);
        ended := ended[id := done];
        gone := gone[id := g];
        log := log + [Ended(id, 0)];
        return;
      }
      if policy.data && !(policy.pre || policy.post) {
        log := log + [Direct(id)];
        return;
      }
      ghost var rq := Rq(policy, policy.Not(), req.(flushSeq := true), [], false, 0, |req.bios|);
      var _ := CompleteSequence(id, Live(policy.Not(), req.(flushSeq := true)), rq, 0, now);
    }
  }

  lemma CompleteAllStep(m: Machine, ids: seq<nat>, error: int, now: nat)
    requires ids != [] && ids[0] in m.rqs && FewBios(m.rqs[ids[0]].req)
    ensures CompleteAll(m, ids, error, now)
         == CompleteAll(KickFlush(Proceed(m, ids[0], Marked(m.rqs[ids[0]], error), error, now), now), ids[1..], error,
             now)
  {
    hide Proceed, KickFlush;
  }

  lemma CompleteAllEnd(m: Machine, error: int, now: nat)
    ensures CompleteAll(m, [], error, now) == m
  {
  }

  lemma InDataNow(m: Machine, id: nat)
    requires Inv(m) && id in m.dataInFlight
    ensures id in m.rqs && FewBios(m.rqs[id].req) && CurSeq(m.rqs[id].seq_).Data?
  {
    hide LogOk, GoneOk, Waits;
    InData(m, id);
  }
}
