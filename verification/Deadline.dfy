/**
  The deadline scheduler of block/deadline-iosched.c: two indexes over the queued requests of each direction,
  batches in sector order, and the bounds on how long one direction can starve the other.
 */
module Deadline {
  import opened Basics
  import opened KeyedLists

  const READ := 0
  const WRITE := 1

  /** The settings: expiry per direction, fifo_batch and writes_starved. */
  datatype Tunables = Tunables(expire: seq<nat>, fifoBatch: nat, writesStarved: nat) {
    ghost predicate Valid() { |expire| == 2 }
  }

  /** sort_list, fifo_list and next_rq per direction, the counters, jiffies, and the dispatch queue behind them. */
  datatype Data = Data(
    sort: seq<seq<Entry>>, fifo: seq<seq<Entry>>, next: seq<Option<nat>>,
    batching: nat, starved: nat, now: nat, dispatched: seq<nat>)
  {
    predicate Shaped() { |sort| == |fifo| == |next| == 2 }
  }

  // ---- the operations ----

  /** deadline_add_request */
  function Added(t: Tunables, d: Data, dir: nat, id: nat, pos: nat): Data
    requires t.Valid() && d.Shaped() && dir < 2
  {
    d.(sort := d.sort[dir := Place(d.sort[dir], Entry(id, pos))],
       fifo := d.fifo[dir := d.fifo[dir] + [Entry(id, d.now + t.expire[dir])]])
  }

  /** deadline_remove_request with deadline_del_rq_rb */
  function Removed(d: Data, dir: nat, id: nat): Data
    requires d.Shaped() && dir < 2
  {
    d.(fifo := d.fifo[dir := Remove(d.fifo[dir], id)],
       next := if d.next[dir] == Some(id) then d.next[dir := Latter(d.sort[dir], id)] else d.next,
       sort := d.sort[dir := Remove(d.sort[dir], id)])
  }

  /** deadline_merged_request after a front merge moved the request to `pos` */
  function FrontMerged(d: Data, dir: nat, id: nat, pos: nat): Data
    requires d.Shaped() && dir < 2
  {
    d.(sort := d.sort[dir := Place(Remove(d.sort[dir], id), Entry(id, pos))])
  }

  /** The fifo part of deadline_merged_requests: `id` takes the place of `next` when that expires first. */
  function Inherit(fifo: seq<Entry>, id: nat, next: nat): seq<Entry> {
    if id in Ids(fifo) && next in Ids(fifo) && Key(fifo, next) < Key(fifo, id)
    then InsertAfter(Remove(fifo, id), next, Entry(id, Key(fifo, next)))
    else fifo
  }

  /** deadline_merged_requests */
  function Merged(d: Data, dir: nat, id: nat, next: nat): Data
    requires d.Shaped() && dir < 2
  {
    Removed(d.(fifo := d.fifo[dir := Inherit(d.fifo[dir], id, next)]), dir, next)
  }

  /** deadline_check_fifo */
  predicate HeadExpired(d: Data, dir: nat)
    requires d.Shaped() && dir < 2 && d.fifo[dir] != []
  {
    d.now > d.fifo[dir][0].key
  }

  /** The request that starts a new batch in a direction. */
  function FindRequest(d: Data, dir: nat): nat
    requires d.Shaped() && dir < 2 && d.fifo[dir] != []
  {
    if HeadExpired(d, dir) || d.next[dir].None? then d.fifo[dir][0].id else d.next[dir].value
  }

  datatype Pick = Nothing | Pick(dir: nat, id: nat, batching: nat, starved: nat)

  /** The first half of deadline_dispatch_requests: what to dispatch and the counters after it. */
  function Choose(t: Tunables, d: Data): (p: Pick)
    requires d.Shaped()
    ensures p.Pick? ==> p.dir < 2
  {
    if d.next[WRITE].Some? && d.batching < t.fifoBatch then Pick(WRITE, d.next[WRITE].value, d.batching + 1, d.starved)
    else if d.next[WRITE].None? && d.next[READ].Some? && d.batching < t.fifoBatch
        then Pick(READ, d.next[READ].value, d.batching + 1, d.starved)
    else if d.fifo[READ] != [] && !(d.fifo[WRITE] != [] && d.starved >= t.writesStarved) then
      Pick(READ, FindRequest(d, READ), 1, if d.fifo[WRITE] != [] then d.starved + 1 else d.starved)
    else if d.fifo[WRITE] != [] then Pick(WRITE, FindRequest(d, WRITE), 1, 0)
    else Nothing
  }

  /** deadline_move_request */
  function Moved(d: Data, dir: nat, id: nat): Data
    requires d.Shaped() && dir < 2
  {
    var d' := Removed(d.(next := [None, None][dir := Latter(d.sort[dir], id)]), dir, id);
    d'.(dispatched := d'.dispatched + [id])
  }

  function Dispatch(t: Tunables, d: Data): Data
    requires d.Shaped()
  {
    match Choose(t, d)
    case Nothing => d
    case Pick(dir, id, batching, starved) => Moved(d.(batching := batching, starved := starved), dir, id)
  }

  // ---- index agreement ----

  /** The two indexes of one direction. */
  ghost predicate LaneOk(sort: seq<Entry>, fifo: seq<Entry>, next: Option<nat>, latest: nat) {
    && Unique(sort) && Unique(fifo) && Ids(sort) == Ids(fifo)
    && Ordered(sort) && Ordered(fifo) && AllAtMost(fifo, latest)
    && (next.Some? ==> next.value in Ids(sort))
  }

  ghost predicate Inv(t: Tunables, d: Data) {
    && t.Valid() && d.Shaped()
    && LaneOk(d.sort[READ], d.fifo[READ], d.next[READ], d.now + t.expire[READ])
    && LaneOk(d.sort[WRITE], d.fifo[WRITE], d.next[WRITE], d.now + t.expire[WRITE])
    && Ids(d.sort[READ]) !! Ids(d.sort[WRITE])
    && (d.next[READ].None? || d.next[WRITE].None?)
    && (d.next[WRITE].Some? ==> d.starved == 0)
  }

  ghost function Queued(d: Data): set<nat>
    requires d.Shaped()
  {
    Ids(d.sort[READ]) + Ids(d.sort[WRITE])
  }

  lemma LaneAdd(sort: seq<Entry>, fifo: seq<Entry>, next: Option<nat>, latest: nat, id: nat, pos: nat)
    requires LaneOk(sort, fifo, next, latest) && id !in Ids(sort)
    ensures LaneOk(Place(sort, Entry(id, pos)), fifo + [Entry(id, latest)], next, latest)
  {
    PlaceOk(sort, Entry(id, pos));
    AppendOk(fifo, Entry(id, latest));
  }

  lemma LaneRemove(sort: seq<Entry>, fifo: seq<Entry>, next: Option<nat>, latest: nat, id: nat)
    requires LaneOk(sort, fifo, next, latest)
    ensures LaneOk(Remove(sort, id), Remove(fifo, id), if next == Some(id) then Latter(sort, id) else next, latest)
    ensures LaneOk(Remove(sort, id), Remove(fifo, id), Latter(sort, id), latest)
  {
    RemoveOk(sort, id);
    RemoveOk(fifo, id);
    LatterOk(sort, id);
    assert AllAtMost(Remove(fifo, id), latest);
  }

  lemma LaneReposition(sort: seq<Entry>, fifo: seq<Entry>, next: Option<nat>, latest: nat, id: nat, pos: nat)
    requires LaneOk(sort, fifo, next, latest) && id in Ids(sort)
    ensures LaneOk(Place(Remove(sort, id), Entry(id, pos)), fifo, next, latest)
    ensures Ids(Place(Remove(sort, id), Entry(id, pos))) == Ids(sort)
  {
    RemoveOk(sort, id);
    PlaceOk(Remove(sort, id), Entry(id, pos));
  }

  lemma LaneInherit(sort: seq<Entry>, fifo: seq<Entry>, next: Option<nat>, latest: nat, id: nat, other: nat)
    requires LaneOk(sort, fifo, next, latest) && id != other
    ensures LaneOk(sort, Inherit(fifo, id, other), next, latest)
  {
    if Inherit(fifo, id, other) != fifo {
      RemoveOk(fifo, id);
      RemoveKeepsKey(fifo, id, other);
      InsertAfterOk(Remove(fifo, id), other, Entry(id, Key(fifo, other)));
      assert AllAtMost(Remove(fifo, id), latest);
    }
  }

  lemma AddInv(t: Tunables, d: Data, dir: nat, id: nat, pos: nat)
    requires Inv(t, d) && dir < 2 && id !in Queued(d)
    ensures Inv(t, Added(t, d, dir, id, pos)) && Queued(Added(t, d, dir, id, pos)) == Queued(d) + {id}
  {
    LaneAdd(d.sort[dir], d.fifo[dir], d.next[dir], d.now + t.expire[dir], id, pos);
    PlaceOk(d.sort[dir], Entry(id, pos));
  }

  lemma RemoveInv(t: Tunables, d: Data, dir: nat, id: nat)
    requires Inv(t, d) && dir < 2 && id in Ids(d.sort[dir])
    ensures Inv(t, Removed(d, dir, id)) && Queued(Removed(d, dir, id)) == Queued(d) - {id}
  {
    LaneRemove(d.sort[dir], d.fifo[dir], d.next[dir], d.now + t.expire[dir], id);
    RemoveOk(d.sort[dir], id);
  }

  lemma FrontMergedInv(t: Tunables, d: Data, dir: nat, id: nat, pos: nat)
    requires Inv(t, d) && dir < 2 && id in Ids(d.sort[dir])
    ensures Inv(t, FrontMerged(d, dir, id, pos)) && Queued(FrontMerged(d, dir, id, pos)) == Queued(d)
  {
    LaneReposition(d.sort[dir], d.fifo[dir], d.next[dir], d.now + t.expire[dir], id, pos);
  }

  lemma MergedRequestsInv(t: Tunables, d: Data, dir: nat, id: nat, next: nat)
    requires Inv(t, d) && dir < 2 && id in Ids(d.sort[dir]) && next in Ids(d.sort[dir]) && id != next
    ensures Inv(t, Merged(d, dir, id, next)) && Queued(Merged(d, dir, id, next)) == Queued(d) - {next}
  {
    LaneInherit(d.sort[dir], d.fifo[dir], d.next[dir], d.now + t.expire[dir], id, next);
    var d' := d.(fifo := d.fifo[dir := Inherit(d.fifo[dir], id, next)]);
    assert Inv(t, d') && Queued(d') == Queued(d);
    RemoveInv(t, d', dir, next);
  }

  /** Dispatch finds something exactly when something is queued, and what it finds is queued in that direction. */
  lemma ChooseOk(t: Tunables, d: Data)
    requires Inv(t, d)
    ensures Choose(t, d).Nothing? <==> Queued(d) == {}
    ensures var p := Choose(t, d); p.Pick? ==> p.id in Ids(d.sort[p.dir])
  {
    EmptyLane(d.sort[READ], d.fifo[READ]);
    EmptyLane(d.sort[WRITE], d.fifo[WRITE]);
  }

  lemma EmptyLane(sort: seq<Entry>, fifo: seq<Entry>)
    requires Ids(sort) == Ids(fifo)
    ensures fifo == [] <==> Ids(sort) == {}
    ensures fifo != [] ==> fifo[0].id in Ids(sort)
  {
    if fifo != [] { assert fifo[0].id in Ids(fifo); }
  }

  /**
    A new batch starts with the earliest deadline of its direction when a deadline there has passed or there is
    nothing to go on with; otherwise it goes on in sector order.
   */
  lemma NewBatchStart(t: Tunables, d: Data)
    requires Inv(t, d) && Choose(t, d).Pick?
    requires (d.next[READ].None? && d.next[WRITE].None?) || d.batching >= t.fifoBatch
    ensures var p := Choose(t, d);
            && d.fifo[p.dir] != []
            && var overdue := exists i :: 0 <= i < |d.fifo[p.dir]| && d.now > d.fifo[p.dir][i].key;
               if overdue || d.next[p.dir].None?
               then p.id == d.fifo[p.dir][0].id && AllAtLeast(d.fifo[p.dir], d.fifo[p.dir][0].key)
               else Some(p.id) == d.next[p.dir]
  {
    var dir := Choose(t, d).dir;
    HeadDecides(t, d, dir);
    OrderedHead(d.fifo[dir]);
  }

  lemma MoveInv(t: Tunables, d: Data, dir: nat, id: nat)
    requires t.Valid() && d.Shaped() && dir < 2 && id in Ids(d.sort[dir])
    requires Inv(t, d.(next := [None, None])) && (dir == WRITE ==> d.starved == 0)
    ensures Inv(t, Moved(d, dir, id)) && Queued(Moved(d, dir, id)) == Queued(d) - {id}
  {
    LaneRemove(d.sort[dir], d.fifo[dir], None, d.now + t.expire[dir], id);
    RemoveOk(d.sort[dir], id);
    LatterOk(d.sort[dir], id);
  }

  lemma DispatchInv(t: Tunables, d: Data)
    requires Inv(t, d)
    ensures Inv(t, Dispatch(t, d))
    ensures Choose(t, d).Pick? ==>
              var id := Choose(t, d).id;
              && id in Queued(d) && Queued(Dispatch(t, d)) == Queued(d) - {id}
              && Dispatch(t, d).dispatched == d.dispatched + [id]
  {
    ChooseOk(t, d);
    var p := Choose(t, d);
    if p.Pick? {
      MoveInv(t, d.(batching := p.batching, starved := p.starved), p.dir, p.id);
    }
  }

  /** Testing the head of a fifo decides whether anything in it has expired. */
  lemma HeadDecides(t: Tunables, d: Data, dir: nat)
    requires Inv(t, d) && dir < 2 && d.fifo[dir] != []
    ensures HeadExpired(d, dir) <==> exists i :: 0 <= i < |d.fifo[dir]| && d.now > d.fifo[dir][i].key
  {
    OrderedHead(d.fifo[dir]);
    if HeadExpired(d, dir) { assert d.now > d.fifo[dir][0].key; }
  }

  // ---- runs ----

  /** What happens to the scheduler: time passes, or the elevator calls one of its hooks. */
  datatype Op =
    | Tick(ticks: nat)
    | Add(dir: nat, id: nat, pos: nat)
    | FrontMerge(dir: nat, id: nat, pos: nat)
    | Merge(dir: nat, id: nat, next: nat)
    | Issue

  /** The elevator only names requests it has added, and merges two different ones of one direction. */
  ghost predicate Enabled(d: Data, op: Op)
    requires d.Shaped()
  {
    match op
    case Tick(_) => true
    case Add(dir, id, _) => dir < 2 && id !in Queued(d)
    case FrontMerge(dir, id, _) => dir < 2 && id in Ids(d.sort[dir])
    case Merge(dir, id, next) => dir < 2 && id in Ids(d.sort[dir]) && next in Ids(d.sort[dir]) && id != next
    case Issue => true
  }

  ghost function Do(t: Tunables, d: Data, op: Op): Data
    requires t.Valid() && d.Shaped()
  {
    if !Enabled(d, op) then d else
      match op
      case Tick(ticks) => d.(now := d.now + ticks)
      case Add(dir, id, pos) => Added(t, d, dir, id, pos)
      case FrontMerge(dir, id, pos) => FrontMerged(d, dir, id, pos)
      case Merge(dir, id, next) => Merged(d, dir, id, next)
      case Issue => Dispatch(t, d)
  }

  lemma DoShaped(t: Tunables, d: Data, op: Op)
    requires t.Valid() && d.Shaped()
    ensures Do(t, d, op).Shaped()
  {
  }

  ghost function Exec(t: Tunables, d: Data, ops: seq<Op>): (r: Data)
    requires t.Valid() && d.Shaped()
    ensures r.Shaped()
  {
    if ops == [] then d else
      var before := Exec(t, d, ops[..|ops| - 1]);
      DoShaped(t, before, ops[|ops| - 1]);
      Do(t, before, ops[|ops| - 1])
  }

  /** An idle scheduler. */
  function Start(now: nat): Data { Data([[], []], [[], []], [None, None], 0, 0, now, []) }

  lemma LaneLater(sort: seq<Entry>, fifo: seq<Entry>, next: Option<nat>, latest: nat, latest': nat)
    requires LaneOk(sort, fifo, next, latest) && latest <= latest'
    ensures LaneOk(sort, fifo, next, latest')
  {
  }

  lemma DoInv(t: Tunables, d: Data, op: Op)
    requires Inv(t, d)
    ensures Inv(t, Do(t, d, op))
  {
    if Enabled(d, op) {
      match op
      case Tick(ticks) =>
        LaneLater(d.sort[READ], d.fifo[READ], d.next[READ], d.now + t.expire[READ], d.now + ticks + t.expire[READ]);
        LaneLater(d.sort[WRITE], d.fifo[WRITE], d.next[WRITE], d.now + t.expire[WRITE],
            d.now + ticks + t.expire[WRITE]);
      case Add(dir, id, pos) => AddInv(t, d, dir, id, pos);
      case FrontMerge(dir, id, pos) => FrontMergedInv(t, d, dir, id, pos);
      case Merge(dir, id, next) => MergedRequestsInv(t, d, dir, id, next);
      case Issue => DispatchInv(t, d);
    }
  }

  /** Over every run the two indexes of each direction agree. */
  lemma {:induction false} IndexesAgree(t: Tunables, now: nat, ops: seq<Op>)
    requires t.Valid()
    ensures Inv(t, Exec(t, Start(now), ops))
  {
    hide Inv, Do;
    if ops == [] {
      assert Inv(t, Start(now)) by { StartInv(t, now); }
    } else {
      IndexesAgree(t, now, ops[..|ops| - 1]);
      DoInv(t, Exec(t, Start(now), ops[..|ops| - 1]), ops[|ops| - 1]);
    }
  }

  lemma StartInv(t: Tunables, now: nat)
    requires t.Valid()
    ensures Inv(t, Start(now))
  {
  }

  // ---- starvation ----

  /** How many more reads can be dispatched while a write waits. */
  function ReadCredit(t: Tunables, d: Data): nat
    requires d.Shaped()
  {
    (if d.next[READ].Some? then Max(0, t.fifoBatch - d.batching) else 0)
    + Max(0, t.writesStarved - d.starved) * Max(1, t.fifoBatch)
  }

  /** How many more writes can be dispatched while a read waits. */
  function WriteCredit(t: Tunables, d: Data): nat
    requires d.Shaped()
  {
    (if d.next[WRITE].Some? then Max(0, t.fifoBatch - d.batching) else 0)
    + (if d.starved >= t.writesStarved then Max(1, t.fifoBatch) else 0)
  }

  lemma Product(a: nat, b: nat, c: nat)
    requires a < b
    ensures a * c + c <= b * c
  {
    var k := b - a;
    assert b * c == (a + k) * c == a * c + k * c;
    assert k * c == (k - 1) * c + c;
  }

  lemma ProductAtMost(a: nat, b: nat, c: nat)
    requires a <= b
    ensures a * c <= b * c
  {
  }

  /** A read dispatched past a waiting write uses up credit. */
  lemma ReadUsesCredit(t: Tunables, d: Data)
    requires Inv(t, d) && d.fifo[WRITE] != [] && Choose(t, d).Pick? && Choose(t, d).dir == READ
    ensures ReadCredit(t, Dispatch(t, d)) < ReadCredit(t, d)
  {
    var p := Choose(t, d);
    if p.starved != d.starved {
      Product(t.writesStarved - p.starved, t.writesStarved - d.starved, Max(1, t.fifoBatch));
    }
  }

  /** A write dispatched past a waiting read uses up credit, unless writes may not be starved at all. */
  lemma WriteUsesCredit(t: Tunables, d: Data)
    requires Inv(t, d) && t.writesStarved >= 1 && d.fifo[READ] != [] && Choose(t, d).Pick? && Choose(t, d).dir == WRITE
    ensures WriteCredit(t, Dispatch(t, d)) < WriteCredit(t, d)
  {
  }

  lemma CreditBounds(t: Tunables, d: Data)
    requires Inv(t, d)
    ensures ReadCredit(t, d) <= (t.writesStarved + 1) * Max(1, t.fifoBatch)
    ensures t.writesStarved >= 1 ==> WriteCredit(t, d) <= Max(1, t.fifoBatch)
  {
    ProductAtMost(Max(0, t.writesStarved - d.starved), t.writesStarved, Max(1, t.fifoBatch));
  }

  /** Nothing else that happens gives credit back. */
  lemma OthersKeepCredit(t: Tunables, d: Data, op: Op)
    requires Inv(t, d) && !op.Issue?
    ensures ReadCredit(t, Do(t, d, op)) <= ReadCredit(t, d)
    ensures WriteCredit(t, Do(t, d, op)) <= WriteCredit(t, d)
  {
  }

  /** Every dispatch of the run takes a request of direction `dir` while the other direction has one waiting. */
  ghost predicate Starves(t: Tunables, d: Data, ops: seq<Op>, dir: nat)
    requires t.Valid() && d.Shaped() && dir < 2
  {
    forall k | 0 <= k < |ops| && ops[k].Issue? ::
      var at := Exec(t, d, ops[..k]);
      at.fifo[1 - dir] != [] && Choose(t, at).Pick? && Choose(t, at).dir == dir
  }

  function Issues(ops: seq<Op>): nat {
    if ops == [] then 0 else Issues(ops[..|ops| - 1]) + if ops[|ops| - 1].Issue? then 1 else 0
  }

  lemma StarvesBefore(t: Tunables, d: Data, ops: seq<Op>, dir: nat)
    requires t.Valid() && d.Shaped() && dir < 2 && ops != [] && Starves(t, d, ops, dir)
    ensures Starves(t, d, ops[..|ops| - 1], dir)
  {
    var before := ops[..|ops| - 1];
    forall k | 0 <= k < |before| && before[k].Issue?
      ensures var at := Exec(t, d, before[..k]);
              at.fifo[1 - dir] != [] && Choose(t, at).Pick? && Choose(t, at).dir == dir
    {
      assert before[..k] == ops[..k] && ops[k].Issue?;
    }
  }

  lemma {:induction false} RunUsesCredit(t: Tunables, d: Data, ops: seq<Op>, dir: nat)
    requires Inv(t, d) && dir < 2 && Starves(t, d, ops, dir)
    ensures Inv(t, Exec(t, d, ops))
    ensures dir == READ ==> ReadCredit(t, Exec(t, d, ops)) + Issues(ops) <= ReadCredit(t, d)
    ensures dir == WRITE && t.writesStarved >= 1 ==> WriteCredit(t, Exec(t, d, ops)) + Issues(ops) <= WriteCredit(t, d)
  {
    assert t.Valid() && d.Shaped();
    hide Inv, ReadCredit, WriteCredit, Choose, Dispatch;
    if ops != [] {
      var before, op := ops[..|ops| - 1], ops[|ops| - 1];
      var at := Exec(t, d, before);
      StarvesBefore(t, d, ops, dir);
      RunUsesCredit(t, d, before, dir);
      DoInv(t, at, op);
      if !op.Issue? {
        OthersKeepCredit(t, at, op);
      } else if dir == READ {
        ReadUsesCredit(t, at);
      } else if t.writesStarved >= 1 {
        WriteUsesCredit(t, at);
      }
    }
  }

  /**
    From any reachable state on, reads pass a waiting write at most (writes_starved + 1) * max(1, fifo_batch) times in a
    row.
   */
  lemma WritesNotStarved(t: Tunables, now: nat, past: seq<Op>, ops: seq<Op>)
    requires t.Valid() && Starves(t, Exec(t, Start(now), past), ops, READ)
    ensures Issues(ops) <= (t.writesStarved + 1) * Max(1, t.fifoBatch)
  {
    hide Starves, Exec;
    var d := Exec(t, Start(now), past);
    IndexesAgree(t, now, past);
    RunUsesCredit(t, d, ops, READ);
    CreditBounds(t, d);
  }

  /** With writes_starved at least 1, writes pass a waiting read at most max(1, fifo_batch) times in a row. */
  lemma ReadsNotStarved(t: Tunables, now: nat, past: seq<Op>, ops: seq<Op>)
    requires t.Valid() && t.writesStarved >= 1 && Starves(t, Exec(t, Start(now), past), ops, WRITE)
    ensures Issues(ops) <= Max(1, t.fifoBatch)
  {
    hide Starves, Exec;
    var d := Exec(t, Start(now), past);
    IndexesAgree(t, now, past);
    RunUsesCredit(t, d, ops, WRITE);
    CreditBounds(t, d);
  }

  /** With writes_starved 0 a waiting write always goes before the reads, except inside a batch of reads. */
  lemma ZeroStarvesReads(t: Tunables, d: Data)
    requires Inv(t, d) && t.writesStarved == 0 && d.fifo[WRITE] != []
    requires d.next[READ].None? || d.batching >= t.fifoBatch
    ensures Choose(t, d).Pick? && Choose(t, d).dir == WRITE
  {
  }

  lemma {:induction false} RemoveLength(s: seq<Entry>, id: nat)
    requires id in Ids(s)
    ensures |Remove(s, id)| == |s| - 1
  {
    if s[0].id != id { RemoveLength(s[1..], id); }
  }

  /** A write goes, and the reads are as they were. */
  lemma WriteGoes(t: Tunables, d: Data)
    requires Inv(t, d) && t.writesStarved == 0 && d.fifo[WRITE] != [] && d.next[READ].None?
    ensures var d' := Dispatch(t, d);
            d'.Shaped() && d'.next[READ].None? && d'.fifo[READ] == d.fifo[READ]
                && |d'.fifo[WRITE]| == |d.fifo[WRITE]| - 1
  {
    ZeroStarvesReads(t, d);
    ChooseOk(t, d);
    var p := Choose(t, d);
    RemoveLength(d.fifo[WRITE], p.id);
  }

  function Repeated(n: nat): (ops: seq<Op>)
    ensures |ops| == n && (forall k | 0 <= k < n :: ops[k] == Issue) && Issues(ops) == n
  {
    if n == 0 then [] else
      var before := Repeated(n - 1);
      assert (before + [Issue])[..n - 1] == before;
      before + [Issue]
  }

  lemma StarvesOn(t: Tunables, d: Data, ops: seq<Op>, dir: nat)
    requires t.Valid() && d.Shaped() && dir < 2 && Starves(t, d, ops, dir)
    requires var at := Exec(t, d, ops); at.fifo[1 - dir] != [] && Choose(t, at).Pick? && Choose(t, at).dir == dir
    ensures Starves(t, d, ops + [Issue], dir)
  {
    hide Exec, Choose;
    var ops' := ops + [Issue];
    forall k | 0 <= k < |ops'| && ops'[k].Issue?
      ensures var at := Exec(t, d, ops'[..k]); at.fifo[1 - dir] != [] && Choose(t, at).Pick? && Choose(t, at).dir == dir
    {
      if k < |ops| {
        assert ops'[..k] == ops[..k] && ops[k].Issue?;
      } else {
        assert ops'[..k] == ops;
      }
    }
  }

  /** Some reads wait, no batch of reads is on, and n writes are queued. */
  ghost predicate Flooded(t: Tunables, d: Data, n: nat) {
    Inv(t, d) && d.next[READ].None? && d.fifo[READ] != [] && |d.fifo[WRITE]| == n
  }

  lemma FloodedStep(t: Tunables, d: Data, n: nat)
    requires Flooded(t, d, n + 1) && t.writesStarved == 0
    ensures Flooded(t, Do(t, d, Issue), n)
    ensures d.fifo[1 - WRITE] != [] && Choose(t, d).Pick? && Choose(t, d).dir == WRITE
  {
    WriteGoes(t, d);
    ZeroStarvesReads(t, d);
    DispatchInv(t, d);
    hide Inv;
  }

  /** As long as writes are queued they pass the reads, one dispatch after the other. */
  lemma {:induction false} WritesGoOn(t: Tunables, d: Data, m: nat, n: nat)
    requires Flooded(t, d, m + n) && t.writesStarved == 0
    ensures Starves(t, d, Repeated(n), WRITE) && Flooded(t, Exec(t, d, Repeated(n)), m)
    decreases n
  {
    assert t.Valid() && d.Shaped();
    hide Flooded, Do, Starves, Choose;
    if n == 0 {
      NoOpsStarve(t, d);
    } else {
      var before := Repeated(n - 1);
      WritesGoOn(t, d, m + 1, n - 1);
      var at := Exec(t, d, before);
      FloodedStep(t, at, m);
      assert Repeated(n) == before + [Issue] && (before + [Issue])[..n - 1] == before;
      StarvesOn(t, d, before, WRITE);
    }
  }

  lemma NoOpsStarve(t: Tunables, d: Data)
    requires t.Valid() && d.Shaped()
    ensures Starves(t, d, [], WRITE)
  {
  }

  /** One read and then n writes arrive. */
  function Flood(n: nat): seq<Op> {
    if n == 0 then [Add(READ, 0, 0)] else Flood(n - 1) + [Add(WRITE, n, 0)]
  }

  lemma {:induction false} FloodQueues(t: Tunables, now: nat, n: nat)
    requires t.Valid()
    ensures var d := Exec(t, Start(now), Flood(n)); Flooded(t, d, n) && forall id | id in Queued(d) :: id <= n
  {
    var ops := Flood(n);
    if n == 0 {
      StartInv(t, now);
      assert ops[..0] == [];
      assert Exec(t, Start(now), []) == Start(now);
      AddInv(t, Start(now), READ, 0, 0);
    } else {
      FloodQueues(t, now, n - 1);
      assert ops[..|ops| - 1] == Flood(n - 1);
      AddInv(t, Exec(t, Start(now), Flood(n - 1)), WRITE, n, 0);
      hide Place, Inv, Ids;
    }
  }

  /**
    With writes_starved 0 no bound holds: for every n there is a run after which n dispatches in a row take a write
    past a waiting read. So a bound on that, for all runs, exists exactly when writes_starved is at least 1.
   */
  lemma ReadsCanStarve(t: Tunables, now: nat, n: nat) returns (past: seq<Op>, ops: seq<Op>)
    requires t.Valid() && t.writesStarved == 0
    ensures Starves(t, Exec(t, Start(now), past), ops, WRITE) && Issues(ops) == n
  {
    past, ops := Flood(n), Repeated(n);
    FloodQueues(t, now, n);
    WritesGoOn(t, Exec(t, Start(now), past), 0, n);
  }

  /** A direction whose fifo is not empty has requests in its tree, so neither BUG_ON fires. */
  lemma TreeNotEmpty(t: Tunables, d: Data, dir: nat)
    requires Inv(t, d) && dir < 2
    ensures d.fifo[dir] == [] <==> d.sort[dir] == []
  {
    EmptyLane(d.sort[dir], d.fifo[dir]);
    EmptyLane(d.fifo[dir], d.sort[dir]);
  }

  // ---- struct deadline_data, updated in place ----

  class DeadlineData {
    const tunables: Tunables
    var sortList: seq<seq<Entry>>
    var fifoList: seq<seq<Entry>>
    var nextRq: seq<Option<nat>>
    var batching: nat
    var starved: nat
    var jiffies: nat
    var dispatchQueue: seq<nat>

    ghost function State(): Data
      reads this
    {
      Data(sortList, fifoList, nextRq, batching, starved, jiffies, dispatchQueue)
    }

    ghost predicate Valid()
      reads this
    {
      Inv(tunables, State())
    }

    constructor (tunables: Tunables, jiffies: nat)
      requires tunables.Valid()
      ensures Valid() && State() == Start(jiffies) && this.tunables == tunables
    {
      StartInv(tunables, jiffies);
      this.tunables, this.jiffies := tunables, jiffies;
      sortList, fifoList, nextRq := [[], []], [[], []], [None, None];
      batching, starved, dispatchQueue := 0, 0, [];
    }

    method AddRequest(dir: nat, id: nat, pos: nat)
      requires Valid() && dir < 2 && id !in Queued(State())
      modifies this
      ensures Valid() && State() == Added(tunables, old(State()), dir, id, pos)
    {
      AddInv(tunables, State(), dir, id, pos);
      sortList := sortList[dir := Place(sortList[dir], Entry(id, pos))];
      fifoList := fifoList[dir := fifoList[dir] + [Entry(id, jiffies + tunables.expire[dir])]];
    }

    method RemoveRequest(dir: nat, id: nat)
      requires State().Shaped() && dir < 2
      modifies this
      ensures State() == Removed(old(State()), dir, id)
    {
      fifoList := fifoList[dir := Remove(fifoList[dir], id)];
      if nextRq[dir] == Some(id) {
        nextRq := nextRq[dir := Latter(sortList[dir], id)];
      }
      sortList := sortList[dir := Remove(sortList[dir], id)];
    }

    method MergedRequest(dir: nat, id: nat, pos: nat, front: bool)
      requires Valid() && dir < 2 && id in Ids(sortList[dir])
      modifies this
      ensures Valid() && State() == if front then FrontMerged(old(State()), dir, id, pos) else old(State())
    {
      if front {
        FrontMergedInv(tunables, State(), dir, id, pos);
        sortList := sortList[dir := Remove(sortList[dir], id)];
        sortList := sortList[dir := Place(sortList[dir], Entry(id, pos))];
      }
    }

    method MergedRequests(dir: nat, id: nat, next: nat)
      requires Valid() && dir < 2 && id in Ids(sortList[dir]) && next in Ids(sortList[dir]) && id != next
      modifies this
      ensures Valid() && State() == Merged(old(State()), dir, id, next)
    {
      MergedRequestsInv(tunables, State(), dir, id, next);
      if id in Ids(fifoList[dir]) && next in Ids(fifoList[dir]) {
        var expires := Key(fifoList[dir], next);
        if expires < Key(fifoList[dir], id) {
          fifoList := fifoList[dir := InsertAfter(Remove(fifoList[dir], id), next, Entry(id, expires))];
        }
      }
      RemoveRequest(dir, next);
    }

    method MoveRequest(dir: nat, id: nat)
      requires State().Shaped() && dir < 2
      modifies this
      ensures State() == Moved(old(State()), dir, id)
    {
      nextRq := [None, None];
      nextRq := nextRq[dir := Latter(sortList[dir], id)];
      RemoveRequest(dir, id);
      dispatchQueue := dispatchQueue + [id];
    }

    method CheckFifo(dir: nat) returns (expired: bool)
      requires Valid() && dir < 2 && fifoList[dir] != []
      ensures expired <==> exists i :: 0 <= i < |fifoList[dir]| && jiffies > fifoList[dir][i].key
    {
      HeadDecides(tunables, State(), dir);
      expired := jiffies > fifoList[dir][0].key;
    }

    /** The direction and the request to dispatch, with the counters updated. */
    method SelectRequest() returns (found: bool, dir: nat, rq: nat)
      requires Valid()
      modifies `batching, `starved
      ensures found <==> Choose(tunables, old(State())).Pick?
      ensures found ==> Choose(tunables, old(State())) == Pick(dir, rq, batching, starved)
      ensures !found ==> State() == old(State())
    {
      assert State().Shaped();
      hide Inv;
      var anyReads, anyWrites := fifoList[READ] != [], fifoList[WRITE] != [];
      dir, rq := if nextRq[WRITE].Some? then WRITE else READ, 0;
      if nextRq[dir].Some? && batching < tunables.fifoBatch {
        rq := nextRq[dir].value;
      } else {
        if !anyReads && !anyWrites { return false, 0, 0; }
        dir := READ;
        if anyReads && anyWrites {
          var starvedBefore := starved;
          starved := starved + 1;
          if starvedBefore >= tunables.writesStarved { dir := WRITE; }
        } else if anyWrites {
          dir := WRITE;
        }
        if dir == WRITE { starved := 0; }
        if jiffies > fifoList[dir][0].key || nextRq[dir].None? {
          rq := fifoList[dir][0].id;
        } else {
          rq := nextRq[dir].value;
        }
        batching := 0;
      }
      batching := batching + 1;
      return true, dir, rq;
    }

    /** One request moves from both indexes to the tail of the dispatch queue, if there is any. */
    method DispatchRequests() returns (done: bool)
      requires Valid()
      modifies this
      ensures Valid() && State() == Dispatch(tunables, old(State()))
      ensures done <==> old(Queued(State())) != {}
      ensures done ==> exists id ::
              id in old(Queued(State())) && Queued(State()) == old(Queued(State())) - {id}
                  && dispatchQueue == old(dispatchQueue) + [id]
    {
      hide Choose, Queued;
      DispatchInv(tunables, State());
      ChooseOk(tunables, State());
      var dir, rq;
      done, dir, rq := SelectRequest();
      if done { MoveRequest(dir, rq); }
    }
  }
}
