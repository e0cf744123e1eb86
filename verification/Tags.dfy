/** The tag allocator of block/blk-tag.c: a bitmap and an index array, with a reservation for sync requests. */
module Tags {

  import opened Basics

  /** max_depth, tag_map, tag_index, and for the tagged requests the tag they carry and whether they are sync. */
  datatype Map = Map(maxDepth: nat, bits: seq<bool>, index: seq<Option<nat>>, tag: map<nat, nat>, sync: map<nat, bool>)

  /**
    Bit t is set exactly when entry t holds a request, and that request carries tag t; every tagged request is held.
   */
  ghost predicate Inv(m: Map) {
    && |m.bits| == |m.index| && m.maxDepth <= |m.bits| && m.tag.Keys == m.sync.Keys
    && (forall t | 0 <= t < |m.bits| :: m.bits[t] <==> m.index[t].Some?)
    && (forall t | 0 <= t < |m.index| && m.index[t].Some? :: m.index[t].value in m.tag && m.tag[m.index[t].value] == t)
    && (forall rq | rq in m.tag :: m.tag[rq] < |m.index| && m.index[m.tag[rq]] == Some(rq))
  }

  /** No two tagged requests share a tag. */
  lemma TagsDistinct(m: Map, a: nat, b: nat)
    requires Inv(m) && a in m.tag && b in m.tag && m.tag[a] == m.tag[b]
    ensures a == b
  {
    assert m.index[m.tag[a]] == Some(a) && m.index[m.tag[b]] == Some(b);
  }

  // ---- starting and ending a tag ----

  /** How many tags an async request may choose from. */
  function AsyncLimit(depth: nat): nat { if depth <= 1 then depth else if depth == 2 then 1 else depth - 2 }

  function Limit(depth: nat, sync: bool): nat { if sync then depth else AsyncLimit(depth) }

  /** The bitmap search below `limit`, from `from` on. */
  function FirstZero(bits: seq<bool>, from: nat, limit: nat): (t: nat)
    requires from <= limit <= |bits|
    ensures from <= t <= limit && (t < limit ==> !bits[t]) && forall u | from <= u < t :: bits[u]
    decreases limit - from
  {
    if from == limit || !bits[from] then from else FirstZero(bits, from + 1, limit)
  }

  /** blk_queue_start_tag refuses when too much async work is in flight or no permitted tag is free. */
  predicate Refuses(m: Map, sync: bool, inFlight: nat)
    requires m.maxDepth <= |m.bits|
  {
    var limit := Limit(m.maxDepth, sync);
    (!sync && m.maxDepth > 1 && inFlight > limit) || FirstZero(m.bits, 0, limit) == limit
  }

  function Start(m: Map, rq: nat, sync: bool, inFlight: nat): Map
    requires m.maxDepth <= |m.bits| == |m.index|
  {
    if Refuses(m, sync, inFlight) then m else
      var t := FirstZero(m.bits, 0, Limit(m.maxDepth, sync));
      m.(bits := m.bits[t := true], index := m.index[t := Some(rq)], tag := m.tag[rq := t], sync := m.sync[rq := sync])
  }

  /** blk_queue_end_tag */
  function End(m: Map, rq: nat): Map
    requires rq in m.tag && m.tag[rq] < |m.bits| == |m.index|
  {
    var t := m.tag[rq];
    m.(bits := m.bits[t := false], index := m.index[t := None], tag := m.tag - {rq}, sync := m.sync - {rq})
  }

  lemma StartInv(m: Map, rq: nat, sync: bool, inFlight: nat)
    requires Inv(m) && rq !in m.tag
    ensures Inv(Start(m, rq, sync, inFlight))
    ensures !Refuses(m, sync, inFlight) ==>
              var m' := Start(m, rq, sync, inFlight);
              && rq in m'.tag && m'.tag == m.tag[rq := m'.tag[rq]]
              && (forall other | other in m.tag :: m.tag[other] != m'.tag[rq])
              && m'.tag[rq] < Limit(m.maxDepth, sync)
  {
  }

  /** A refusal for want of a tag means that every tag the request may take is taken. */
  lemma RefusalMeansFull(m: Map, sync: bool, inFlight: nat)
    requires Inv(m) && Refuses(m, sync, inFlight)
    requires sync || m.maxDepth <= 1 || inFlight <= Limit(m.maxDepth, sync)
    ensures forall t | 0 <= t < Limit(m.maxDepth, sync) ::
            m.index[t].Some? && m.index[t].value in m.tag && m.tag[m.index[t].value] == t
  {
    assert forall t | 0 <= t < Limit(m.maxDepth, sync) :: m.bits[t];
  }

  lemma EndInv(m: Map, rq: nat)
    requires Inv(m) && rq in m.tag
    ensures m.bits[m.tag[rq]] && m.index[m.tag[rq]] == Some(rq)
    ensures Inv(End(m, rq)) && End(m, rq).tag == m.tag - {rq}
  {
    var m', t := End(m, rq), m.tag[rq];
    forall other | other in m'.tag ensures m'.tag[other] < |m'.index| && m'.index[m'.tag[other]] == Some(other) {
      if m.tag[other] == t { TagsDistinct(m, other, rq); }
    }
  }

  /** Ending a tag undoes starting it. */
  lemma EndUndoesStart(m: Map, rq: nat, sync: bool, inFlight: nat)
    requires Inv(m) && rq !in m.tag && !Refuses(m, sync, inFlight)
    ensures var m' := Start(m, rq, sync, inFlight);
            rq in m'.tag && m'.tag[rq] < |m'.bits| == |m'.index| && End(m', rq) == m
  {
    var m' := Start(m, rq, sync, inFlight);
    var t := m'.tag[rq];
    assert !m.bits[t] && m.index[t] == None;
    assert m'.bits[t := false] == m.bits && m'.index[t := None] == m.index;
    assert m'.tag - {rq} == m.tag && m'.sync - {rq} == m.sync;
  }

  // ---- resizing ----

  datatype Status = Done | Busy | NoMemory

  /** What a call leaves behind; after an overrun memory past the new arrays has been written and nothing is known. */
  datatype Outcome = Resized(status: Status, map_: Map) | Overrun

  /** The depth that init_tag_map settles on. */
  function Settled(depth: nat, nrRequests: nat): nat { if depth > nrRequests * 2 then nrRequests * 2 else depth }

  const BITS_PER_LONG := 32

  /** The words of a bitmap. */
  function Words(bits: nat): nat { (bits + BITS_PER_LONG - 1) / BITS_PER_LONG }

  /** Both copies, of all old index entries and of all old bitmap words, stay inside arrays for `size` tags. */
  predicate CopiesFit(m: Map, size: nat) {
    |m.index| <= size && Words(|m.bits|) <= Words(size)
  }

  /** The old contents at the front of longer arrays. */
  function Grown<T>(was: seq<T>, size: nat, fill: T): (r: seq<T>)
    requires |was| <= size
    ensures |r| == size
  {
    was + seq(size - |was|, _ => fill)
  }

  /** blk_queue_resize_tags */
  function Resize(m: Map, depth: nat, nrRequests: nat, shared: bool, memory: bool): Outcome
    requires |m.bits| == |m.index|
  {
    if depth <= |m.bits| then Resized(Done, m.(maxDepth := depth))
    else if shared then Resized(Busy, m)
    else if !memory then Resized(NoMemory, m)
    else
      var size := Settled(depth, nrRequests);
      if !CopiesFit(m, size) then Overrun
      else Resized(Done, m.(maxDepth := size, bits := Grown(m.bits, size, false), index := Grown(m.index, size, None)))
  }

  /**
    What a caller can see beforehand: the arrays are to be replaced, and the queue allows fewer than half as many
    requests as they hold.
   */
  predicate Overruns(m: Map, depth: nat, nrRequests: nat, shared: bool, memory: bool) {
    depth > |m.bits| && !shared && memory && nrRequests * 2 < |m.bits|
  }

  lemma WordsMonotone(a: nat, b: nat)
    requires a <= b
    ensures Words(a) <= Words(b)
  {
  }

  /**
    The arrays are replaced with both copies inside the new ones, or not at all, exactly when the call does not overrun.
   */
  lemma CopiesInside(m: Map, depth: nat, nrRequests: nat, shared: bool, memory: bool)
    requires Inv(m)
    ensures (depth > |m.bits| && !shared && memory ==> CopiesFit(m, Settled(depth, nrRequests)))
            <==> !Overruns(m, depth, nrRequests, shared, memory)
    ensures Resize(m, depth, nrRequests, shared, memory).Overrun? <==> Overruns(m, depth, nrRequests, shared, memory)
  {
    var size := Settled(depth, nrRequests);
    if |m.bits| <= size { WordsMonotone(|m.bits|, size); }
  }

  /** A resize that does not overrun keeps every tag: the requests, their tags, and every bit and entry there was. */
  lemma ResizeInv(m: Map, depth: nat, nrRequests: nat, shared: bool, memory: bool)
    requires Inv(m) && !Overruns(m, depth, nrRequests, shared, memory)
    ensures Resize(m, depth, nrRequests, shared, memory).Resized?
    ensures var m' := Resize(m, depth, nrRequests, shared, memory).map_;
            && Inv(m') && m'.tag == m.tag && m'.sync == m.sync
            && |m.bits| <= |m'.bits| && m'.bits[..|m.bits|] == m.bits && m'.index[..|m.index|] == m.index
  {
    CopiesInside(m, depth, nrRequests, shared, memory);
    hide Words;
    var m' := Resize(m, depth, nrRequests, shared, memory).map_;
    assert forall t | 0 <= t < |m.bits| :: m'.bits[t] == m.bits[t] && m'.index[t] == m.index[t];
    assert forall t | |m.bits| <= t < |m'.bits| :: !m'.bits[t] && m'.index[t] == None;
  }

  /** In particular nothing can be lost when the queue allows at least half the new depth in requests. */
  lemma ResizeKeepsTags(m: Map, depth: nat, nrRequests: nat, shared: bool, memory: bool)
    requires Inv(m) && nrRequests * 2 >= depth
    ensures !Overruns(m, depth, nrRequests, shared, memory)
    ensures Resize(m, depth, nrRequests, shared, memory).Resized?
            && Inv(Resize(m, depth, nrRequests, shared, memory).map_)
  {
    ResizeInv(m, depth, nrRequests, shared, memory);
  }

  /** An overrun needs no live tag: 64 index entries are copied into the 32 that a queue of 16 requests is given. */
  lemma OverrunExample()
    ensures Inv(Fresh(64)) && Fresh(64).tag == map[]
    ensures Settled(65, 16) == 32 && !CopiesFit(Fresh(64), 32)
    ensures Resize(Fresh(64), 65, 16, false, true) == Overrun
  {
    FreshInv(64);
  }

  // ---- the reservation ----

  /** Async requests hold only tags that async requests may take. */
  ghost predicate Reserved(m: Map) {
    m.tag.Keys == m.sync.Keys && forall rq | rq in m.tag && !m.sync[rq] :: m.tag[rq] < AsyncLimit(m.maxDepth)
  }

  // ---- runs ----

  datatype Op =
    | StartTag(rq: nat, sync: bool, inFlight: nat)
    | EndTag(rq: nat)
    | ResizeTags(depth: nat, nrRequests: nat, shared: bool, memory: bool)

  /** A request is started untagged and ended tagged, and no resize overruns. */
  ghost predicate Enabled(m: Map, op: Op) {
    match op
    case StartTag(rq, _, _) => rq !in m.tag
    case EndTag(rq) => rq in m.tag
    case ResizeTags(depth, nrRequests, shared, memory) => !Overruns(m, depth, nrRequests, shared, memory)
  }

  ghost function Do(m: Map, op: Op): Map {
    if !Inv(m) || !Enabled(m, op) then m else
      match op
      case StartTag(rq, sync, inFlight) => Start(m, rq, sync, inFlight)
      case EndTag(rq) => End(m, rq)
      case ResizeTags(depth, nrRequests, shared, memory) =>
        ResizeInv(m, depth, nrRequests, shared, memory);
        Resize(m, depth, nrRequests, shared, memory).map_
  }

  ghost function Exec(m: Map, ops: seq<Op>): Map {
    if ops == [] then m else Do(Exec(m, ops[..|ops| - 1]), ops[|ops| - 1])
  }

  /** A new map. */
  function Fresh(depth: nat): Map { Map(depth, seq(depth, _ => false), seq(depth, _ => None), map[], map[]) }

  lemma DoInv(m: Map, op: Op)
    requires Inv(m)
    ensures Inv(Do(m, op))
  {
    if Enabled(m, op) {
      match op
      case StartTag(rq, sync, inFlight) => StartInv(m, rq, sync, inFlight);
      case EndTag(rq) => EndInv(m, rq);
      case ResizeTags(depth, nrRequests, shared, memory) => ResizeInv(m, depth, nrRequests, shared, memory);
    }
  }

  /** Bitmap, index and requests agree after every run of starts, ends and resizes. */
  lemma {:induction false} TagsAgree(depth: nat, ops: seq<Op>)
    ensures Inv(Exec(Fresh(depth), ops))
  {
    hide Inv, Do;
    if ops == [] {
      assert Inv(Fresh(depth)) by { FreshInv(depth); }
    } else {
      TagsAgree(depth, ops[..|ops| - 1]);
      DoInv(Exec(Fresh(depth), ops[..|ops| - 1]), ops[|ops| - 1]);
    }
  }

  lemma FreshInv(depth: nat)
    ensures Inv(Fresh(depth)) && Reserved(Fresh(depth))
  {
  }

  // ---- the reservation over runs ----

  /** The depth a resize leads to. */
  function NewDepth(m: Map, depth: nat, nrRequests: nat, shared: bool, memory: bool): nat {
    if depth <= |m.bits| then depth else if shared || !memory then m.maxDepth else Settled(depth, nrRequests)
  }

  /**
    What a caller can see before a step: a resize leaves every async tag in flight below the limit of the new depth.
   */
  ghost predicate KeepsRoom(m: Map, op: Op)
    requires m.tag.Keys == m.sync.Keys
  {
    op.ResizeTags? ==>
      forall rq | rq in m.tag && !m.sync[rq] ::
          m.tag[rq] < AsyncLimit(NewDepth(m, op.depth, op.nrRequests, op.shared, op.memory))
  }

  /**
    A step keeps the reservation if and only if it keeps room for the async tags in flight; starts and ends always do.
   */
  lemma DoReserved(m: Map, op: Op)
    requires Inv(m) && Reserved(m) && Enabled(m, op)
    ensures Reserved(Do(m, op)) <==> KeepsRoom(m, op)
    ensures !op.ResizeTags? ==> Do(m, op).maxDepth == m.maxDepth
    ensures op.ResizeTags? ==> Do(m, op).maxDepth == NewDepth(m, op.depth, op.nrRequests, op.shared, op.memory)
  {
    hide Words, FirstZero;
    match op
    case StartTag(rq, sync, inFlight) => StartInv(m, rq, sync, inFlight);
    case EndTag(rq) => EndInv(m, rq);
    case ResizeTags(depth, nrRequests, shared, memory) => ResizeInv(m, depth, nrRequests, shared, memory);
  }

  /** Every step taken in the run keeps room. */
  ghost predicate AlwaysRoom(m: Map, ops: seq<Op>) {
    forall k | 0 <= k < |ops| :: RoomAt(Exec(m, ops[..k]), ops[k])
  }

  ghost predicate RoomAt(m: Map, op: Op) {
    Inv(m) && Enabled(m, op) ==> KeepsRoom(m, op)
  }

  /** The reservation holds all through a run. */
  ghost predicate AlwaysReserved(m: Map, ops: seq<Op>) {
    forall k | 0 <= k <= |ops| :: Reserved(Exec(m, ops[..k]))
  }

  lemma PrefixOf(ops: seq<Op>, k: nat)
    requires ops != [] && k < |ops|
    ensures ops[..|ops| - 1][..k] == ops[..k] && (k < |ops| - 1 ==> ops[..|ops| - 1][k] == ops[k])
  {
  }

  lemma RoomStep(m: Map, ops: seq<Op>)
    requires ops != []
    ensures var before := ops[..|ops| - 1];
            && (AlwaysRoom(m, ops) <==> AlwaysRoom(m, before) && RoomAt(Exec(m, before), ops[|ops| - 1]))
            && (AlwaysReserved(m, ops) <==> AlwaysReserved(m, before) && Reserved(Exec(m, ops)))
  {
    hide RoomAt, Reserved, Exec;
    var before := ops[..|ops| - 1];
    forall k | 0 <= k < |ops|
      ensures before[..k] == ops[..k] && (k < |before| ==> before[k] == ops[k])
    {
      PrefixOf(ops, k);
    }
    assert ops[..|ops|] == ops && before[..|before|] == before;
    if AlwaysRoom(m, ops) {
      forall k | 0 <= k < |before|
        ensures RoomAt(Exec(m, before[..k]), before[k])
      {
        assert RoomAt(Exec(m, ops[..k]), ops[k]);
      }
      assert RoomAt(Exec(m, ops[..|before|]), ops[|before|]);
    }
    if AlwaysReserved(m, ops) {
      forall k | 0 <= k <= |before| ensures Reserved(Exec(m, before[..k])) { assert Reserved(Exec(m, ops[..k])); }
      assert Reserved(Exec(m, ops[..|ops|]));
    }
  }

  /**
    Over every run: the reservation holds all through it if and only if every resize in it keeps room for the async tags
    in flight.
   */
  lemma {:induction false} ReservedIff(depth: nat, ops: seq<Op>)
    ensures AlwaysReserved(Fresh(depth), ops) <==> AlwaysRoom(Fresh(depth), ops)
  {
    hide AlwaysReserved, AlwaysRoom, Inv, Reserved, KeepsRoom, Enabled;
    if ops == [] {
      NoOps(depth);
    } else {
      var before, op := ops[..|ops| - 1], ops[|ops| - 1];
      ReservedIff(depth, before);
      RoomStep(Fresh(depth), ops);
      TagsAgree(depth, before);
      var m := Exec(Fresh(depth), before);
      if AlwaysReserved(Fresh(depth), before) {
        assert Reserved(m) by { ReservedAtEnd(Fresh(depth), before); }
        if Enabled(m, op) { DoReserved(m, op); }
      }
    }
  }

  lemma NoOps(depth: nat)
    ensures AlwaysReserved(Fresh(depth), []) && AlwaysRoom(Fresh(depth), [])
  {
    FreshInv(depth);
    var ops: seq<Op> := [];
    assert ops[..0] == [];
  }

  lemma ReservedAtEnd(m: Map, ops: seq<Op>)
    requires AlwaysReserved(m, ops)
    ensures Reserved(Exec(m, ops))
  {
    assert ops[..|ops|] == ops;
  }

  lemma LimitMonotone(a: nat, b: nat)
    requires a <= b
    ensures AsyncLimit(a) <= AsyncLimit(b)
  {
  }

  /** No resize in the run lowers max_depth. */
  ghost predicate NeverLowers(m: Map, ops: seq<Op>) {
    forall k | 0 <= k < |ops| && ops[k].ResizeTags? ::
      var at := Exec(m, ops[..k]);
      NewDepth(at, ops[k].depth, ops[k].nrRequests, ops[k].shared, ops[k].memory) >= at.maxDepth
  }

  /**
    So as long as max_depth is never lowered, no async request ever holds one of the top two tags of a depth above 2.
   */
  lemma TopTagsReserved(depth: nat, ops: seq<Op>)
    requires NeverLowers(Fresh(depth), ops)
    ensures var m := Exec(Fresh(depth), ops);
            && Reserved(m)
            && (m.maxDepth > 2 ==> forall rq | rq in m.tag && !m.sync[rq] :: m.tag[rq] < m.maxDepth - 2)
  {
    RoomUnlessLowered(depth, ops);
    ReservedIff(depth, ops);
    ReservedAtEnd(Fresh(depth), ops);
  }

  lemma {:induction false} RoomUnlessLowered(depth: nat, ops: seq<Op>)
    requires NeverLowers(Fresh(depth), ops)
    ensures AlwaysRoom(Fresh(depth), ops)
  {
    if ops == [] {
      NoOps(depth);
    } else {
      var before, op := ops[..|ops| - 1], ops[|ops| - 1];
      forall k | 0 <= k < |before| && before[k].ResizeTags?
        ensures var at := Exec(Fresh(depth), before[..k]);
                NewDepth(at, before[k].depth, before[k].nrRequests, before[k].shared, before[k].memory) >= at.maxDepth
      {
        PrefixOf(ops, k);
        assert ops[k].ResizeTags?;
      }
      RoomUnlessLowered(depth, before);
      ReservedIff(depth, before);
      ReservedAtEnd(Fresh(depth), before);
      RoomStep(Fresh(depth), ops);
      var m := Exec(Fresh(depth), before);
      if op.ResizeTags? {
        assert ops[|before|].ResizeTags?;
        LimitMonotone(m.maxDepth, NewDepth(m, op.depth, op.nrRequests, op.shared, op.memory));
      }
    }
  }

  /** Lowering it can leave an async request on a tag that is now reserved. */
  lemma ShrinkingBreaksTheReservation()
    ensures var ops := [StartTag(1, false, 0), StartTag(2, false, 0), ResizeTags(3, 8, false, true)];
            var m := Exec(Fresh(4), ops);
            m.maxDepth == 3 && 2 in m.tag && 2 in m.sync && !m.sync[2] && m.tag[2] == 1 && !Reserved(m)
  {
    hide Words;
    var ops := [StartTag(1, false, 0), StartTag(2, false, 0), ResizeTags(3, 8, false, true)];
    var m0 := Fresh(4);
    FreshInv(4);
    var m1 := Start(m0, 1, false, 0);
    StartInv(m0, 1, false, 0);
    assert FirstZero(m0.bits, 0, 2) == 0;
    var m2 := Start(m1, 2, false, 0);
    StartInv(m1, 2, false, 0);
    assert FirstZero(m1.bits, 0, 2) == 1;
    assert ops[..2][..1][..0] == [] && ops[..2][..1] == [ops[0]] && ops[..2] == [ops[0], ops[1]];
    assert Exec(m0, ops[..2][..1]) == m1;
    assert Exec(m0, ops[..2]) == m2;
  }

  // ---- struct blk_queue_tag, updated in place ----

  class BlkQueueTag {
    var maxDepth: nat
    var tagMap: array<bool>
    var tagIndex: array<Option<nat>>
    var tag: map<nat, nat>
    var sync: map<nat, bool>

    ghost function State(): Map
      reads this, tagMap, tagIndex
    {
      Map(maxDepth, tagMap[..], tagIndex[..], tag, sync)
    }

    ghost predicate Valid()
      reads this, tagMap, tagIndex
    {
      Inv(State())
    }

    /** init_tag_map for an external map */
    constructor (depth: nat)
      ensures Valid() && State() == Fresh(depth) && fresh(tagMap) && fresh(tagIndex)
    {
      maxDepth, tag, sync := depth, map[], map[];
      tagMap := new bool[depth](_ => false);
      tagIndex := new Option<nat>[depth](_ => None);
      new;
      FreshInv(depth);
      assert tagMap[..] == Fresh(depth).bits && tagIndex[..] == Fresh(depth).index;
    }

    /** The first clear bit below `limit`, or `limit`. */
    method FindFirstZeroBit(limit: nat) returns (t: nat)
      requires limit <= tagMap.Length
      ensures t == FirstZero(tagMap[..], 0, limit)
    {
      t := 0;
      while t < limit && tagMap[t]
        invariant t <= limit && FirstZero(tagMap[..], 0, limit) == FirstZero(tagMap[..], t, limit)
      {
        t := t + 1;
      }
    }

    /** The tag that blk_queue_start_tag may take. */
    method SearchTag(isSync: bool, inFlightAsync: nat) returns (found: bool, t: nat)
      requires Valid()
      ensures found == !Refuses(State(), isSync, inFlightAsync)
      ensures found ==> t == FirstZero(tagMap[..], 0, Limit(maxDepth, isSync)) < Limit(maxDepth, isSync)
    {
      LimitInside(State(), isSync);
      hide Inv;
      var depth := maxDepth;
      if !isSync && depth > 1 {
        depth := depth - 2;
        if depth == 0 { depth := 1; }
        if inFlightAsync > depth { return false, 0; }
      }
      t := FindFirstZeroBit(depth);
      found := t < depth;
    }

    /** blk_queue_start_tag: true is the source's 0 */
    method StartTag(rq: nat, isSync: bool, inFlightAsync: nat) returns (started: bool)
      requires Valid() && rq !in tag
      modifies this, tagMap, tagIndex
      ensures Valid() && State() == Start(old(State()), rq, isSync, inFlightAsync)
      ensures started == !Refuses(old(State()), isSync, inFlightAsync)
      ensures tagMap == old(tagMap) && tagIndex == old(tagIndex)
    {
      StartInv(State(), rq, isSync, inFlightAsync);
      LimitInside(State(), isSync);
      SameSize(State());
      ghost var m := State();
      var t;
      started, t := SearchTag(isSync, inFlightAsync);
      hide Inv, FirstZero, Limit, Refuses;
      if started {
        tagMap[t] := true;
        tag, sync := tag[rq := t], sync[rq := isSync];
        tagIndex[t] := Some(rq);
        assert tagMap[..] == m.bits[t := true] && tagIndex[..] == m.index[t := Some(rq)];
      }
    }

    /** blk_queue_end_tag; neither the missing-tag nor the non-busy branch is ever taken. */
    method EndTag(rq: nat)
      requires Valid() && rq in tag
      modifies this, tagMap, tagIndex
      ensures Valid() && State() == End(old(State()), rq)
      ensures tagMap == old(tagMap) && tagIndex == old(tagIndex)
    {
      EndInv(State(), rq);
      ghost var m := State();
      var t := tag[rq];
      assert t < tagMap.Length;
      tag, sync := tag - {rq}, sync - {rq};
      tagIndex[t] := None;
      tagMap[t] := false;
      assert tagMap[..] == m.bits[t := false] && tagIndex[..] == m.index[t := None];
    }

    /**
      blk_queue_resize_tags. The source copies the old arrays without looking at the size of the new ones; where that
      runs past them the model stops and says so.
     */
    method ResizeTags(depth: nat, nrRequests: nat, shared: bool, memory: bool) returns (overrun: bool, status: Status)
      requires Valid()
      modifies this
      ensures overrun <==> old(Overruns(State(), depth, nrRequests, shared, memory))
      ensures !overrun ==>
                && Valid()
                && Resized(status, State()) == Resize(old(State()), depth, nrRequests, shared, memory)
      ensures tag == old(tag) && sync == old(sync)
    {
      ghost var m := State();
      CopiesInside(m, depth, nrRequests, shared, memory);
      SameSize(m);
      if !Overruns(m, depth, nrRequests, shared, memory) { ResizeInv(m, depth, nrRequests, shared, memory); }
      hide Inv, Words;
      if depth <= tagMap.Length {
        maxDepth := depth;
        return false, Done;
      }
      if shared { return false, Busy; }
      if !memory { return false, NoMemory; }
      var size := Settled(depth, nrRequests);
      if size < tagIndex.Length { return true, Done; }
      ReplaceArrays(size);
      return false, Done;
    }

    /** The new arrays with the old contents at their front. */
    method ReplaceArrays(size: nat)
      requires tagMap.Length == tagIndex.Length <= size
      modifies this
      ensures State() == old(State()).(maxDepth := size, bits := Grown(old(tagMap[..]), size, false),
              index := Grown(old(tagIndex[..]), size, None))
      ensures fresh(tagMap) && fresh(tagIndex)
    {
      var newIndex := new Option<nat>[size](_ => None);
      var newMap := new bool[size](_ => false);
      forall t | 0 <= t < tagMap.Length { newMap[t] := tagMap[t]; }
      forall t | 0 <= t < tagIndex.Length { newIndex[t] := tagIndex[t]; }
      assert newMap[..] == Grown(tagMap[..], size, false) && newIndex[..] == Grown(tagIndex[..], size, None);
      maxDepth, tagMap, tagIndex := size, newMap, newIndex;
    }
  }

  lemma LimitInside(m: Map, sync: bool)
    requires Inv(m)
    ensures Limit(m.maxDepth, sync) <= |m.bits|
  {
  }

  lemma SameSize(m: Map)
    requires Inv(m)
    ensures |m.bits| == |m.index| && m.maxDepth <= |m.bits|
  {
  }
}
