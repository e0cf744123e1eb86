/**
  The queueing half of block/blk-throttle.c: groups of throttled bios on a service tree ordered
  by dispatch time, the dispatch round, and bio submission.

  The rb-tree is represented by its in-order sequence of groups.  Groups are named by their
  index.  Jiffies stand still while the queue lock is held.
 */
module ThrottleQueue {
  import opened Basics
  import opened Throttle

  const GRP_QUANTUM: nat := 8
  const QUANTUM: nat := 32
  const MAX_NR_READS: nat := GRP_QUANTUM * 3 / 4
  const MAX_NR_WRITES: nat := GRP_QUANTUM - MAX_NR_READS

  datatype Bio = Bio(id: nat, size: nat, write: bool)

  /** One direction of a group. */
  datatype Dir = Dir(limits: Limits, slice: Slice, queue: seq<Bio>, nrQueued: nat)

  datatype Group = Group(read: Dir, write: Dir, disptime: nat, onTree: bool) {
    function Get(rw: bool): Dir { if rw then write else read }

    function Set(rw: bool, d: Dir): Group { if rw then this.(write := d) else this.(read := d) }

    predicate Busy() { read.queue != [] || write.queue != [] }
  }

  /** The limits of all groups, which nothing here changes. */
  ghost function LimitsOf(groups: seq<Group>): seq<(Limits, Limits)> {
    seq(|groups|, g requires 0 <= g < |groups| => (groups[g].read.limits, groups[g].write.limits))
  }

  lemma LimitsCount(a: seq<Group>, b: seq<Group>)
    requires LimitsOf(b) == LimitsOf(a)
    ensures |b| == |a|
  {
    assert |LimitsOf(b)| == |b|;
  }

  lemma LimitsSame(a: seq<Group>, b: seq<Group>, g: nat)
    requires g < |a| == |b| && (forall h | 0 <= h < |a| && h != g :: b[h] == a[h])
    requires b[g].read.limits == a[g].read.limits && b[g].write.limits == a[g].write.limits
    ensures LimitsOf(b) == LimitsOf(a)
  {
  }

  /** A bio arriving at or leaving a group. */
  datatype Move = Move(group: nat, bio: Bio)

  /** The bios of one group and direction in a log, in order. */
  ghost function Of(log: seq<Move>, g: nat, rw: bool): seq<Bio> {
    if log == [] then [] else
      var rest := Of(log[..|log| - 1], g, rw);
      var m := log[|log| - 1];
      if m.group == g && m.bio.write == rw then rest + [m.bio] else rest
  }

  lemma OfAppend(log: seq<Move>, m: Move, g: nat, rw: bool)
    ensures Of(log + [m], g, rw)
         == if m.group == g && m.bio.write == rw then Of(log, g, rw) + [m.bio] else Of(log, g, rw)
  {
    assert (log + [m])[..|log|] == log;
  }

  // ---- counts ----

  ghost function TotalQueued(groups: seq<Group>, rw: bool): nat {
    if groups == [] then 0 else TotalQueued(groups[..|groups| - 1], rw) + |groups[|groups| - 1].Get(rw).queue|
  }

  lemma {:induction false} TotalQueuedUpdate(groups: seq<Group>, g: nat, grp: Group, rw: bool)
    requires g < |groups|
    ensures TotalQueued(groups[g := grp], rw) + |groups[g].Get(rw).queue|
            == TotalQueued(groups, rw) + |grp.Get(rw).queue|
  {
    var n := |groups| - 1;
    if g == n {
      assert groups[g := grp][..n] == groups[..n];
    } else {
      assert groups[g := grp][..n] == groups[..n][g := grp];
      TotalQueuedUpdate(groups[..n], g, grp, rw);
    }
  }

  lemma {:induction false} TotalQueuedAtLeast(groups: seq<Group>, g: nat, rw: bool)
    requires g < |groups|
    ensures |groups[g].Get(rw).queue| <= TotalQueued(groups, rw)
  {
    if g < |groups| - 1 {
      TotalQueuedAtLeast(groups[..|groups| - 1], g, rw);
    }
  }

  /** If anything is queued, some group has it. */
  lemma {:induction false} SomeoneQueued(groups: seq<Group>, rw: bool) returns (g: nat)
    requires TotalQueued(groups, rw) > 0
    ensures g < |groups| && groups[g].Get(rw).queue != []
  {
    var n := |groups| - 1;
    if groups[n].Get(rw).queue != [] {
      g := n;
    } else {
      g := SomeoneQueued(groups[..n], rw);
    }
  }

  // ---- invariants ----

  datatype Accounts = Accounts(read: Account, write: Account) {
    function Get(rw: bool): Account { if rw then write else read }

    function Set(rw: bool, a: Account): Accounts { if rw then this.(write := a) else this.(read := a) }
  }

  ghost predicate DirOk(d: Dir, a: Account, rw: bool, now: nat) {
    && d.limits.Valid() && d.nrQueued == |d.queue|
    && (forall b | b in d.queue :: b.write == rw)
    && (!d.limits.NoRule() ==> RateInv(d.limits, d.slice, a, now))
  }

  ghost predicate GroupOk(grp: Group, acc: Accounts, now: nat) {
    DirOk(grp.read, acc.read, false, now) && DirOk(grp.write, acc.write, true, now)
  }

  ghost predicate GroupsOk(groups: seq<Group>, accounts: seq<Accounts>, now: nat) {
    |accounts| == |groups| && forall g | 0 <= g < |groups| :: GroupOk(groups[g], accounts[g], now)
  }

  /** The tree holds each of its groups once, ordered by dispatch time. */
  ghost predicate Sorted(tree: seq<nat>, groups: seq<Group>) {
    && (forall i | 0 <= i < |tree| :: tree[i] < |groups|)
    && (forall i, j | 0 <= i < j < |tree| :: tree[i] != tree[j])
    && (forall i, j | 0 <= i < j < |tree| :: groups[tree[i]].disptime <= groups[tree[j]].disptime)
  }

  /** A group is on the tree exactly when it has queued bios; `served` is a group being worked on, off the tree. */
  ghost predicate TreeOk(tree: seq<nat>, groups: seq<Group>, served: set<nat>) {
    && Sorted(tree, groups)
    && (forall g | 0 <= g < |groups| :: groups[g].onTree <==> g in tree)
    && (forall g | 0 <= g < |groups| :: groups[g].onTree <==> (groups[g].Busy() && g !in served))
  }

  /** Everything that arrived has left, in order, or is still queued, in order. */
  ghost predicate FlowOk(arrived: seq<Move>, gone: seq<Move>, groups: seq<Group>) {
    forall g, rw | 0 <= g < |groups| :: Of(arrived, g, rw) == Of(gone, g, rw) + groups[g].Get(rw).queue
  }

  ghost function Bytes(bios: seq<Bio>): nat {
    if bios == [] then 0 else Bytes(bios[..|bios| - 1]) + bios[|bios| - 1].size
  }

  lemma BytesAppend(bios: seq<Bio>, bio: Bio)
    ensures Bytes(bios + [bio]) == Bytes(bios) + bio.size
  {
    assert (bios + [bio])[..|bios|] == bios;
  }

  /** The account of a direction is the bytes and the number of the bios that left it since `since`. */
  ghost predicate LedgerOk(accounts: seq<Accounts>, gone: seq<Move>, since: nat) {
    forall g, rw | 0 <= g < |accounts| ::
        accounts[g].Get(rw) == Account(since, Bytes(Of(gone, g, rw)), |Of(gone, g, rw)|)
  }

  lemma LedgerCharge(accounts: seq<Accounts>, gone: seq<Move>, since: nat, g: nat, bio: Bio)
    requires LedgerOk(accounts, gone, since) && g < |accounts|
    ensures LedgerOk(accounts[g := accounts[g].Set(bio.write, ChargeAccount(accounts[g].Get(bio.write), bio.size))],
                     gone + [Move(g, bio)], since)
  {
    var acc := accounts[g].Set(bio.write, ChargeAccount(accounts[g].Get(bio.write), bio.size));
    forall h, rw | 0 <= h < |accounts|
      ensures var t := Of(gone + [Move(g, bio)], h, rw);
              accounts[g := acc][h].Get(rw) == Account(since, Bytes(t), |t|)
    {
      OfAppend(gone, Move(g, bio), h, rw);
      BytesAppend(Of(gone, h, rw), bio);
      assert accounts[h].Get(rw) == Account(since, Bytes(Of(gone, h, rw)), |Of(gone, h, rw)|);
    }
  }

  lemma GroupsOkLater(groups: seq<Group>, accounts: seq<Accounts>, now: nat, later: nat)
    requires GroupsOk(groups, accounts, now) && now <= later
    ensures GroupsOk(groups, accounts, later)
  {
    forall g | 0 <= g < |groups|
      ensures GroupOk(groups[g], accounts[g], later)
    {
      var r, w := groups[g].read, groups[g].write;
      if !r.limits.NoRule() { RateInvLater(r.limits, r.slice, accounts[g].read, now, later); }
      if !w.limits.NoRule() { RateInvLater(w.limits, w.slice, accounts[g].write, now, later); }
    }
  }

  // ---- steps on values ----

  /** tg_may_dispatch on the head of a queue or on a new bio. */
  function Probe(grp: Group, rw: bool, now: nat, size: nat): (Group, Verdict)
    requires grp.Get(rw).limits.Valid()
  {
    var d := grp.Get(rw);
    var (s, v) := MayDispatch(d.limits, d.slice, now, size);
    (grp.Set(rw, d.(slice := s)), v)
  }

  /** Charge a bio and trim. */
  function Pay(grp: Group, rw: bool, now: nat, size: nat): Group
    requires grp.Get(rw).limits.Valid()
  {
    var d := grp.Get(rw);
    grp.Set(rw, d.(slice := TrimSlice(d.limits, Charge(d.slice, size), now)))
  }

  function Pop(grp: Group, rw: bool): Group
    requires grp.Get(rw).queue != [] && grp.Get(rw).nrQueued > 0
  {
    var d := grp.Get(rw);
    grp.Set(rw, d.(queue := d.queue[1..], nrQueued := d.nrQueued - 1))
  }

  function Push(grp: Group, bio: Bio): Group {
    var d := grp.Get(bio.write);
    grp.Set(bio.write, d.(queue := d.queue + [bio], nrQueued := d.nrQueued + 1))
  }

  /** tg_service_tree_add: in order, a group goes after every group that is not later. */
  function Insert(tree: seq<nat>, g: nat, groups: seq<Group>): seq<nat>
    requires (forall i | 0 <= i < |tree| :: tree[i] < |groups|) && g < |groups|
  {
    if tree == [] || groups[g].disptime < groups[tree[0]].disptime then [g] + tree
    else [tree[0]] + Insert(tree[1..], g, groups)
  }

  lemma {:induction false} InsertSorted(tree: seq<nat>, g: nat, groups: seq<Group>)
    requires Sorted(tree, groups) && g < |groups| && g !in tree
    ensures Sorted(Insert(tree, g, groups), groups)
    ensures forall h: nat :: h in Insert(tree, g, groups) <==> h == g || h in tree
  {
    if tree == [] {
    } else if groups[g].disptime < groups[tree[0]].disptime {
      PrependSorted(g, tree, groups);
    } else {
      var rest := tree[1..];
      assert tree == [tree[0]] + rest && Sorted(rest, groups);
      InsertSorted(rest, g, groups);
      PrependSorted(tree[0], Insert(rest, g, groups), groups);
    }
  }

  lemma PrependSorted(h: nat, tree: seq<nat>, groups: seq<Group>)
    requires Sorted(tree, groups) && h < |groups| && h !in tree
    requires forall g | g in tree && g < |groups| :: groups[h].disptime <= groups[g].disptime
    ensures Sorted([h] + tree, groups)
  {
    var t := [h] + tree;
    assert forall i | 0 < i < |t| :: t[i] == tree[i - 1] && tree[i - 1] in tree;
  }

  /** throtl_rb_erase */
  function Remove(tree: seq<nat>, g: nat): seq<nat> {
    if tree == [] then [] else if tree[0] == g then tree[1..] else [tree[0]] + Remove(tree[1..], g)
  }

  lemma {:induction false} RemoveSorted(tree: seq<nat>, g: nat, groups: seq<Group>)
    requires Sorted(tree, groups)
    ensures Sorted(Remove(tree, g), groups)
    ensures forall h: nat :: h in Remove(tree, g) <==> h in tree && h != g
  {
    if tree != [] {
      var rest := tree[1..];
      assert Sorted(rest, groups);
      RemoveSorted(rest, g, groups);
      assert tree == [tree[0]] + rest;
      if tree[0] == g {
        assert g !in rest;
      } else {
        PrependSorted(tree[0], Remove(rest, g), groups);
      }
    }
  }

  /** Whatever does not touch dispatch times keeps the order of the tree. */
  lemma SortedSame(tree: seq<nat>, groups: seq<Group>, g: nat, grp: Group)
    requires Sorted(tree, groups) && g < |groups| && (g in tree ==> grp.disptime == groups[g].disptime)
    ensures Sorted(tree, groups[g := grp])
  {
    forall i, j | 0 <= i < j < |tree|
      ensures groups[g := grp][tree[i]].disptime <= groups[g := grp][tree[j]].disptime
    {
      assert tree[i] in tree && tree[j] in tree;
    }
  }

  // ---- steps keep the invariants of a group ----

  lemma ProbeOk(grp: Group, acc: Accounts, rw: bool, now: nat, size: nat)
    requires GroupOk(grp, acc, now)
    ensures GroupOk(Probe(grp, rw, now, size).0, acc, now)
    ensures Probe(Probe(grp, rw, now, size).0, rw, now, size) == Probe(grp, rw, now, size)
  {
    hide RateInv, MayDispatch;
    var d := grp.Get(rw);
    if !d.limits.NoRule() {
      RefusalKeepsRate(d.limits, d.slice, acc.Get(rw), now, size);
    } else {
      NoRulePasses(d.limits, d.slice, now, size);
    }
    MayDispatchAgain(d.limits, d.slice, now, size);
  }

  lemma NoRulePasses(lim: Limits, s: Slice, now: nat, size: nat)
    requires lim.Valid() && lim.NoRule()
    ensures MayDispatch(lim, s, now, size) == (s, Pass)
  {
  }

  /** A bio that has just been let through may be charged. */
  lemma PayOk(grp: Group, acc: Accounts, rw: bool, now: nat, size: nat)
    requires GroupOk(grp, acc, now) && Probe(grp, rw, now, size) == (grp, Pass)
    ensures GroupOk(Pay(grp, rw, now, size), acc.Set(rw, ChargeAccount(acc.Get(rw), size)), now)
  {
    hide RateInv, MayDispatch, TrimSlice;
    var d := grp.Get(rw);
    if !d.limits.NoRule() {
      DispatchKeepsRate(d.limits, d.slice, acc.Get(rw), now, size);
    }
  }

  /** The head of this direction, if any, is refused at `now`. */
  ghost predicate Blocked(grp: Group, rw: bool, now: nat)
    requires grp.Get(rw).limits.Valid()
  {
    grp.Get(rw).queue != [] ==> Probe(grp, rw, now, grp.Get(rw).queue[0].size).1.Wait?
  }

  /** Replacing one group. */
  lemma ReplaceGroup(groups: seq<Group>, accounts: seq<Accounts>, tree: seq<nat>, served: set<nat>, g: nat, grp: Group,
                     acc: Accounts, now: nat)
    requires GroupsOk(groups, accounts, now) && TreeOk(tree, groups, served) && g < |groups|
    requires GroupOk(grp, acc, now) && grp.disptime == groups[g].disptime && grp.onTree == groups[g].onTree
    requires grp.Busy() == groups[g].Busy() || g in served
    ensures GroupsOk(groups[g := grp], accounts[g := acc], now) && TreeOk(tree, groups[g := grp], served)
  {
    hide GroupOk, Sorted;
    SortedSame(tree, groups, g, grp);
  }

  /** Taking the head of a queue moves it to the end of the log of departures. */
  lemma PopFlow(arrived: seq<Move>, gone: seq<Move>, groups: seq<Group>, g: nat, grp: Group, rw: bool)
    requires FlowOk(arrived, gone, groups) && g < |groups| && groups[g].Get(rw).queue != []
    requires groups[g].Get(rw).queue[0].write == rw
    requires grp.Get(rw).queue == groups[g].Get(rw).queue[1..] && grp.Get(!rw).queue == groups[g].Get(!rw).queue
    ensures FlowOk(arrived, gone + [Move(g, groups[g].Get(rw).queue[0])], groups[g := grp])
  {
    hide Of;
    var m := Move(g, groups[g].Get(rw).queue[0]);
    forall h, d | 0 <= h < |groups|
      ensures Of(arrived, h, d) == Of(gone + [m], h, d) + groups[g := grp][h].Get(d).queue
    {
      OfAppend(gone, m, h, d);
      assert Of(arrived, h, d) == Of(gone, h, d) + groups[h].Get(d).queue;
    }
  }

  // ---- the whole state ----

  /** A snapshot of the throttle data with the accounts and logs kept for the specification. */
  datatype Book = Book(groups: seq<Group>, tree: seq<nat>, nrReads: nat, nrWrites: nat,
                       since: nat, accounts: seq<Accounts>, arrived: seq<Move>, gone: seq<Move>)

  ghost predicate Inv(b: Book, now: nat, served: set<nat>) {
    && GroupsOk(b.groups, b.accounts, now)
    && TreeOk(b.tree, b.groups, served)
    && FlowOk(b.arrived, b.gone, b.groups)
    && LedgerOk(b.accounts, b.gone, b.since)
    && b.nrReads == TotalQueued(b.groups, false) && b.nrWrites == TotalQueued(b.groups, true)
  }

  lemma InvLater(b: Book, now: nat, later: nat, served: set<nat>)
    requires Inv(b, now, served) && now <= later
    ensures Inv(b, later, served)
  {
    GroupsOkLater(b.groups, b.accounts, now, later);
  }

  /** A book in which one group probed a bio. */
  function Probed(b: Book, g: nat, rw: bool, now: nat, size: nat): Book
    requires g < |b.groups| && b.groups[g].Get(rw).limits.Valid()
  {
    b.(groups := b.groups[g := Probe(b.groups[g], rw, now, size).0])
  }

  lemma ProbedInv(b: Book, g: nat, rw: bool, now: nat, size: nat, served: set<nat>)
    requires Inv(b, now, served) && g < |b.groups|
    ensures b.groups[g].Get(rw).limits.Valid() && Inv(Probed(b, g, rw, now, size), now, served)
    ensures Probe(Probe(b.groups[g], rw, now, size).0, rw, now, size) == Probe(b.groups[g], rw, now, size)
  {
    hide RateInv, Sorted, MayDispatch, Of;
    ProbeOk(b.groups[g], b.accounts[g], rw, now, size);
    var grp := Probe(b.groups[g], rw, now, size).0;
    ReplaceGroup(b.groups, b.accounts, b.tree, served, g, grp, b.accounts[g], now);
    TotalQueuedUpdate(b.groups, g, grp, false);
    TotalQueuedUpdate(b.groups, g, grp, true);
    assert b.accounts[g := b.accounts[g]] == b.accounts;
  }

  /** A book in which the head of a queue was let through. */
  ghost function Served(b: Book, g: nat, rw: bool, now: nat): Book
    requires g < |b.groups| == |b.accounts| && b.groups[g].Get(rw).limits.Valid()
    requires b.groups[g].Get(rw).queue != [] && b.groups[g].Get(rw).nrQueued > 0
    requires rw ==> b.nrWrites > 0
    requires !rw ==> b.nrReads > 0
  {
    var bio := b.groups[g].Get(rw).queue[0];
    var acc := b.accounts[g].Set(rw, ChargeAccount(b.accounts[g].Get(rw), bio.size));
    b.(groups := b.groups[g := Pay(Pop(b.groups[g], rw), rw, now, bio.size)], accounts := b.accounts[g := acc],
       nrReads := if rw then b.nrReads else b.nrReads - 1, nrWrites := if rw then b.nrWrites - 1 else b.nrWrites,
       gone := b.gone + [Move(g, bio)])
  }

  ghost predicate CanServe(b: Book, g: nat, rw: bool, now: nat) {
    && g < |b.groups| && Inv(b, now, {g}) && b.groups[g].Get(rw).queue != []
    && Probe(b.groups[g], rw, now, b.groups[g].Get(rw).queue[0].size) == (b.groups[g], Pass)
  }

  /** The counters are never decremented below zero. */
  lemma ServedDefined(b: Book, g: nat, rw: bool, now: nat)
    requires CanServe(b, g, rw, now)
    ensures |b.groups| == |b.accounts| && b.groups[g].Get(rw).nrQueued > 0
    ensures b.groups[g].Get(rw).queue[0].write == rw
    ensures if rw then b.nrWrites > 0 else b.nrReads > 0
  {
    hide RateInv, Sorted, MayDispatch, Of;
    TotalQueuedAtLeast(b.groups, g, rw);
  }

  /** Serving a bio touches nothing but the head of its queue, the slice and the books. */
  lemma ServedFrame(b: Book, g: nat, rw: bool, now: nat)
    requires CanServe(b, g, rw, now)
    ensures |b.groups| == |b.accounts| && b.groups[g].Get(rw).nrQueued > 0 && b.groups[g].Get(rw).limits.Valid()
    ensures if rw then b.nrWrites > 0 else b.nrReads > 0
    ensures var s := Served(b, g, rw, now);
            && |s.groups| == |b.groups| && (forall h | 0 <= h < |b.groups| && h != g :: s.groups[h] == b.groups[h])
            && s.groups[g].Get(!rw) == b.groups[g].Get(!rw) && s.groups[g].onTree == b.groups[g].onTree
            && s.groups[g].Get(rw).queue == b.groups[g].Get(rw).queue[1..]
            && s.groups[g].Get(rw).limits == b.groups[g].Get(rw).limits
            && s.gone == b.gone + [Move(g, b.groups[g].Get(rw).queue[0])]
            && s.nrReads + s.nrWrites + 1 == b.nrReads + b.nrWrites
  {
    hide Inv, TrimSlice, MayDispatch;
    LimitsValid(b, g, now, {g});
    ServedDefined(b, g, rw, now);
  }

  lemma ServedInv(b: Book, g: nat, rw: bool, now: nat)
    requires CanServe(b, g, rw, now)
    ensures |b.groups| == |b.accounts| && b.groups[g].Get(rw).nrQueued > 0
    ensures if rw then b.nrWrites > 0 else b.nrReads > 0
    ensures Inv(Served(b, g, rw, now), now, {g})
  {
    hide RateInv, Sorted, MayDispatch, TrimSlice, Of;
    ServedDefined(b, g, rw, now);
    var bio := b.groups[g].Get(rw).queue[0];
    PayOk(b.groups[g], b.accounts[g], rw, now, bio.size);
    var grp := Pay(Pop(b.groups[g], rw), rw, now, bio.size);
    var acc := b.accounts[g].Set(rw, ChargeAccount(b.accounts[g].Get(rw), bio.size));
    assert GroupOk(grp, acc, now);
    ReplaceGroup(b.groups, b.accounts, b.tree, {g}, g, grp, acc, now);
    TotalQueuedUpdate(b.groups, g, grp, false);
    TotalQueuedUpdate(b.groups, g, grp, true);
    PopFlow(b.arrived, b.gone, b.groups, g, grp, rw);
    LedgerCharge(b.accounts, b.gone, b.since, g, bio);
  }

  lemma GroupsOkUpdate(groups: seq<Group>, accounts: seq<Accounts>, g: nat, grp: Group, acc: Accounts, now: nat)
    requires GroupsOk(groups, accounts, now) && g < |groups| && GroupOk(grp, acc, now)
    ensures GroupsOk(groups[g := grp], accounts[g := acc], now)
  {
    hide GroupOk;
  }

  /** A change that leaves the queues of a group alone leaves the flow and the counts alone. */
  lemma SameQueues(arrived: seq<Move>, gone: seq<Move>, groups: seq<Group>, g: nat, grp: Group)
    requires FlowOk(arrived, gone, groups) && g < |groups|
    requires grp.read.queue == groups[g].read.queue && grp.write.queue == groups[g].write.queue
    ensures FlowOk(arrived, gone, groups[g := grp])
    ensures TotalQueued(groups[g := grp], false) == TotalQueued(groups, false)
    ensures TotalQueued(groups[g := grp], true) == TotalQueued(groups, true)
  {
    hide Of;
    TotalQueuedUpdate(groups, g, grp, false);
    TotalQueuedUpdate(groups, g, grp, true);
    forall h, d | 0 <= h < |groups|
      ensures Of(arrived, h, d) == Of(gone, h, d) + groups[g := grp][h].Get(d).queue
    {
      assert Of(arrived, h, d) == Of(gone, h, d) + groups[h].Get(d).queue;
    }
  }

  /** A change of the bookkeeping fields of a group keeps its accounts in order. */
  lemma SameDirs(groups: seq<Group>, accounts: seq<Accounts>, g: nat, grp: Group, now: nat)
    requires GroupsOk(groups, accounts, now) && g < |groups| && grp.read == groups[g].read
             && grp.write == groups[g].write
    ensures GroupsOk(groups[g := grp], accounts, now)
  {
    hide DirOk;
    assert GroupOk(grp, accounts[g], now);
    GroupsOkUpdate(groups, accounts, g, grp, accounts[g], now);
    assert accounts[g := accounts[g]] == accounts;
  }

  /** A book in which a group left the tree. */
  function Dequeued(b: Book, g: nat): Book
    requires g < |b.groups|
  {
    b.(tree := Remove(b.tree, g), groups := b.groups[g := b.groups[g].(onTree := false)])
  }

  lemma DequeuedTree(tree: seq<nat>, groups: seq<Group>, g: nat)
    requires TreeOk(tree, groups, {}) && g < |groups|
    ensures TreeOk(Remove(tree, g), groups[g := groups[g].(onTree := false)], {g})
    ensures forall h: nat :: h in Remove(tree, g) <==> h in tree && h != g
  {
    hide Sorted;
    RemoveSorted(tree, g, groups);
    SortedSame(Remove(tree, g), groups, g, groups[g].(onTree := false));
  }

  lemma DequeuedInv(b: Book, g: nat, now: nat)
    requires Inv(b, now, {}) && g < |b.groups|
    ensures Inv(Dequeued(b, g), now, {g})
    ensures forall h: nat :: h in Remove(b.tree, g) <==> h in b.tree && h != g
  {
    hide GroupsOk, TreeOk, FlowOk, LedgerOk, TotalQueued;
    var grp := b.groups[g].(onTree := false);
    DequeuedTree(b.tree, b.groups, g);
    SameDirs(b.groups, b.accounts, g, grp, now);
    SameQueues(b.arrived, b.gone, b.groups, g, grp);
  }

  /** A book in which a group got a dispatch time and joined the tree. */
  function Enqueued(b: Book, g: nat, disptime: nat): Book
    requires g < |b.groups| && (forall i | 0 <= i < |b.tree| :: b.tree[i] < |b.groups|)
  {
    var groups := b.groups[g := b.groups[g].(disptime := disptime, onTree := true)];
    b.(groups := groups, tree := Insert(b.tree, g, groups))
  }

  lemma EnqueuedTree(b: Book, g: nat, disptime: nat)
    requires TreeOk(b.tree, b.groups, {g}) && g < |b.groups| && b.groups[g].Busy()
    ensures forall i | 0 <= i < |b.tree| :: b.tree[i] < |b.groups|
    ensures TreeOk(Enqueued(b, g, disptime).tree, Enqueued(b, g, disptime).groups, {})
    ensures forall h: nat :: h in Enqueued(b, g, disptime).tree <==> h == g || h in b.tree
  {
    var groups := b.groups[g := b.groups[g].(disptime := disptime, onTree := true)];
    SortedSame(b.tree, b.groups, g, groups[g]);
    InsertSorted(b.tree, g, groups);
  }

  lemma EnqueuedInv(b: Book, g: nat, disptime: nat, now: nat)
    requires Inv(b, now, {g}) && g < |b.groups| && b.groups[g].Busy()
    ensures forall i | 0 <= i < |b.tree| :: b.tree[i] < |b.groups|
    ensures Inv(Enqueued(b, g, disptime), now, {})
    ensures forall h: nat :: h in Enqueued(b, g, disptime).tree <==> h == g || h in b.tree
  {
    hide GroupsOk, TreeOk, FlowOk, LedgerOk, TotalQueued;
    var grp := b.groups[g].(disptime := disptime, onTree := true);
    EnqueuedTree(b, g, disptime);
    SameDirs(b.groups, b.accounts, g, grp, now);
    SameQueues(b.arrived, b.gone, b.groups, g, grp);
  }

  /** A book in which a bio joined the queue of a group. */
  function Queued(b: Book, g: nat, bio: Bio): Book
    requires g < |b.groups|
  {
    b.(groups := b.groups[g := Push(b.groups[g], bio)], arrived := b.arrived + [Move(g, bio)],
       nrReads := if bio.write then b.nrReads else b.nrReads + 1,
       nrWrites := if bio.write then b.nrWrites + 1 else b.nrWrites)
  }

  lemma QueuedTree(tree: seq<nat>, groups: seq<Group>, g: nat, bio: Bio, served: set<nat>)
    requires TreeOk(tree, groups, {}) && g < |groups| && served == if groups[g].onTree then {} else {g}
    ensures TreeOk(tree, groups[g := Push(groups[g], bio)], served)
  {
    hide Sorted;
    SortedSame(tree, groups, g, Push(groups[g], bio));
  }

  lemma QueuedGroups(groups: seq<Group>, accounts: seq<Accounts>, g: nat, bio: Bio, now: nat)
    requires GroupsOk(groups, accounts, now) && g < |groups|
    ensures GroupsOk(groups[g := Push(groups[g], bio)], accounts, now)
  {
    hide RateInv;
    assert GroupOk(groups[g], accounts[g], now);
    assert GroupOk(Push(groups[g], bio), accounts[g], now);
    GroupsOkUpdate(groups, accounts, g, Push(groups[g], bio), accounts[g], now);
    assert accounts[g := accounts[g]] == accounts;
  }

  lemma QueuedInv(b: Book, g: nat, bio: Bio, now: nat, served: set<nat>)
    requires Inv(b, now, {}) && g < |b.groups| && served == if b.groups[g].onTree then {} else {g}
    ensures Inv(Queued(b, g, bio), now, served)
  {
    hide TreeOk, FlowOk, GroupsOk, LedgerOk, TotalQueued;
    var grp := Push(b.groups[g], bio);
    QueuedTree(b.tree, b.groups, g, bio, served);
    QueuedGroups(b.groups, b.accounts, g, bio, now);
    TotalQueuedUpdate(b.groups, g, grp, false);
    TotalQueuedUpdate(b.groups, g, grp, true);
    PushFlow(b.arrived, b.gone, b.groups, g, bio);
  }

  lemma PushFlow(arrived: seq<Move>, gone: seq<Move>, groups: seq<Group>, g: nat, bio: Bio)
    requires FlowOk(arrived, gone, groups) && g < |groups|
    ensures FlowOk(arrived + [Move(g, bio)], gone, groups[g := Push(groups[g], bio)])
  {
    hide Of;
    forall h, d | 0 <= h < |groups|
      ensures Of(arrived + [Move(g, bio)], h, d) == Of(gone, h, d) + groups[g := Push(groups[g], bio)][h].Get(d).queue
    {
      OfAppend(arrived, Move(g, bio), h, d);
      assert Of(arrived, h, d) == Of(gone, h, d) + groups[h].Get(d).queue;
    }
  }

  /** A book in which a bio passed straight through a group with nothing queued in its direction. */
  ghost function Passed(b: Book, g: nat, bio: Bio, now: nat): Book
    requires g < |b.groups| == |b.accounts| && b.groups[g].Get(bio.write).limits.Valid()
  {
    var acc := b.accounts[g].Set(bio.write, ChargeAccount(b.accounts[g].Get(bio.write), bio.size));
    b.(groups := b.groups[g := Pay(b.groups[g], bio.write, now, bio.size)], accounts := b.accounts[g := acc],
       arrived := b.arrived + [Move(g, bio)], gone := b.gone + [Move(g, bio)])
  }

  lemma PassFlow(arrived: seq<Move>, gone: seq<Move>, groups: seq<Group>, g: nat, bio: Bio)
    requires FlowOk(arrived, gone, groups) && g < |groups| && groups[g].Get(bio.write).queue == []
    ensures FlowOk(arrived + [Move(g, bio)], gone + [Move(g, bio)], groups)
  {
    hide Of;
    forall h, d | 0 <= h < |groups|
      ensures Of(arrived + [Move(g, bio)], h, d) == Of(gone + [Move(g, bio)], h, d) + groups[h].Get(d).queue
    {
      OfAppend(arrived, Move(g, bio), h, d);
      OfAppend(gone, Move(g, bio), h, d);
      assert Of(arrived, h, d) == Of(gone, h, d) + groups[h].Get(d).queue;
    }
  }

  lemma PassedInv(b: Book, g: nat, bio: Bio, now: nat)
    requires Inv(b, now, {}) && g < |b.groups| == |b.accounts| && b.groups[g].Get(bio.write).limits.Valid()
    requires b.groups[g].Get(bio.write).queue == []
    requires Probe(b.groups[g], bio.write, now, bio.size) == (b.groups[g], Pass)
    ensures Inv(Passed(b, g, bio, now), now, {})
  {
    hide GroupOk, TreeOk, FlowOk, LedgerOk, TotalQueued, MayDispatch, TrimSlice;
    var acc := b.accounts[g].Set(bio.write, ChargeAccount(b.accounts[g].Get(bio.write), bio.size));
    var grp := Pay(b.groups[g], bio.write, now, bio.size);
    PayOk(b.groups[g], b.accounts[g], bio.write, now, bio.size);
    ReplaceGroup(b.groups, b.accounts, b.tree, {}, g, grp, acc, now);
    PassFlow(b.arrived, b.gone, b.groups, g, bio);
    LedgerCharge(b.accounts, b.gone, b.since, g, bio);
    SameQueues(b.arrived + [Move(g, bio)], b.gone + [Move(g, bio)], b.groups, g, grp);
  }

  function FreshGroup(read: Limits, write: Limits, start: nat): Group {
    Group(Dir(read, StartNewSlice(read, start), [], 0), Dir(write, StartNewSlice(write, start), [], 0), 0, false)
  }

  ghost predicate FreshBook(b: Book, start: nat) {
    && b.since == start && b.tree == [] && b.nrReads == b.nrWrites == 0 && b.arrived == b.gone == []
    && |b.accounts| == |b.groups|
    && (forall g | 0 <= g < |b.groups| :: b.accounts[g] == Accounts(Account(start, 0, 0), Account(start, 0, 0)))
    && (forall g | 0 <= g < |b.groups| ::
          && b.groups[g] == FreshGroup(b.groups[g].read.limits, b.groups[g].write.limits, start)
          && b.groups[g].read.limits.Valid() && b.groups[g].write.limits.Valid())
  }

  lemma FreshInv(b: Book, start: nat)
    requires FreshBook(b, start)
    ensures Inv(b, start, {})
  {
    hide RateInv;
    forall g | 0 <= g < |b.groups|
      ensures GroupOk(b.groups[g], b.accounts[g], start)
    {
      StartInv(b.groups[g].read.limits, b.groups[g].read.slice, start);
      StartInv(b.groups[g].write.limits, b.groups[g].write.slice, start);
    }
    FreshTotal(b.groups, false);
    FreshTotal(b.groups, true);
  }

  lemma {:induction false} FreshTotal(groups: seq<Group>, rw: bool)
    requires forall g | 0 <= g < |groups| :: groups[g].Get(rw).queue == []
    ensures TotalQueued(groups, rw) == 0
  {
    if groups != [] {
      FreshTotal(groups[..|groups| - 1], rw);
    }
  }

  class ThrotlData {
    var groups: seq<Group>
    var tree: seq<nat>
    var nrReads: nat
    var nrWrites: nat
    ghost const since: nat
    ghost var accounts: seq<Accounts>
    ghost var arrived: seq<Move>
    ghost var gone: seq<Move>

    /** Groups created at time `start` with fresh slices and nothing queued. */
    constructor (limits: seq<(Limits, Limits)>, start: nat)
      requires forall i | 0 <= i < |limits| :: limits[i].0.Valid() && limits[i].1.Valid()
      ensures Valid(start, {}) && since == start && |groups| == |limits| && arrived == [] && gone == []
      ensures forall i | 0 <= i < |limits| ::
              groups[i].read.limits == limits[i].0 && groups[i].write.limits == limits[i].1
    {
      groups := seq(|limits|, i requires 0 <= i < |limits| => FreshGroup(limits[i].0, limits[i].1, start));
      tree, nrReads, nrWrites := [], 0, 0;
      since := start;
      accounts := seq(|limits|, i => Accounts(Account(start, 0, 0), Account(start, 0, 0)));
      arrived, gone := [], [];
      new;
      FreshInv(Contents(), start);
    }

    ghost function Contents(): Book
      reads this
    {
      Book(groups, tree, nrReads, nrWrites, since, accounts, arrived, gone)
    }

    ghost predicate Valid(now: nat, served: set<nat>)
      reads this
    {
      Inv(Contents(), now, served)
    }

    /** Groups on the tree whose dispatch time has come. */
    ghost function Due(now: nat): set<nat>
      reads this
    {
      set h | h in tree && h < |groups| && groups[h].disptime <= now
    }

    /** tg_may_dispatch on group g */
    method MayDispatchBio(g: nat, rw: bool, now: nat, size: nat, ghost served: set<nat>) returns (v: Verdict)
      requires g < |groups| && Valid(now, served)
      modifies `groups
      ensures g < |groups| && Valid(now, served) && old(groups[g].Get(rw).limits.Valid())
      ensures Contents() == Probed(old(Contents()), g, rw, now, size)
      ensures groups[g].Get(rw).limits.Valid() && Probe(groups[g], rw, now, size) == (groups[g], v)
      ensures v == Probe(old(groups[g]), rw, now, size).1
    {
      hide Inv, MayDispatch;
      ProbedInv(Contents(), g, rw, now, size, served);
      var r := Probe(groups[g], rw, now, size);
      groups := groups[g := r.0];
      v := r.1;
    }

    /** tg_dispatch_one_bio */
    method DispatchOneBio(g: nat, rw: bool, now: nat)
      requires CanServe(Contents(), g, rw, now)
      modifies `groups, `nrReads, `nrWrites, `accounts, `gone
      ensures Valid(now, {g})
      ensures |old(groups)| == |old(accounts)| && old(groups[g].Get(rw).nrQueued) > 0
      ensures if rw then old(nrWrites) > 0 else old(nrReads) > 0
      ensures Contents() == Served(old(Contents()), g, rw, now)
    {
      hide Inv, MayDispatch, TrimSlice;
      LimitsValid(Contents(), g, now, {g});
      ServedInv(Contents(), g, rw, now);
      var bio := groups[g].Get(rw).queue[0];
      ghost var b := Contents();
      groups := groups[g := Pop(groups[g], rw)];
      if rw { nrWrites := nrWrites - 1; } else { nrReads := nrReads - 1; }
      groups := groups[g := Pay(groups[g], rw, now, bio.size)];
      accounts := accounts[g := accounts[g].Set(rw, ChargeAccount(accounts[g].Get(rw), bio.size))];
      gone := gone + [Move(g, bio)];
      assert groups == Served(b, g, rw, now).groups;
    }

    /** One of the two loops of throtl_dispatch_tg: at most `max` bios of one direction. */
    method DispatchDirection(g: nat, rw: bool, max: nat, now: nat) returns (nr: nat)
      requires g < |groups| && Valid(now, {g}) && max > 0
      modifies `groups, `nrReads, `nrWrites, `accounts, `gone
      ensures g < |groups| == |old(groups)| && Valid(now, {g}) && nr <= max
      ensures |gone| == |old(gone)| + nr && old(gone) <= gone && nrReads + nrWrites + nr == old(nrReads + nrWrites)
      ensures forall h | 0 <= h < |groups| && h != g :: groups[h] == old(groups)[h]
      ensures groups[g].Get(!rw) == old(groups[g].Get(!rw)) && groups[g].onTree == old(groups[g].onTree)
      ensures nr <= |old(groups[g].Get(rw).queue)| && groups[g].Get(rw).queue == old(groups[g].Get(rw).queue)[nr..]
      ensures groups[g].Get(rw).limits == old(groups[g].Get(rw).limits) && groups[g].Get(rw).limits.Valid()
      ensures nr == 0 ==> Blocked(groups[g], rw, now)
    {
      hide Inv, Probe, Served;
      LimitsValid(Contents(), g, now, {g});
      nr := 0;
      while groups[g].Get(rw).queue != []
        invariant g < |groups| == |old(groups)| && Valid(now, {g}) && nr < max
        invariant |gone| == |old(gone)| + nr && old(gone) <= gone && nrReads + nrWrites + nr == old(nrReads + nrWrites)
        invariant forall h | 0 <= h < |groups| && h != g :: groups[h] == old(groups)[h]
        invariant groups[g].Get(!rw) == old(groups[g].Get(!rw)) && groups[g].onTree == old(groups[g].onTree)
        invariant nr <= |old(groups[g].Get(rw).queue)| && groups[g].Get(rw).queue == old(groups[g].Get(rw).queue)[nr..]
        invariant groups[g].Get(rw).limits == old(groups[g].Get(rw).limits)
        decreases max - nr
      {
        var size := groups[g].Get(rw).queue[0].size;
        LimitsValid(Contents(), g, now, {g});
        ProbeFrame(groups[g], rw, now, size);
        var v := MayDispatchBio(g, rw, now, size, {g});
        if v.Wait? { break; }
        ServedFrame(Contents(), g, rw, now);
        DispatchOneBio(g, rw, now);
        nr := nr + 1;
        if nr >= max { break; }
      }
    }

    /** throtl_dispatch_tg */
    method DispatchGroup(g: nat, now: nat) returns (nr: nat)
      requires g < |groups| && Valid(now, {g})
      modifies `groups, `nrReads, `nrWrites, `accounts, `gone
      ensures g < |groups| == |old(groups)| && Valid(now, {g}) && nr <= GRP_QUANTUM
      ensures |gone| == |old(gone)| + nr && old(gone) <= gone && nrReads + nrWrites + nr == old(nrReads + nrWrites)
      ensures forall h | 0 <= h < |groups| && h != g :: groups[h] == old(groups)[h]
      ensures groups[g].onTree == old(groups[g].onTree)
      ensures groups[g].read.limits == old(groups[g].read.limits)
              && groups[g].write.limits == old(groups[g].write.limits)
      ensures nr == 0 ==>
                && groups[g].read.queue == old(groups[g].read.queue)
                && groups[g].write.queue == old(groups[g].write.queue)
      ensures groups[g].read.limits.Valid() && groups[g].write.limits.Valid()
      ensures nr == 0 ==> Blocked(groups[g], false, now) && Blocked(groups[g], true, now)
    {
      hide Inv, MayDispatch, Probe;
      var readCount := DispatchDirection(g, false, MAX_NR_READS, now);
      ghost var mid := groups[g];
      var writeCount := DispatchDirection(g, true, MAX_NR_WRITES, now);
      BlockedLocal(mid, groups[g], false, now);
      nr := readCount + writeCount;
    }

    /** The wait of the bio at the head of one direction, if there is one. */
    method HeadWait(g: nat, rw: bool, now: nat, ghost served: set<nat>) returns (known: bool, wait: nat)
      requires g < |groups| && Valid(now, served)
      modifies `groups
      ensures g < |groups| && Valid(now, served) && old(groups[g].Get(rw).limits.Valid())
      ensures groups == old(groups)[g := groups[g]] && known == (groups[g].Get(rw).queue != [])
      ensures groups[g].Get(!rw) == old(groups[g].Get(!rw)) && groups[g].Get(rw).queue == old(groups[g].Get(rw).queue)
      ensures groups[g].Get(rw).limits == old(groups[g].Get(rw).limits)
      ensures groups[g].onTree == old(groups[g].onTree)
      ensures known && old(Blocked(groups[g], rw, now)) ==> wait >= 1
    {
      hide Inv, MayDispatch, Probe;
      LimitsValid(Contents(), g, now, served);
      known, wait := groups[g].Get(rw).queue != [], 0;
      if known {
        var size := groups[g].Get(rw).queue[0].size;
        ProbeFrame(groups[g], rw, now, size);
        ProbeWaits(groups[g], rw, now, size);
        var v := MayDispatchBio(g, rw, now, size, served);
        wait := if v.Wait? then v.jiffies else 0;
      }
    }

    /** tg_update_disptime: a refused group gets a dispatch time in the future. */
    method UpdateDisptime(g: nat, now: nat, ghost served: set<nat>)
      requires g < |groups| && Valid(now, served) && groups[g].Busy()
      requires served == if groups[g].onTree then {} else {g}
      modifies `groups, `tree
      ensures g < |groups| == |old(groups)| && Valid(now, {})
      ensures forall h | 0 <= h < |groups| && h != g :: groups[h] == old(groups)[h]
      ensures groups[g].read.queue == old(groups[g].read.queue) && groups[g].write.queue == old(groups[g].write.queue)
      ensures groups[g].read.limits == old(groups[g].read.limits)
              && groups[g].write.limits == old(groups[g].write.limits)
      ensures forall h: nat :: h in tree <==> h == g || h in old(tree)
      ensures old(groups[g].read.limits.Valid()) && old(groups[g].write.limits.Valid())
      ensures old(Blocked(groups[g], false, now)) && old(Blocked(groups[g], true, now)) ==> groups[g].disptime > now
    {
      hide Inv, MayDispatch, Probe;
      LimitsValid(Contents(), g, now, served);
      var readKnown, readWait := HeadWait(g, false, now, served);
      BlockedLocal(old(groups[g]), groups[g], true, now);
      var writeKnown, writeWait := HeadWait(g, true, now, served);
      var wait := if !readKnown then writeWait else if !writeKnown then readWait else Min(readWait, writeWait);
      if groups[g].onTree {
        DequeuedInv(Contents(), g, now);
        tree := Remove(tree, g);
        groups := groups[g := groups[g].(onTree := false)];
      }
      EnqueuedInv(Contents(), g, now + wait, now);
      groups := groups[g := groups[g].(disptime := now + wait, onTree := true)];
      tree := Insert(tree, g, groups);
    }

    /** throtl_select_dispatch: one dispatch round. */
    method SelectDispatch(now: nat) returns (nr: nat)
      requires Valid(now, {})
      modifies this
      ensures Valid(now, {}) && arrived == old(arrived) && |groups| == |old(groups)|
      ensures LimitsOf(groups) == old(LimitsOf(groups))
      ensures nr <= QUANTUM + GRP_QUANTUM - 1
      ensures |gone| == |old(gone)| + nr && old(gone) <= gone
      ensures nr >= QUANTUM || forall g | 0 <= g < |groups| && groups[g].Busy() :: now < groups[g].disptime
    {
      hide Inv, MayDispatch;
      nr := 0;
      while tree != []
        invariant Valid(now, {}) && arrived == old(arrived) && |groups| == |old(groups)|
        invariant LimitsOf(groups) == old(LimitsOf(groups))
        invariant nr < QUANTUM && |gone| == |old(gone)| + nr && old(gone) <= gone
        decreases nrReads + nrWrites, Due(now)
      {
        var g := tree[0];
        OnTree(Contents(), g, now);
        if now < groups[g].disptime { break; }
        ghost var due := Due(now);
        var n := ServeGroup(g, now);
        nr := nr + n;
        if nr >= QUANTUM { break; }
      }
      if nr < QUANTUM {
        forall g | 0 <= g < |groups| && groups[g].Busy()
          ensures now < groups[g].disptime
        {
          FirstIsEarliest(Contents(), g, now);
        }
      }
    }

    /** The body of the loop: the first group is taken off the tree, served, and put back if it is still busy. */
    method ServeGroup(g: nat, now: nat) returns (n: nat)
      requires Valid(now, {}) && g < |groups| && g in tree && groups[g].disptime <= now
      modifies this
      ensures Valid(now, {}) && arrived == old(arrived) && |groups| == |old(groups)| && n <= GRP_QUANTUM
      ensures LimitsOf(groups) == old(LimitsOf(groups))
      ensures |gone| == |old(gone)| + n && old(gone) <= gone
      ensures nrReads + nrWrites + n == old(nrReads + nrWrites)
      ensures n == 0 ==> Due(now) < old(Due(now))
    {
      hide Inv, MayDispatch;
      OnTree(Contents(), g, now);
      DequeuedInv(Contents(), g, now);
      tree := Remove(tree, g);
      groups := groups[g := groups[g].(onTree := false)];
      n := DispatchGroup(g, now);
      NrQueuedMeansBusy(Contents(), g, now, {g});
      if groups[g].read.nrQueued > 0 || groups[g].write.nrQueued > 0 {
        UpdateDisptime(g, now, {g});
      } else {
        IdleNeedsNoTree(Contents(), g, now);
      }
      TreeInRange(Contents(), now);
      assert n == 0 ==> g !in Due(now);
    }

    /**
      throtl_schedule_next_dispatch: with bios queued the tree is never empty, and the delay runs to its first group.
     */
    method ScheduleNextDispatch(now: nat) returns (scheduled: bool, delay: nat)
      requires Valid(now, {})
      ensures scheduled <==> exists g :: 0 <= g < |groups| && groups[g].Busy()
      ensures scheduled ==> forall g | 0 <= g < |groups| && groups[g].Busy() ::
              now + delay <= Max(groups[g].disptime, now)
      ensures scheduled ==> exists g ::
              0 <= g < |groups| && groups[g].Busy() && now + delay == Max(groups[g].disptime, now)
    {
      hide Inv, MayDispatch;
      scheduled, delay := nrReads + nrWrites > 0, 0;
      if scheduled {
        TreeNotEmpty(Contents(), now);
        var g := tree[0];
        OnTree(Contents(), g, now);
        delay := if groups[g].disptime <= now then 0 else groups[g].disptime - now;
        forall h | 0 <= h < |groups| && groups[h].Busy()
          ensures now + delay <= Max(groups[h].disptime, now)
        {
          FirstIsEarliest(Contents(), h, now);
        }
      } else {
        NothingQueued(Contents(), now);
      }
    }

    /**
      The end of blk_throtl_bio for a bio that must wait; its group gets a dispatch time if this direction was idle.
     */
    method QueueBio(g: nat, bio: Bio, now: nat, updateDisptime: bool)
      requires Valid(now, {}) && g < |groups| && updateDisptime == (groups[g].Get(bio.write).nrQueued == 0)
      modifies this
      ensures Valid(now, {}) && g < |groups| && LimitsOf(groups) == old(LimitsOf(groups))
      ensures arrived == old(arrived) + [Move(g, bio)] && gone == old(gone)
      ensures groups[g].Get(bio.write).queue == old(groups[g].Get(bio.write).queue) + [bio]
    {
      hide Inv, MayDispatch, LimitsOf, Probe;
      ghost var served := if groups[g].onTree then {} else {g};
      NrQueuedMeansBusy(Contents(), g, now, {});
      QueuedInv(Contents(), g, bio, now, served);
      OnTreeIffBusy(Contents(), g, now);
      groups := groups[g := Push(groups[g], bio)];
      if bio.write { nrWrites := nrWrites + 1; } else { nrReads := nrReads + 1; }
      arrived := arrived + [Move(g, bio)];
      if updateDisptime {
        UpdateDisptime(g, now, served);
      }
      LimitsSame(old(groups), groups, g);
    }

    /** blk_throtl_bio for a bio of group g */
    method ThrotlBio(g: nat, bio: Bio, now: nat) returns (throttled: bool)
      requires Valid(now, {}) && g < |groups|
      modifies this
      ensures Valid(now, {}) && |groups| == |old(groups)| && LimitsOf(groups) == old(LimitsOf(groups))
      ensures old(groups[g].Get(bio.write).limits.NoRule()) ==> !throttled && Contents() == old(Contents())
      ensures !old(groups[g].Get(bio.write).limits.NoRule()) ==>
                && arrived == old(arrived) + [Move(g, bio)]
                && gone == if throttled then old(gone) else old(gone) + [Move(g, bio)]
      ensures throttled ==> groups[g].Get(bio.write).queue == old(groups[g].Get(bio.write).queue) + [bio]
      ensures !throttled && !old(groups[g].Get(bio.write).limits.NoRule()) ==>
                old(groups[g].Get(bio.write).queue) == [] && groups[g].Get(bio.write).queue == []
    {
      hide Inv, MayDispatch, TrimSlice, LimitsOf;
      var rw := bio.write;
      LimitsValid(Contents(), g, now, {});
      if groups[g].Get(rw).limits.NoRule() { return false; }
      NrQueuedMeansBusy(Contents(), g, now, {});
      var updateDisptime := groups[g].Get(rw).nrQueued == 0;
      if updateDisptime {
        var v := MayDispatchBio(g, rw, now, bio.size, {});
        LimitsSame(old(groups), groups, g);
        if v.Pass? {
          PassedInv(Contents(), g, bio, now);
          groups := groups[g := Pay(groups[g], rw, now, bio.size)];
          accounts := accounts[g := accounts[g].Set(rw, ChargeAccount(accounts[g].Get(rw), bio.size))];
          arrived := arrived + [Move(g, bio)];
          gone := gone + [Move(g, bio)];
          LimitsSame(old(groups), groups, g);
          return false;
        }
      }
      QueueBio(g, bio, now, updateDisptime);
      assert LimitsOf(groups) == old(LimitsOf(groups));
      LimitsCount(old(groups), groups);
      throttled := true;
    }
  }

  lemma BlockedLocal(a: Group, b: Group, rw: bool, now: nat)
    requires a.Get(rw) == b.Get(rw) && a.Get(rw).limits.Valid()
    ensures Blocked(a, rw, now) == Blocked(b, rw, now)
  {
    hide Probe;
    if a.Get(rw).queue != [] {
      ProbeLocal(a, b, rw, now, a.Get(rw).queue[0].size);
    }
  }

  /** The verdict depends only on the direction asked about. */
  lemma ProbeLocal(a: Group, b: Group, rw: bool, now: nat, size: nat)
    requires a.Get(rw) == b.Get(rw) && a.Get(rw).limits.Valid()
    ensures Probe(a, rw, now, size).1 == Probe(b, rw, now, size).1
  {
    hide MayDispatch;
  }

  lemma ProbeFrame(a: Group, rw: bool, now: nat, size: nat)
    requires a.Get(rw).limits.Valid()
    ensures var b := Probe(a, rw, now, size).0;
            && b.Get(!rw) == a.Get(!rw) && b.Get(rw).queue == a.Get(rw).queue && b.Get(rw).limits == a.Get(rw).limits
            && b.onTree == a.onTree && b.disptime == a.disptime
  {
    hide MayDispatch;
  }

  lemma ProbeWaits(a: Group, rw: bool, now: nat, size: nat)
    requires a.Get(rw).limits.Valid()
    ensures Probe(a, rw, now, size).1.Wait? ==> Probe(a, rw, now, size).1.jiffies >= 1
  {
    hide MayDispatch;
    RefusalWaits(a.Get(rw).limits, a.Get(rw).slice, now, size);
  }

  lemma OnTreeIffBusy(b: Book, g: nat, now: nat)
    requires Inv(b, now, {}) && g < |b.groups|
    ensures b.groups[g].onTree <==> b.groups[g].Busy()
    ensures |b.accounts| == |b.groups|
  {
  }

  lemma OnTree(b: Book, g: nat, now: nat)
    requires Inv(b, now, {}) && g in b.tree
    ensures g < |b.groups| && b.groups[g].onTree && b.groups[g].Busy()
    ensures forall i | 0 <= i < |b.tree| :: b.tree[i] < |b.groups|
  {
  }

  lemma TreeInRange(b: Book, now: nat)
    requires Inv(b, now, {})
    ensures forall i | 0 <= i < |b.tree| :: b.tree[i] < |b.groups|
  {
  }

  /** A busy group is on the tree, and the first group of the tree is no later. */
  lemma FirstIsEarliest(b: Book, g: nat, now: nat)
    requires Inv(b, now, {}) && g < |b.groups| && b.groups[g].Busy()
    ensures b.tree != [] && b.tree[0] < |b.groups| && b.groups[b.tree[0]].disptime <= b.groups[g].disptime
  {
    assert g in b.tree;
  }

  lemma NrQueuedMeansBusy(b: Book, g: nat, now: nat, served: set<nat>)
    requires Inv(b, now, served) && g < |b.groups|
    ensures |b.accounts| == |b.groups|
    ensures forall rw :: b.groups[g].Get(rw).nrQueued == |b.groups[g].Get(rw).queue|
    ensures b.groups[g].Busy() <==> b.groups[g].read.nrQueued > 0 || b.groups[g].write.nrQueued > 0
  {
    assert GroupOk(b.groups[g], b.accounts[g], now);
  }

  /** A group with nothing queued does not belong on the tree. */
  lemma IdleNeedsNoTree(b: Book, g: nat, now: nat)
    requires Inv(b, now, {g}) && g < |b.groups| && !b.groups[g].Busy()
    ensures Inv(b, now, {})
  {
    hide GroupsOk, FlowOk, LedgerOk, TotalQueued, Sorted;
  }

  /** BUG_ON(!st->count) cannot fire: a queued bio keeps its group on the tree. */
  lemma TreeNotEmpty(b: Book, now: nat)
    requires Inv(b, now, {}) && b.nrReads + b.nrWrites > 0
    ensures b.tree != [] && exists g :: 0 <= g < |b.groups| && b.groups[g].Busy()
  {
    hide GroupsOk, FlowOk, LedgerOk, Sorted;
    var g := SomeoneQueued(b.groups, b.nrReads == 0);
    assert b.groups[g].Busy() && g in b.tree;
  }

  lemma NothingQueued(b: Book, now: nat)
    requires Inv(b, now, {}) && b.nrReads + b.nrWrites == 0
    ensures forall g | 0 <= g < |b.groups| :: !b.groups[g].Busy()
  {
    hide GroupsOk, FlowOk, LedgerOk, Sorted;
    forall g | 0 <= g < |b.groups|
      ensures !b.groups[g].Busy()
    {
      TotalQueuedAtLeast(b.groups, g, false);
      TotalQueuedAtLeast(b.groups, g, true);
    }
  }

  lemma LimitsValid(b: Book, g: nat, now: nat, served: set<nat>)
    requires Inv(b, now, served) && g < |b.groups|
    ensures b.groups[g].read.limits.Valid() && b.groups[g].write.limits.Valid()
  {
  }

  // ---- runs of the whole throttle ----

  /** What the block layer does to the throttle: submit a bio to a group, or run the dispatch work. */
  datatype Event = Submit(time: nat, group: nat, bio: Bio) | Work(time: nat)

  ghost predicate Timely(events: seq<Event>, start: nat, end: nat, groups: nat) {
    && (forall i | 0 <= i < |events| ::
        start <= events[i].time <= end && (events[i].Submit? ==> events[i].group < groups))
    && (forall i, j | 0 <= i < j < |events| :: events[i].time <= events[j].time)
  }

  /** The bios of one group and direction among the submissions, in order. */
  ghost function Submitted(events: seq<Event>, g: nat, rw: bool): seq<Bio> {
    if events == [] then [] else
      var rest, e := Submitted(events[..|events| - 1], g, rw), events[|events| - 1];
      if e.Submit? && e.group == g && e.bio.write == rw then rest + [e.bio] else rest
  }

  lemma SubmittedStep(events: seq<Event>, i: nat, g: nat, rw: bool)
    requires i < |events|
    ensures var e := events[i];
            Submitted(events[..i + 1], g, rw)
              == Submitted(events[..i], g, rw)
                 + (if e.Submit? && e.group == g && e.bio.write == rw then [e.bio] else [])
  {
    assert events[..i + 1][..i] == events[..i];
  }

  /** What the log of arrivals holds for every limited direction: what it held before, then the bios submitted since. */
  ghost predicate Arrived(groups: seq<Group>, before: seq<Move>, now: seq<Move>, events: seq<Event>) {
    forall g, rw | 0 <= g < |groups| ::
      Of(now, g, rw) == Of(before, g, rw) + (if groups[g].Get(rw).limits.NoRule() then [] else Submitted(events, g, rw))
  }

  lemma ArrivedSubmit(groups: seq<Group>, groups': seq<Group>, before: seq<Move>, now: seq<Move>, now': seq<Move>,
                      events: seq<Event>, i: nat)
    requires i < |events| && Arrived(groups, before, now, events[..i]) && LimitsOf(groups') == LimitsOf(groups)
    requires events[i].Submit? ==> events[i].group < |groups|
    requires var e := events[i];
             now' == if e.Submit? && !groups[e.group].Get(e.bio.write).limits.NoRule()
                     then now + [Move(e.group, e.bio)]
                     else now
    ensures Arrived(groups', before, now', events[..i + 1])
  {
    hide Of, Submitted;
    forall g, rw | 0 <= g < |groups'|
      ensures Of(now', g, rw)
              == Of(before, g, rw) + (if groups'[g].Get(rw).limits.NoRule() then []
                  else Submitted(events[..i + 1], g, rw))
    {
      assert LimitsOf(groups')[g] == LimitsOf(groups)[g];
      SubmittedStep(events, i, g, rw);
      if events[i].Submit? { OfAppend(now, Move(events[i].group, events[i].bio), g, rw); }
    }
  }

  lemma ArrivedStart(groups: seq<Group>, log: seq<Move>, events: seq<Event>)
    ensures Arrived(groups, log, log, events[..0])
  {
  }

  /** In a valid state what left every limited direction is within both its rates. */
  lemma InvRates(b: Book, now: nat, g: nat, rw: bool)
    requires Inv(b, now, {}) && g < |b.groups| && !b.groups[g].Get(rw).limits.NoRule()
    ensures b.since <= now
    ensures var lim := b.groups[g].Get(rw).limits;
            && Bytes(Of(b.gone, g, rw)) * lim.hz <= lim.bps * (now - b.since + lim.Window())
            && |Of(b.gone, g, rw)| * lim.hz <= lim.iops * (now - b.since + lim.Window())
  {
    hide RateInv, Of, Bytes;
    assert GroupOk(b.groups[g], b.accounts[g], now);
    RateInvBound(b.groups[g].Get(rw).limits, b.groups[g].Get(rw).slice, b.accounts[g].Get(rw), now);
  }

  /**
    Every run of submissions and dispatch rounds: exactly the bios submitted to a limited direction arrive there, in
    order; at the end what left it is a prefix of what arrived, the rest is queued, and both rates are respected.
   */
  method RunThrottle(td: ThrotlData, events: seq<Event>, start: nat, end: nat)
    requires td.Valid(start, {}) && start <= end && Timely(events, start, end, |td.groups|)
    modifies td
    ensures td.Valid(end, {}) && LimitsOf(td.groups) == old(LimitsOf(td.groups))
    ensures Arrived(td.groups, old(td.arrived), td.arrived, events)
    ensures forall g, rw | 0 <= g < |td.groups| ::
            Of(td.arrived, g, rw) == Of(td.gone, g, rw) + td.groups[g].Get(rw).queue
    ensures forall g, rw | 0 <= g < |td.groups| && !td.groups[g].Get(rw).limits.NoRule() ::
              var lim := td.groups[g].Get(rw).limits;
              && td.since <= end
              && Bytes(Of(td.gone, g, rw)) * lim.hz <= lim.bps * (end - td.since + lim.Window())
              && |Of(td.gone, g, rw)| * lim.hz <= lim.iops * (end - td.since + lim.Window())
  {
    hide Inv, Of, Bytes, Arrived, LimitsOf;
    ArrivedStart(td.groups, td.arrived, events);
    ghost var now := start;
    for i := 0 to |events|
      invariant |td.groups| == |old(td.groups)| && start <= now <= end && td.Valid(now, {})
      invariant i < |events| ==> now <= events[i].time
      invariant LimitsOf(td.groups) == old(LimitsOf(td.groups))
                && Arrived(td.groups, old(td.arrived), td.arrived, events[..i])
    {
      var e := events[i];
      InvLater(td.Contents(), now, e.time, {});
      now := e.time;
      ghost var groups, arrived := td.groups, td.arrived;
      match e {
        case Submit(_, g, bio) =>
          var _ := td.ThrotlBio(g, bio, e.time);
        case Work(_) =>
          var _ := td.SelectDispatch(e.time);
      }
      ArrivedSubmit(groups, td.groups, old(td.arrived), arrived, td.arrived, events, i);
    }
    assert events[..|events|] == events;
    InvLater(td.Contents(), now, end, {});
    FlowOf(td.Contents(), end);
    forall g, rw | 0 <= g < |td.groups| && !td.groups[g].Get(rw).limits.NoRule()
      ensures var lim := td.groups[g].Get(rw).limits;
              && td.since <= end
              && Bytes(Of(td.gone, g, rw)) * lim.hz <= lim.bps * (end - td.since + lim.Window())
              && |Of(td.gone, g, rw)| * lim.hz <= lim.iops * (end - td.since + lim.Window())
    {
      InvRates(td.Contents(), end, g, rw);
    }
  }

  lemma FlowOf(b: Book, now: nat)
    requires Inv(b, now, {})
    ensures |b.accounts| == |b.groups|
    ensures forall g, rw | 0 <= g < |b.groups| :: Of(b.arrived, g, rw) == Of(b.gone, g, rw) + b.groups[g].Get(rw).queue
  {
  }
}
