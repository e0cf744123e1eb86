/**
  Endless schedules of the threads of BurgerBuddies.c: if no thread is passed over for ever while it could move again
  and again, everybody is served and the manager is told.
 */
module FairService {
  import opened Basics
  import opened BurgerBuddies

  /** The shop before the choice of number `n` of a schedule without end. */
  function At(s: Shop, schedule: nat -> Thread, n: nat): Shop {
    if n == 0 then s else Step(At(s, schedule, n - 1), schedule(n - 1))
  }

  /** The thread is chosen at this point and moves. */
  predicate Acts(s: Shop, schedule: nat -> Thread, t: Thread, k: nat) {
    schedule(k) == t && Ready(At(s, schedule, k), t)
  }

  ghost predicate ReadyAfter(s: Shop, schedule: nat -> Thread, t: Thread, n: nat) {
    exists k: nat :: n <= k && Ready(At(s, schedule, k), t)
  }

  ghost predicate ActsAfter(s: Shop, schedule: nat -> Thread, t: Thread, n: nat) {
    exists k: nat :: n <= k && Acts(s, schedule, t, k)
  }

  ghost predicate ReadyOften(s: Shop, schedule: nat -> Thread, t: Thread) {
    forall n: nat :: ReadyAfter(s, schedule, t, n)
  }

  ghost predicate ActsOften(s: Shop, schedule: nat -> Thread, t: Thread) {
    forall n: nat :: ActsAfter(s, schedule, t, n)
  }

  /** Strong fairness: a thread that can move again and again does move again and again. */
  ghost predicate Fair(s: Shop, schedule: nat -> Thread) {
    forall t: Thread | ReadyOften(s, schedule, t) :: ActsOften(s, schedule, t)
  }

  lemma {:induction false} AtInv(s: Shop, schedule: nat -> Thread, n: nat)
    requires Inv(s)
    ensures Inv(At(s, schedule, n))
    ensures var s' := At(s, schedule, n);
            && |s'.cooks| == |s.cooks| && |s'.cashiers| == |s.cashiers| && |s'.customers| == |s.customers|
            && s'.racksize == s.racksize && |s'.available| == |s'.cashiers|
  {
    hide LocksOk, RackOk, QueueOk, Step, Sum, Teller;
    if n > 0 {
      AtInv(s, schedule, n - 1);
      StepInv(At(s, schedule, n - 1), schedule(n - 1));
      StepSizes(At(s, schedule, n - 1), schedule(n - 1));
    }
  }

  // ---- cashiers and customers come to rest ----

  /** No cashier and no customer moves from point `n` on. */
  ghost predicate Resting(s: Shop, schedule: nat -> Thread, n: nat) {
    forall k: nat, t: Thread | n <= k && Acts(s, schedule, t, k) :: t.Cook?
  }

  lemma {:induction false} WorkFalls(s: Shop, schedule: nat -> Thread, n: nat, k: nat)
    requires Inv(s) && n <= k
    ensures |At(s, schedule, n).available| == |At(s, schedule, n).cashiers|
    ensures |At(s, schedule, k).available| == |At(s, schedule, k).cashiers|
    ensures Work(At(s, schedule, k)) <= Work(At(s, schedule, n))
    decreases k
  {
    hide Inv, Work, Step;
    AtInv(s, schedule, n);
    AtInv(s, schedule, k);
    if n < k {
      WorkFalls(s, schedule, n, k - 1);
      AtInv(s, schedule, k - 1);
      WorkLess(At(s, schedule, k - 1), schedule(k - 1));
    }
  }

  /** The work left is finite, so there is a last step of a cashier or customer. */
  lemma {:induction false} ComesToRest(s: Shop, schedule: nat -> Thread, n: nat) returns (m: nat)
    requires Inv(s) && |At(s, schedule, n).available| == |At(s, schedule, n).cashiers|
    ensures n <= m && Resting(s, schedule, m)
    decreases Work(At(s, schedule, n))
  {
    hide Inv, Work, Step, Ready;
    if k: nat, t: Thread :| n <= k && Acts(s, schedule, t, k) && !t.Cook? {
      WorkFalls(s, schedule, n, k);
      AtInv(s, schedule, k);
      AtInv(s, schedule, k + 1);
      WorkLess(At(s, schedule, k), t);
      m := ComesToRest(s, schedule, k + 1);
    } else {
      m := n;
    }
  }

  /** A thread that does not move any more is, from some point on, never ready again. */
  lemma NeverReady(s: Shop, schedule: nat -> Thread, t: Thread, n: nat) returns (m: nat)
    requires Fair(s, schedule) && !ActsAfter(s, schedule, t, n)
    ensures !ReadyAfter(s, schedule, t, m)
  {
    assert !ReadyOften(s, schedule, t);
    m :| !ReadyAfter(s, schedule, t, m);
  }

  lemma {:induction false} CashiersQuiet(s: Shop, schedule: nat -> Thread, n: nat, count: nat) returns (m: nat)
    requires Fair(s, schedule) && Resting(s, schedule, n)
    ensures n <= m && forall k: nat, i | m <= k && 0 <= i < count :: !Ready(At(s, schedule, k), Cashier(i))
  {
    hide Fair, Ready, At;
    m := n;
    if count > 0 {
      var m1 := CashiersQuiet(s, schedule, n, count - 1);
      var m2 := NeverReady(s, schedule, Cashier(count - 1), n);
      m := Max(m1, m2);
    }
  }

  lemma {:induction false} CustomersQuiet(s: Shop, schedule: nat -> Thread, n: nat, count: nat) returns (m: nat)
    requires Fair(s, schedule) && Resting(s, schedule, n)
    ensures n <= m && forall k: nat, i | m <= k && 0 <= i < count :: !Ready(At(s, schedule, k), Customer(i))
  {
    hide Fair, Ready, At;
    m := n;
    if count > 0 {
      var m1 := CustomersQuiet(s, schedule, n, count - 1);
      var m2 := NeverReady(s, schedule, Customer(count - 1), n);
      m := Max(m1, m2);
    }
  }

  /** From some point on no cashier and no customer can move. */
  lemma StaysBlocked(s: Shop, schedule: nat -> Thread) returns (m: nat)
    requires Inv(s) && Fair(s, schedule)
    ensures Resting(s, schedule, m) && forall k: nat | m <= k :: Blocked(At(s, schedule, k))
  {
    hide Inv, Fair, Ready, At, Resting;
    AtInv(s, schedule, 0);
    var n := ComesToRest(s, schedule, 0);
    var m1 := CashiersQuiet(s, schedule, n, |s.cashiers|);
    var m2 := CustomersQuiet(s, schedule, n, |s.customers|);
    m := Max(m1, m2);
    assert Resting(s, schedule, m) by { RestingLater(s, schedule, n, m); }
    forall k: nat | m <= k ensures Blocked(At(s, schedule, k)) {
      AtInv(s, schedule, k);
    }
  }

  lemma RestingLater(s: Shop, schedule: nat -> Thread, n: nat, m: nat)
    requires Resting(s, schedule, n) && n <= m
    ensures Resting(s, schedule, m)
  {
  }

  // ---- and then nobody is left to be served ----

  lemma {:induction false} ServedStays(s: Shop, schedule: nat -> Thread, m: nat, k: nat)
    requires Inv(s) && Resting(s, schedule, m) && m <= k
    ensures At(s, schedule, k).served == At(s, schedule, m).served
    decreases k
  {
    hide Inv, Step, Resting, Ready;
    if m < k {
      ServedStays(s, schedule, m, k - 1);
      if Ready(At(s, schedule, k - 1), schedule(k - 1)) {
        RestingMeans(s, schedule, m, k - 1);
      }
      CooksDoNotServe(At(s, schedule, k - 1), schedule(k - 1));
    }
  }

  lemma CooksDoNotServe(s: Shop, t: Thread)
    requires Ready(s, t) ==> t.Cook?
    ensures Step(s, t).served == s.served
  {
    hide CookStep;
    if Ready(s, t) { CookMoves(s, t.index); }
  }

  lemma RestingMeans(s: Shop, schedule: nat -> Thread, m: nat, k: nat)
    requires Resting(s, schedule, m) && m <= k && Ready(At(s, schedule, k), schedule(k))
    ensures schedule(k).Cook?
  {
    hide Ready, At;
    assert Acts(s, schedule, schedule(k), k);
  }

  /** Everybody else is stuck for ever and somebody is still to be served. */
  ghost predicate Stuck(s: Shop, schedule: nat -> Thread, m: nat) {
    && Inv(s) && |s.cooks| > 0 && |s.cashiers| > 0 && s.racksize >= 1 && Resting(s, schedule, m)
    && forall k: nat | m <= k :: Blocked(At(s, schedule, k)) && At(s, schedule, k).served < |s.customers|
  }

  /** Then no cook loses ground. */
  lemma StuckStep(s: Shop, schedule: nat -> Thread, m: nat, k: nat)
    requires Stuck(s, schedule, m) && m <= k
    ensures var s1, s2 := At(s, schedule, k), At(s, schedule, k + 1);
            if Ready(s1, schedule(k)) then CookWork(s2) < CookWork(s1) else s2 == s1
  {
    hide Inv, Resting, CookWork, CookStep, Blocked;
    var s1, t := At(s, schedule, k), schedule(k);
    AtInv(s, schedule, k);
    if Ready(s1, t) {
      RestingMeans(s, schedule, m, k);
      assert At(s, schedule, k + 1) == CookStep(s1, t.index);
      CookUnblocks(s1, t.index);
      assert Blocked(At(s, schedule, k + 1));
    }
  }

  lemma {:induction false} CookWorkFalls(s: Shop, schedule: nat -> Thread, m: nat, n: nat, k: nat)
    requires Stuck(s, schedule, m) && m <= n <= k
    ensures CookWork(At(s, schedule, k)) <= CookWork(At(s, schedule, n))
    ensures (forall j: nat | n <= j < k :: !Ready(At(s, schedule, j), schedule(j)))
            ==> At(s, schedule, k) == At(s, schedule, n)
    decreases k
  {
    hide Stuck, CookWork, Ready, At;
    if n < k {
      CookWorkFalls(s, schedule, m, n, k - 1);
      StuckStep(s, schedule, m, k - 1);
    }
  }

  /** The cooks too come to rest. */
  lemma {:induction false} CooksRest(s: Shop, schedule: nat -> Thread, m: nat, n: nat) returns (r: nat)
    requires Stuck(s, schedule, m) && m <= n
    ensures n <= r && forall k: nat | r <= k :: !Ready(At(s, schedule, k), schedule(k))
    decreases CookWork(At(s, schedule, n))
  {
    hide Stuck, CookWork, Ready, At;
    if k: nat :| n <= k && Ready(At(s, schedule, k), schedule(k)) {
      CookWorkFalls(s, schedule, m, n, k);
      StuckStep(s, schedule, m, k);
      r := CooksRest(s, schedule, m, k + 1);
    } else {
      r := n;
    }
  }

  lemma StuckCook(s: Shop, schedule: nat -> Thread, m: nat, r: nat) returns (i: nat)
    requires Stuck(s, schedule, m) && m <= r
    ensures Ready(At(s, schedule, r), Cook(i))
  {
    hide Inv, Resting, Blocked, At, CookReady;
    AtInv(s, schedule, r);
    i := NoLostWakeup(At(s, schedule, r));
  }

  lemma ActsAgain(s: Shop, schedule: nat -> Thread, t: Thread, n: nat) returns (k: nat)
    requires Fair(s, schedule) && ReadyOften(s, schedule, t)
    ensures n <= k && Acts(s, schedule, t, k)
  {
    hide Acts;
    assert ActsAfter(s, schedule, t, n);
    k :| n <= k && Acts(s, schedule, t, k);
  }

  /** But one of them could move all the time, so no fair schedule gets stuck. */
  lemma NeverStuck(s: Shop, schedule: nat -> Thread, m: nat)
    requires Fair(s, schedule)
    ensures !Stuck(s, schedule, m)
  {
    hide Stuck, Ready, At;
    if Stuck(s, schedule, m) {
      var r := CooksRest(s, schedule, m, m);
      var i := StuckCook(s, schedule, m, r);
      forall n: nat ensures ReadyAfter(s, schedule, Cook(i), n) {
        var k := Max(n, r);
        CookWorkFalls(s, schedule, m, r, k);
        assert Ready(At(s, schedule, k), Cook(i));
      }
      var k := ActsAgain(s, schedule, Cook(i), r);
      assert false;
    }
  }

  /** When everybody has been served and nobody can move, the manager has been told. */
  lemma ManagerTold(s: Shop)
    requires Inv(s) && Blocked(s) && s.served == |s.customers| > 0
    ensures s.finish == 1
  {
    hide LocksOk, RackOk, Blocked, Sum, Ready;
    InvRing(s);
    BlockedLocks(s);
  }

  /**
    Whatever the numbers of threads, every fair schedule serves everybody for good and tells the manager, who waits
    for that, if there are any customers.
   */
  lemma EveryoneIsServed(s: Shop, schedule: nat -> Thread) returns (n: nat)
    requires Initial(s) && |s.cooks| > 0 && |s.cashiers| > 0 && s.racksize >= 1 && Fair(s, schedule)
    ensures forall k: nat | n <= k :: At(s, schedule, k).served == |s.customers|
    ensures |s.customers| > 0 ==> forall k: nat | n <= k :: At(s, schedule, k).finish == 1
  {
    hide Initial, Inv, Fair, Resting, Blocked, At;
    InitialInv(s);
    n := StaysBlocked(s, schedule);
    forall k: nat | n <= k
      ensures At(s, schedule, k).served == At(s, schedule, n).served <= |s.customers|
      ensures At(s, schedule, k).served == |s.customers| > 0 ==> At(s, schedule, k).finish == 1
    {
      AtInv(s, schedule, k);
      ServedStays(s, schedule, n, k);
      InvSafe(At(s, schedule, k));
      if At(s, schedule, k).served == |s.customers| > 0 { ManagerTold(At(s, schedule, k)); }
    }
    NeverStuck(s, schedule, n);
    assert At(s, schedule, n).served == |s.customers|;
  }

  // ---- and fair schedules there are ----

  function Everyone(s: Shop): seq<Thread> {
    seq(|s.cooks|, i requires i >= 0 => Cook(i)) + seq(|s.cashiers|, i requires i >= 0 => Cashier(i))
    + seq(|s.customers|, i requires i >= 0 => Customer(i))
  }

  /** The place of the first thread that is ready, or the length if none is. */
  function FirstReady(s: Shop, order: seq<Thread>): (i: nat)
    ensures i <= |order| && (i < |order| ==> Ready(s, order[i]))
    ensures forall j | 0 <= j < i :: !Ready(s, order[j])
  {
    if order == [] || Ready(s, order[0]) then 0 else 1 + FirstReady(s, order[1..])
  }

  /** The shop and the order of the threads when the first that is ready moves and goes to the back. */
  function Turn(s: Shop, n: nat): (Shop, seq<Thread>) {
    if n == 0 then (s, Everyone(s)) else
      var (before, order) := Turn(s, n - 1);
      var i := FirstReady(before, order);
      if i == |order| then (before, order)
      else (Step(before, order[i]), order[..i] + order[i + 1..] + [order[i]])
  }

  function InTurn(s: Shop, n: nat): Thread {
    var (now, order) := Turn(s, n);
    var i := FirstReady(now, order);
    if i == |order| then Nobody else order[i]
  }

  /** The threads in turn, always the first that is ready. */
  function Turns(s: Shop): nat -> Thread {
    (n: nat) => InTurn(s, n)
  }

  lemma {:induction false} TurnIsAt(s: Shop, n: nat)
    ensures Turn(s, n).0 == At(s, Turns(s), n)
  {
    hide Step, Ready, Everyone;
    if n > 0 {
      TurnIsAt(s, n - 1);
      NobodyMoves(Turn(s, n - 1).0);
    }
  }

  lemma NobodyMoves(s: Shop)
    ensures Step(s, Nobody) == s
  {
  }

  lemma {:induction false} EveryoneStays(s: Shop, n: nat, t: Thread)
    requires t in Everyone(s)
    ensures t in Turn(s, n).1
  {
    hide Step, Ready, Everyone;
    if n > 0 {
      EveryoneStays(s, n - 1, t);
      var (before, order) := Turn(s, n - 1);
      var i := FirstReady(before, order);
      if i < |order| {
        assert order == order[..i] + [order[i]] + order[i + 1..];
      }
    }
  }

  /** A thread moves, or it keeps its place in the order or gets a better one; a better one, if it was ready. */
  lemma Advances(s: Shop, n: nat, t: Thread, p: nat) returns (p': nat)
    requires p < |Turn(s, n).1| && Turn(s, n).1[p] == t && InTurn(s, n) != t
    ensures p' < |Turn(s, n + 1).1| && Turn(s, n + 1).1[p'] == t && p' <= p
    ensures Ready(Turn(s, n).0, t) ==> p' < p
  {
    hide Step, Ready, Everyone;
    var (now, order) := Turn(s, n);
    var i := FirstReady(now, order);
    p' := if i < p then p - 1 else p;
  }

  lemma {:induction false} PlaceLater(s: Shop, n: nat, k: nat, t: Thread, p: nat) returns (p': nat)
    requires n <= k && p < |Turn(s, n).1| && Turn(s, n).1[p] == t && (forall j | n <= j < k :: InTurn(s, j) != t)
    ensures p' < |Turn(s, k).1| && Turn(s, k).1[p'] == t && p' <= p
    decreases k
  {
    hide Turn, InTurn;
    if n == k {
      p' := p;
    } else {
      var q := PlaceLater(s, n, k - 1, t, p);
      p' := Advances(s, k - 1, t, q);
    }
  }

  /** Each time a thread is ready and passed over, it comes closer to the front. */
  lemma {:induction false} IsChosen(s: Shop, n: nat, t: Thread, p: nat) returns (k: nat)
    requires p < |Turn(s, n).1| && Turn(s, n).1[p] == t && ReadyOften(s, Turns(s), t)
    ensures n <= k && InTurn(s, k) == t
    decreases p
  {
    hide Turn, InTurn, Ready, At;
    assert ReadyAfter(s, Turns(s), t, n);
    var r: nat :| n <= r && Ready(At(s, Turns(s), r), t);
    if j: nat :| n <= j <= r && InTurn(s, j) == t {
      k := j;
    } else {
      TurnIsAt(s, r);
      var q := PlaceLater(s, n, r, t, p);
      var q' := Advances(s, r, t, q);
      k := IsChosen(s, r + 1, t, q');
    }
  }

  /** Taking turns is a fair schedule of any shop. */
  lemma TurnsAreFair(s: Shop)
    ensures Fair(s, Turns(s))
  {
    hide Turn, InTurn, Ready, At, Everyone;
    var schedule := Turns(s);
    forall t: Thread, n: nat | ReadyOften(s, schedule, t) ensures ActsAfter(s, schedule, t, n) {
      ReadyIsSomeone(s, t);
      EveryoneStays(s, n, t);
      var p: nat :| p < |Turn(s, n).1| && Turn(s, n).1[p] == t;
      var k := IsChosen(s, n, t, p);
      ChosenIsReady(s, k, t);
      assert Acts(s, schedule, t, k);
    }
  }

  lemma ChosenIsReady(s: Shop, k: nat, t: Thread)
    requires InTurn(s, k) == t && t != Nobody
    ensures Ready(At(s, Turns(s), k), t)
  {
    hide Turn, Ready, At;
    TurnIsAt(s, k);
  }

  lemma {:induction false} AtSizes(s: Shop, schedule: nat -> Thread, n: nat)
    ensures var s' := At(s, schedule, n);
            |s'.cooks| == |s.cooks| && |s'.cashiers| == |s.cashiers| && |s'.customers| == |s.customers|
  {
    hide Step;
    if n > 0 {
      AtSizes(s, schedule, n - 1);
      StepSizes(At(s, schedule, n - 1), schedule(n - 1));
    }
  }

  lemma ReadyIsSomeone(s: Shop, t: Thread)
    requires ReadyOften(s, Turns(s), t)
    ensures t in Everyone(s) && t != Nobody
  {
    hide Turn, InTurn, At, CookReady, CashierReady, CustomerReady;
    var schedule := Turns(s);
    assert ReadyAfter(s, schedule, t, 0);
    var k: nat :| Ready(At(s, schedule, k), t);
    AtSizes(s, schedule, k);
    match t
    case Cook(i) => assert Everyone(s)[i] == t;
    case Cashier(i) => assert Everyone(s)[|s.cooks| + i] == t;
    case Customer(i) => assert Everyone(s)[|s.cooks| + |s.cashiers| + i] == t;
  }
}
