/** Runs of the shop of BurgerBuddies.c that show how far its guarantees go, and when the rack overflows. */
module ShopRuns {
  import opened CashierQueue
  import opened BurgerBuddies

  // ---- schedules in blocks ----

  function Times(t: Thread, n: nat): seq<Thread> {
    seq(n, _ => t)
  }

  lemma RunOnce(s: Shop, t: Thread)
    ensures Run(s, Times(t, 1)) == Step(s, t)
  {
    hide Step;
    assert Times(t, 1) == [t] && [t][..0] == [];
  }

  lemma RunTwice(s: Shop, t: Thread)
    ensures Run(s, Times(t, 2)) == Step(Step(s, t), t)
  {
    hide Step, Run;
    RunTimes(s, t, 1, 1);
    RunOnce(s, t);
    RunOnce(Step(s, t), t);
  }

  lemma RunTimes(s: Shop, t: Thread, m: nat, n: nat)
    ensures Run(s, Times(t, m + n)) == Run(Run(s, Times(t, m)), Times(t, n))
  {
    hide Run;
    assert Times(t, m + n) == Times(t, m) + Times(t, n);
    RunConcat(s, Times(t, m), Times(t, n));
  }

  // ---- one cook, one cashier, one customer, a rack for one burger ----

  function Trio(ring: Ring): Shop {
    Shop(1, [EnterKitchen], [LockQueue], [EnterLine], Nobody, Nobody, Nobody, Nobody, Nobody, Nobody,
         0, 0, 0, 0, ring, 0, 0, [0], 0, 0)
  }

  /** The cashier joins the empty queue. */
  lemma CashierQueuesUp(s: Shop, one: Ring)
    requires s.cashiers == [LockQueue] && s.queueLock == Nobody && s.waitForCashier == 0
    requires s.ring == Ring(0, -1, [0, 0]) && one == Ring(0, 0, [1, 0])
    ensures Run(s, Times(Cashier(0), 4)) == s.(cashiers := [AwaitOrder], ring := one)
  {
    hide Run;
    var t := Cashier(0);
    var s1 := s.(queueLock := t, cashiers := [Enqueue]);
    var s2 := s.(queueLock := t, cashiers := [TellCustomer], ring := one);
    RunTimes(s, t, 2, 2);
    RunTwice(s, t);
    assert Step(s, t) == s1;
    assert Step(s1, t) == s2 by { assert s.ring.Enqueue(1) == one; }
    RunTwice(s2, t);
    assert Step(s2, t) == s2.(cashiers := [UnlockQueue]);
    assert Step(s2.(cashiers := [UnlockQueue]), t) == s.(cashiers := [AwaitOrder], ring := one);
  }

  /** The customer takes the cashier out of the queue. */
  lemma CustomerTakesCashier(s: Shop, taken: Ring)
    requires s.customers == [EnterLine] && s.line == s.queueLock == Nobody
    requires s.ring == Ring(0, 0, [1, 0]) && taken == Ring(1, 0, [1, 0])
    ensures Run(s, Times(Customer(0), 4))
         == s.(customers := [ReleaseQueue(1)], line := Customer(0), queueLock := Customer(0), ring := taken)
  {
    hide Run;
    var t := Customer(0);
    var s1 := s.(line := t, customers := [ReachQueue]);
    var s2 := s1.(queueLock := t, customers := [CheckQueue]);
    var s3 := s2.(customers := [TakeCashier]);
    RunTimes(s, t, 2, 2);
    RunTwice(s, t);
    assert Step(s, t) == s1;
    assert Step(s1, t) == s2;
    RunTwice(s2, t);
    assert Step(s2, t) == s3;
    assert s.ring.Dequeue() == (taken, 1);
  }

  /** The customer calls the cashier and goes. */
  lemma CustomerGoes(s: Shop)
    requires s.customers == [ReleaseQueue(1)] && s.available == [0] && s.ring.Valid()
    ensures Run(s, Times(Customer(0), 3))
            == s.(customers := [Gone], queueLock := Nobody, line := Nobody, available := [1])
  {
    hide Run;
    var t := Customer(0);
    var s1 := s.(customers := [CallCashier(1)], queueLock := Nobody);
    var s2 := s1.(customers := [LeaveLine], available := [1]);
    RunTimes(s, t, 1, 2);
    RunOnce(s, t);
    assert Step(s, t) == s1;
    RunTwice(s1, t);
    assert Step(s1, t) == s2;
  }

  /** The cashier accepts the order and comes to the counter. */
  lemma CashierAccepts(s: Shop)
    requires s.cashiers == [AwaitOrder] && s.available == [1] && s.counter == Nobody && s.ring.Valid()
    ensures Run(s, Times(Cashier(0), 2)) == s.(cashiers := [OpenRack], available := [0], counter := Cashier(0))
  {
    hide Run;
    RunTwice(s, Cashier(0));
    assert Step(s, Cashier(0)) == s.(cashiers := [EnterCounter], available := [0]);
  }

  /** From an empty queue to an order at the counter. */
  function Order(): seq<Thread> {
    Times(Cashier(0), 4) + Times(Customer(0), 7) + Times(Cashier(0), 2)
  }

  lemma OrderPlaced(s: Shop)
    requires s.cashiers == [LockQueue] && s.customers == [EnterLine] && s.available == [0]
             && s.ring == Ring(0, -1, [0, 0])
    requires s.line == s.queueLock == s.counter == Nobody && s.waitForCashier == 0
    ensures Run(s, Order())
         == s.(cashiers := [OpenRack], customers := [Gone], counter := Cashier(0), ring := Ring(1, 0, [1, 0]))
  {
    hide Run;
    var one, taken := Ring(0, 0, [1, 0]), Ring(1, 0, [1, 0]);
    RunConcat(s, Times(Cashier(0), 4) + Times(Customer(0), 7), Times(Cashier(0), 2));
    RunConcat(s, Times(Cashier(0), 4), Times(Customer(0), 7));
    CashierQueuesUp(s, one);
    var s1 := s.(cashiers := [AwaitOrder], ring := one);
    RunTimes(s1, Customer(0), 4, 3);
    CustomerTakesCashier(s1, taken);
    CustomerGoes(s1.(customers := [ReleaseQueue(1)], line := Customer(0), queueLock := Customer(0), ring := taken));
    CashierAccepts(s1.(customers := [Gone], ring := taken, available := [1]));
  }

  /**
    A shop in which no cashier and no customer can move although nobody has announced that a burger is wanted: the cook
    has the rack.
   */
  lemma HeldUpByCook()
    ensures var s := Trio(Ring(0, -1, [0, 0])); var s' := Run(s, Order() + Times(Cook(0), 2));
            && Initial(s) && Blocked(s') && s'.served < |s'.customers|
            && Server(s') == OpenRack && s'.rackLock == Cook(0) && s'.rack == 0 && s'.waitForBurger == 0
  {
    hide Run, Order;
    var s := Trio(Ring(0, -1, [0, 0]));
    RunConcat(s, Order(), Times(Cook(0), 2));
    OrderPlaced(s);
    var s1 := Run(s, Order());
    RunTwice(s1, Cook(0));
    assert Step(s1, Cook(0)) == s1.(kitchen := Cook(0), cooks := [LockRack]);
  }

  // ---- the bound of the rack ----

  /** The rack is within its size, and nobody is about to add to a full one. */
  ghost predicate WithinRack(s: Shop) {
    s.rack <= s.racksize && (Chef(s) == AddBurger ==> s.rack < s.racksize)
  }

  /** A cook who waited for room comes back to a rack that is full. */
  predicate Overfills(s: Shop, t: Thread) {
    t.Cook? && Ready(s, t) && s.cooks[t.index] == ReturnToRack && s.rack >= s.racksize
  }

  lemma CookWithinRack(s: Shop, i: nat)
    requires LocksOk(s) && WithinRack(s) && i < |s.cooks| && CookReady(s, i)
    ensures WithinRack(CookStep(s, i)) <==> !Overfills(s, Cook(i))
  {
    hide LocksOk, Chef, Server, Greeter, Teller, Front;
    CookRoles(s, i);
  }

  lemma CashierWithinRack(s: Shop, i: nat)
    requires LocksOk(s) && WithinRack(s) && i < |s.cashiers| && s.ring.Valid() && CashierReady(s, i)
    ensures WithinRack(CashierStep(s, i))
  {
    hide LocksOk, Chef, Server, Greeter, Teller, Front;
    CashierRoles(s, i);
    hide RoleAfter;
  }

  lemma StepWithinRack(s: Shop, t: Thread)
    requires Inv(s) && WithinRack(s)
    ensures WithinRack(Step(s, t)) <==> !Overfills(s, t)
  {
    hide LocksOk, RackOk, QueueOk, CountOk, Chef, Server, Greeter, Teller, Front, CookStep, CashierStep, CustomerStep;
    if Ready(s, t) {
      match t
      case Cook(i) =>
        CookWithinRack(s, i);
      case Cashier(i) =>
        CashierWithinRack(s, i);
      case Customer(i) =>
        CustomerRoles(s, i);
        CustomerMoves(s, i);
    }
  }

  /** The bound holds at every point of a run. */
  ghost predicate AlwaysWithin(s: Shop, schedule: seq<Thread>) {
    forall n | 0 <= n <= |schedule| :: WithinRack(Run(s, schedule[..n]))
  }

  ghost predicate NeverOverfills(s: Shop, schedule: seq<Thread>) {
    forall n | 0 <= n < |schedule| :: !Overfills(Run(s, schedule[..n]), schedule[n])
  }

  lemma AlwaysWithinStep(s: Shop, schedule: seq<Thread>)
    requires schedule != []
    ensures AlwaysWithin(s, schedule) <==> AlwaysWithin(s, schedule[..|schedule| - 1]) && WithinRack(Run(s, schedule))
  {
    hide WithinRack, Run;
    var before := schedule[..|schedule| - 1];
    forall n | 0 <= n <= |schedule|
      ensures schedule[..n] == if n <= |before| then before[..n] else schedule
    {
    }
    if AlwaysWithin(s, schedule) {
      assert WithinRack(Run(s, schedule[..|schedule|]));
      forall n | 0 <= n <= |before| ensures WithinRack(Run(s, before[..n])) {
        assert WithinRack(Run(s, schedule[..n]));
      }
    }
  }

  lemma NeverOverfillsStep(s: Shop, schedule: seq<Thread>)
    requires schedule != []
    ensures var before, t := schedule[..|schedule| - 1], schedule[|schedule| - 1];
            NeverOverfills(s, schedule) <==> NeverOverfills(s, before) && !Overfills(Run(s, before), t)
  {
    hide Overfills, Run;
    var before := schedule[..|schedule| - 1];
    forall n | 0 <= n <= |before| ensures schedule[..n] == before[..n] {
    }
    if NeverOverfills(s, schedule) {
      forall n | 0 <= n < |before| ensures !Overfills(Run(s, before[..n]), before[n]) {
        assert !Overfills(Run(s, schedule[..n]), schedule[n]);
      }
    }
  }

  /** Over every run the bound holds exactly if no cook ever comes back from waiting to a full rack. */
  lemma {:induction false} RackBoundIff(s: Shop, schedule: seq<Thread>)
    requires Initial(s) && s.racksize >= 0
    ensures AlwaysWithin(s, schedule) <==> NeverOverfills(s, schedule)
  {
    hide AlwaysWithin, NeverOverfills, Inv, WithinRack, Overfills, Step, Initial;
    if schedule == [] {
      assert AlwaysWithin(s, []) && NeverOverfills(s, []) by { NothingRun(s); }
    } else {
      var before := schedule[..|schedule| - 1];
      RackBoundIff(s, before);
      AlwaysWithinStep(s, schedule);
      NeverOverfillsStep(s, schedule);
      InitialInv(s);
      RunInv(s, before);
      if AlwaysWithin(s, before) {
        AlwaysWithinEnd(s, before);
        StepWithinRack(Run(s, before), schedule[|schedule| - 1]);
      }
    }
  }

  lemma NothingRun(s: Shop)
    requires Initial(s) && s.racksize >= 0
    ensures AlwaysWithin(s, []) && NeverOverfills(s, [])
  {
    InitialWithin(s);
    RunNothing(s);
    hide WithinRack, Run;
  }

  lemma AlwaysWithinEnd(s: Shop, schedule: seq<Thread>)
    requires AlwaysWithin(s, schedule)
    ensures WithinRack(Run(s, schedule))
  {
    hide WithinRack, Run;
    assert schedule[..|schedule|] == schedule;
  }

  lemma InitialWithin(s: Shop)
    requires Initial(s) && s.racksize >= 0
    ensures WithinRack(s)
  {
  }

  lemma CookComes(s: Shop)
    requires s.cooks == [EnterKitchen] && s.kitchen == s.rackLock == Nobody
    ensures Run(s, Times(Cook(0), 3))
         == s.(cooks := [if s.rack == s.racksize then LeaveFull else AddBurger], kitchen := Cook(0),
             rackLock := Cook(0))
  {
    hide Run, CashierStep, CustomerStep;
    var t := Cook(0);
    var s1 := s.(cooks := [LockRack], kitchen := t);
    RunTimes(s, t, 1, 2);
    RunOnce(s, t);
    assert Step(s, t) == s1;
    RunTwice(s1, t);
    assert Step(s1, t) == s1.(cooks := [CheckFull], rackLock := t);
  }

  lemma CookAdds(s: Shop)
    requires s.cooks == [AddBurger] && s.waitForBurger == 0
    ensures Run(s, Times(Cook(0), 2)) == s.(cooks := [UnlockRack], rack := s.rack + 1)
  {
    hide Run, CashierStep, CustomerStep;
    RunTwice(s, Cook(0));
    assert Step(s, Cook(0)) == s.(cooks := [TellCashier], rack := s.rack + 1);
  }

  lemma CookLeaves(s: Shop)
    requires s.cooks == [UnlockRack]
    ensures Run(s, Times(Cook(0), 2)) == s.(cooks := [EnterKitchen], rackLock := Nobody, kitchen := Nobody)
  {
    hide Run, CashierStep, CustomerStep;
    RunTwice(s, Cook(0));
    assert Step(s, Cook(0)) == s.(cooks := [LeaveKitchen], rackLock := Nobody);
  }

  /** The cook waits for room, but is let through at once by what was posted before. */
  lemma CookPasses(s: Shop)
    requires s.cooks == [LeaveFull] && s.rackFull > 0
    ensures Run(s, Times(Cook(0), 3)) == s.(cooks := [AddBurger], rackLock := Cook(0), rackFull := s.rackFull - 1)
  {
    hide Run, CashierStep, CustomerStep;
    var t := Cook(0);
    var s1 := s.(cooks := [AwaitRoom], rackLock := Nobody);
    RunTimes(s, t, 1, 2);
    RunOnce(s, t);
    assert Step(s, t) == s1;
    RunTwice(s1, t);
    assert Step(s1, t) == s1.(cooks := [ReturnToRack], rackFull := s.rackFull - 1);
  }

  /** The cook makes a burger that nobody waits for, on a rack that is not full. */
  lemma CookMakesBurger(s: Shop)
    requires s.cooks == [EnterKitchen] && s.kitchen == s.rackLock == Nobody && s.rack != s.racksize
             && s.waitForBurger == 0
    ensures Run(s, Times(Cook(0), 7)) == s.(rack := s.rack + 1)
  {
    hide Run;
    var t := Cook(0);
    var s1 := s.(cooks := [AddBurger], kitchen := t, rackLock := t);
    RunTimes(s, t, 3, 4);
    CookComes(s);
    RunTimes(s1, t, 2, 2);
    CookAdds(s1);
    CookLeaves(s1.(cooks := [UnlockRack], rack := s.rack + 1));
  }

  /** The same on a full rack after a post that came too early. */
  lemma CookOverfills(s: Shop)
    requires s.cooks == [EnterKitchen] && s.kitchen == s.rackLock == Nobody && s.waitForBurger == 0
    requires s.rack == s.racksize && s.rackFull > 0
    ensures Run(s, Times(Cook(0), 8)).rack == s.rack + 1
  {
    hide Run;
    var t := Cook(0);
    var s1 := s.(cooks := [LeaveFull], kitchen := t, rackLock := t);
    RunTimes(s, t, 3, 5);
    CookComes(s);
    RunTimes(s1, t, 3, 2);
    CookPasses(s1);
    CookAdds(s1.(cooks := [AddBurger], rackFull := s.rackFull - 1));
  }

  lemma CashierTakes(s: Shop)
    requires s.cashiers == [OpenRack] && s.rackLock == Nobody && s.rack == 1 && s.ring.Valid()
    ensures Run(s, Times(Cashier(0), 3)) == s.(cashiers := [TellCook], rack := 0, rackLock := Cashier(0))
  {
    hide Run, QueueStep, CountStep, CookStep, CustomerStep;
    var t := Cashier(0);
    var s1 := s.(cashiers := [CheckEmpty], rackLock := t);
    RunTimes(s, t, 1, 2);
    RunOnce(s, t);
    assert Step(s, t) == s1;
    RunTwice(s1, t);
    assert Step(s1, t) == s1.(cashiers := [TakeBurger]);
  }

  lemma CashierTells(s: Shop)
    requires s.cashiers == [TellCook] && s.rack + 1 == s.racksize && s.ring.Valid()
    ensures Run(s, Times(Cashier(0), 2))
            == s.(cashiers := [LeaveCounter], rackLock := Nobody, rackFull := s.rackFull + 1)
  {
    hide Run, QueueStep, CountStep, CookStep, CustomerStep;
    RunTwice(s, Cashier(0));
    assert Step(s, Cashier(0)) == s.(cashiers := [CloseRack], rackFull := s.rackFull + 1);
  }

  /** The cashier takes the only burger of a full rack, and rackFull is posted though no cook waits. */
  lemma CashierTakesBurger(s: Shop)
    requires s.cashiers == [OpenRack] && s.rackLock == Nobody && s.rack == s.racksize == 1 && s.ring.Valid()
    ensures Run(s, Times(Cashier(0), 5)) == s.(cashiers := [LeaveCounter], rack := 0, rackFull := s.rackFull + 1)
  {
    hide Run;
    RunTimes(s, Cashier(0), 3, 2);
    CashierTakes(s);
    CashierTells(s.(cashiers := [TellCook], rack := 0, rackLock := Cashier(0)));
  }

  function Overflow(): seq<Thread> {
    Times(Cook(0), 7) + Order() + Times(Cashier(0), 5) + Times(Cook(0), 7) + Times(Cook(0), 8)
  }

  /** And it does happen: two burgers on a rack for one. */
  lemma RackOverflows()
    ensures var s := Trio(Ring(0, -1, [0, 0])); Initial(s) && s.racksize == 1 && Run(s, Overflow()).rack == 2
  {
    hide Run, Order;
    var s, made := Trio(Ring(0, -1, [0, 0])), Times(Cook(0), 7);
    var five := Times(Cashier(0), 5);
    RunConcat(s, made + Order() + five + made, Times(Cook(0), 8));
    RunConcat(s, made + Order() + five, made);
    RunConcat(s, made + Order(), five);
    RunConcat(s, made, Order());
    CookMakesBurger(s);
    var s1 := s.(rack := 1);
    OrderPlaced(s1);
    var s2 := s1.(cashiers := [OpenRack], customers := [Gone], counter := Cashier(0), ring := Ring(1, 0, [1, 0]));
    CashierTakesBurger(s2);
    var s3 := s2.(cashiers := [LeaveCounter], rack := 0, rackFull := 1);
    CookMakesBurger(s3);
    CookOverfills(s3.(rack := 1));
  }
}
