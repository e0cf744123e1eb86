/**
  The cooks, cashiers and customers of BurgerBuddies.c as interleaved steps: every thread has a program counter,
  a step is one blocking call or one stretch of statements whose data the held mutex protects, and a schedule is
  any order of threads. A thread that is blocked when scheduled does nothing.
 */
module BurgerBuddies {
  import opened Basics
  import opened CashierQueue

  datatype Thread = Nobody | Cook(index: nat) | Cashier(index: nat) | Customer(index: nat)

  datatype CookPc =
    | EnterKitchen | LockRack | CheckFull | LeaveFull | AwaitRoom | ReturnToRack
    | AddBurger | TellCashier | UnlockRack | LeaveKitchen

  datatype CashierPc =
    | LockQueue | Enqueue | TellCustomer | UnlockQueue | AwaitOrder
    | EnterCounter | OpenRack | CheckEmpty | NoteHungry | LeaveEmpty | AwaitBurger | ReopenRack
    | TakeBurger | TellCook | CloseRack | LeaveCounter
    | LockCount | Count | TellManager | UnlockCount

  /** `id` is the local variable serverID. */
  datatype CustomerPc =
    | EnterLine | ReachQueue | CheckQueue | NoteWaiting | LeaveQueue | AwaitCashier | ReturnToQueue
    | TakeCashier | ReleaseQueue(id: int) | CallCashier(id: int) | LeaveLine | Gone

  /** Threads, mutex owners (CK, checkRack, CA, queueMutex, CM, cntMutex), shared variables and semaphores. */
  datatype Shop = Shop(
    racksize: int,
    cooks: seq<CookPc>, cashiers: seq<CashierPc>, customers: seq<CustomerPc>,
    kitchen: Thread, rackLock: Thread, counter: Thread, queueLock: Thread, line: Thread, countLock: Thread,
    rack: int, waitForBurger: int, rackEmpty: nat, rackFull: nat,
    ring: Ring, waitForCashier: int, allBusy: nat, available: seq<nat>,
    served: int, finish: nat)

  ghost predicate Initial(s: Shop) {
    && (forall i | 0 <= i < |s.cooks| :: s.cooks[i] == EnterKitchen)
    && (forall i | 0 <= i < |s.cashiers| :: s.cashiers[i] == LockQueue)
    && (forall i | 0 <= i < |s.customers| :: s.customers[i] == EnterLine)
    && s.kitchen == s.rackLock == s.counter == s.queueLock == s.line == s.countLock == Nobody
    && s.rack == s.waitForBurger == s.rackEmpty == s.rackFull == 0
    && s.ring.head == 0 && s.ring.tail == -1 && |s.ring.buf| == |s.cashiers| + 1
    && s.waitForCashier == s.allBusy == 0
    && |s.available| == |s.cashiers| && (forall i | 0 <= i < |s.available| :: s.available[i] == 0)
    && s.served == s.finish == 0
  }

  // ---- one step of a thread ----

  predicate CookReady(s: Shop, i: nat)
    requires i < |s.cooks|
  {
    match s.cooks[i]
    case EnterKitchen => s.kitchen == Nobody
    case LockRack => s.rackLock == Nobody
    case ReturnToRack => s.rackLock == Nobody
    case AwaitRoom => s.rackFull > 0
    case _ => true
  }

  function CookStep(s: Shop, i: nat): Shop
    requires i < |s.cooks| && CookReady(s, i)
  {
    match s.cooks[i]
    case EnterKitchen => s.(kitchen := Cook(i), cooks := s.cooks[i := LockRack])
    case LockRack => s.(rackLock := Cook(i), cooks := s.cooks[i := CheckFull])
    case CheckFull => s.(cooks := s.cooks[i := if s.rack == s.racksize then LeaveFull else AddBurger])
    case LeaveFull => s.(rackLock := Nobody, cooks := s.cooks[i := AwaitRoom])
    case AwaitRoom => s.(rackFull := s.rackFull - 1, cooks := s.cooks[i := ReturnToRack])
    case ReturnToRack => s.(rackLock := Cook(i), cooks := s.cooks[i := AddBurger])
    case AddBurger => s.(rack := s.rack + 1, cooks := s.cooks[i := TellCashier])
    case TellCashier =>
      if s.rack == 1 && s.waitForBurger != 0
      then s.(waitForBurger := s.waitForBurger - 1, rackEmpty := s.rackEmpty + 1, cooks := s.cooks[i := UnlockRack])
      else s.(cooks := s.cooks[i := UnlockRack])
    case UnlockRack => s.(rackLock := Nobody, cooks := s.cooks[i := LeaveKitchen])
    case LeaveKitchen => s.(kitchen := Nobody, cooks := s.cooks[i := EnterKitchen])
  }

  predicate CashierReady(s: Shop, i: nat)
    requires i < |s.cashiers|
  {
    match s.cashiers[i]
    case LockQueue => s.queueLock == Nobody
    case AwaitOrder => i < |s.available| && s.available[i] > 0
    case EnterCounter => s.counter == Nobody
    case OpenRack => s.rackLock == Nobody
    case AwaitBurger => s.rackEmpty > 0
    case ReopenRack => s.rackLock == Nobody
    case LockCount => s.countLock == Nobody
    case _ => true
  }

  /** Joining the queue of available cashiers and waiting to be called. */
  function QueueStep(s: Shop, i: nat): Shop
    requires i < |s.cashiers| && CashierReady(s, i) && s.ring.Valid() && QueuePhase(s.cashiers[i])
  {
    match s.cashiers[i]
    case LockQueue => s.(queueLock := Cashier(i), cashiers := s.cashiers[i := Enqueue])
    case Enqueue => s.(ring := s.ring.Enqueue(i + 1), cashiers := s.cashiers[i := TellCustomer])
    case TellCustomer =>
      if s.ring.Size() == 1 && s.waitForCashier != 0
      then s.(waitForCashier := s.waitForCashier - 1, allBusy := s.allBusy + 1,
              cashiers := s.cashiers[i := UnlockQueue])
      else s.(cashiers := s.cashiers[i := UnlockQueue])
    case UnlockQueue => s.(queueLock := Nobody, cashiers := s.cashiers[i := AwaitOrder])
    case AwaitOrder => s.(available := s.available[i := s.available[i] - 1], cashiers := s.cashiers[i := EnterCounter])
  }

  /** Fetching a burger from the rack. */
  function CounterStep(s: Shop, i: nat): Shop
    requires i < |s.cashiers| && CashierReady(s, i) && CounterPhase(s.cashiers[i])
  {
    match s.cashiers[i]
    case EnterCounter => s.(counter := Cashier(i), cashiers := s.cashiers[i := OpenRack])
    case OpenRack => s.(rackLock := Cashier(i), cashiers := s.cashiers[i := CheckEmpty])
    case CheckEmpty => s.(cashiers := s.cashiers[i := if s.rack == 0 then NoteHungry else TakeBurger])
    case NoteHungry => s.(waitForBurger := s.waitForBurger + 1, cashiers := s.cashiers[i := LeaveEmpty])
    case LeaveEmpty => s.(rackLock := Nobody, cashiers := s.cashiers[i := AwaitBurger])
    case AwaitBurger => s.(rackEmpty := s.rackEmpty - 1, cashiers := s.cashiers[i := ReopenRack])
    case ReopenRack => s.(rackLock := Cashier(i), cashiers := s.cashiers[i := TakeBurger])
    case TakeBurger => s.(rack := s.rack - 1, cashiers := s.cashiers[i := TellCook])
    case TellCook =>
      s.(rackFull := if s.rack + 1 == s.racksize then s.rackFull + 1 else s.rackFull,
         cashiers := s.cashiers[i := CloseRack])
    case CloseRack => s.(rackLock := Nobody, cashiers := s.cashiers[i := LeaveCounter])
    case LeaveCounter => s.(counter := Nobody, cashiers := s.cashiers[i := LockCount])
  }

  /** Counting the customer served. */
  function CountStep(s: Shop, i: nat): Shop
    requires i < |s.cashiers| && CashierReady(s, i) && CountPhase(s.cashiers[i])
  {
    match s.cashiers[i]
    case LockCount => s.(countLock := Cashier(i), cashiers := s.cashiers[i := Count])
    case Count => s.(served := s.served + 1, cashiers := s.cashiers[i := TellManager])
    case TellManager =>
      s.(finish := if s.served == |s.customers| then s.finish + 1 else s.finish,
         cashiers := s.cashiers[i := UnlockCount])
    case UnlockCount => s.(countLock := Nobody, cashiers := s.cashiers[i := LockQueue])
  }

  predicate QueuePhase(p: CashierPc) { AtQueue(p) || p.LockQueue? || p.AwaitOrder? }
  predicate CountPhase(p: CashierPc) { Counting(p) || p.LockCount? }
  predicate CounterPhase(p: CashierPc) { !QueuePhase(p) && !CountPhase(p) }

  function CashierStep(s: Shop, i: nat): Shop
    requires i < |s.cashiers| && CashierReady(s, i) && s.ring.Valid()
  {
    if QueuePhase(s.cashiers[i]) then QueueStep(s, i)
    else if CountPhase(s.cashiers[i]) then CountStep(s, i)
    else CounterStep(s, i)
  }

  predicate CustomerReady(s: Shop, i: nat)
    requires i < |s.customers|
  {
    match s.customers[i]
    case EnterLine => s.line == Nobody
    case ReachQueue => s.queueLock == Nobody
    case AwaitCashier => s.allBusy > 0
    case ReturnToQueue => s.queueLock == Nobody
    case Gone => false
    case _ => true
  }

  /** Posting a semaphore that does not exist is left undone; Safety shows that it is never asked for. */
  function CustomerStep(s: Shop, i: nat): Shop
    requires i < |s.customers| && CustomerReady(s, i) && s.ring.Valid()
  {
    match s.customers[i]
    case EnterLine => s.(line := Customer(i), customers := s.customers[i := ReachQueue])
    case ReachQueue => s.(queueLock := Customer(i), customers := s.customers[i := CheckQueue])
    case CheckQueue => s.(customers := s.customers[i := if s.ring.Size() == 0 then NoteWaiting else TakeCashier])
    case NoteWaiting => s.(waitForCashier := s.waitForCashier + 1, customers := s.customers[i := LeaveQueue])
    case LeaveQueue => s.(queueLock := Nobody, customers := s.customers[i := AwaitCashier])
    case AwaitCashier => s.(allBusy := s.allBusy - 1, customers := s.customers[i := ReturnToQueue])
    case ReturnToQueue => s.(queueLock := Customer(i), customers := s.customers[i := TakeCashier])
    case TakeCashier => var (r, id) := s.ring.Dequeue(); s.(ring := r, customers := s.customers[i := ReleaseQueue(id)])
    case ReleaseQueue(id) => s.(queueLock := Nobody, customers := s.customers[i := CallCashier(id)])
    case CallCashier(id) =>
      s.(available := if 1 <= id <= |s.available| then s.available[id - 1 := s.available[id - 1] + 1] else s.available,
         customers := s.customers[i := LeaveLine])
    case LeaveLine => s.(line := Nobody, customers := s.customers[i := Gone])
  }

  predicate Ready(s: Shop, t: Thread) {
    match t
    case Nobody => false
    case Cook(i) => i < |s.cooks| && CookReady(s, i)
    case Cashier(i) => i < |s.cashiers| && s.ring.Valid() && CashierReady(s, i)
    case Customer(i) => i < |s.customers| && s.ring.Valid() && CustomerReady(s, i)
  }

  function Step(s: Shop, t: Thread): Shop {
    if !Ready(s, t) then s else
      match t
      case Cook(i) => CookStep(s, i)
      case Cashier(i) => CashierStep(s, i)
      case Customer(i) => CustomerStep(s, i)
  }

  /** A whole run under a schedule. */
  function Run(s: Shop, schedule: seq<Thread>): Shop {
    if schedule == [] then s else Step(Run(s, schedule[..|schedule| - 1]), schedule[|schedule| - 1])
  }

  // ---- mutual exclusion ----

  predicate InKitchen(p: CookPc) { !p.EnterKitchen? }
  predicate CookAtRack(p: CookPc) { p.CheckFull? || p.LeaveFull? || p.AddBurger? || p.TellCashier? || p.UnlockRack? }
  predicate AtQueue(p: CashierPc) { p.Enqueue? || p.TellCustomer? || p.UnlockQueue? }
  predicate AtRack(p: CashierPc) {
    p.CheckEmpty? || p.NoteHungry? || p.LeaveEmpty? || p.TakeBurger? || p.TellCook? || p.CloseRack?
  }
  predicate AtCounter(p: CashierPc) { AtRack(p) || p.OpenRack? || p.AwaitBurger? || p.ReopenRack? || p.LeaveCounter? }
  predicate Counting(p: CashierPc) { p.Count? || p.TellManager? || p.UnlockCount? }
  predicate InLine(p: CustomerPc) { !p.EnterLine? && !p.Gone? }
  predicate CustomerAtQueue(p: CustomerPc) {
    p.CheckQueue? || p.NoteWaiting? || p.LeaveQueue? || p.TakeCashier? || p.ReleaseQueue?
  }

  function CookOf(t: Thread): int { if t.Cook? then t.index else -1 }
  function CashierOf(t: Thread): int { if t.Cashier? then t.index else -1 }
  function CustomerOf(t: Thread): int { if t.Customer? then t.index else -1 }

  /** Exactly the owner of a mutex, if there is one among these threads, is inside its section. */
  ghost predicate Owns<P(!new)>(pcs: seq<P>, owner: int, inside: P -> bool) {
    -1 <= owner < |pcs| && forall i | 0 <= i < |pcs| :: owner == i <==> inside(pcs[i])
  }

  ghost predicate LocksOk(s: Shop) {
    && Owns(s.cooks, CookOf(s.kitchen), InKitchen)
    && Owns(s.cooks, CookOf(s.rackLock), CookAtRack)
    && Owns(s.cashiers, CashierOf(s.rackLock), AtRack)
    && Owns(s.cashiers, CashierOf(s.counter), AtCounter)
    && Owns(s.cashiers, CashierOf(s.queueLock), AtQueue)
    && Owns(s.cashiers, CashierOf(s.countLock), Counting)
    && Owns(s.customers, CustomerOf(s.line), InLine)
    && Owns(s.customers, CustomerOf(s.queueLock), CustomerAtQueue)
    && (s.kitchen.Nobody? || s.kitchen.Cook?) && (s.counter.Nobody? || s.counter.Cashier?)
    && (s.line.Nobody? || s.line.Customer?) && (s.countLock.Nobody? || s.countLock.Cashier?)
    && !s.rackLock.Customer? && !s.queueLock.Cook?
  }

  lemma OwnsKept<P(!new)>(pcs: seq<P>, owner: int, inside: P -> bool, i: nat, p: P, owner': int)
    requires Owns(pcs, owner, inside) && i < |pcs|
    requires if inside(pcs[i]) == inside(p) then owner' == owner
             else if inside(p) then owner == -1 && owner' == i
             else owner' == -1
    ensures Owns(pcs[i := p], owner', inside)
  {
  }

  /** How one step of thread `t` moves a mutex, given whether `t` is in its section before and after. */
  ghost predicate Moves(lock: Thread, lock': Thread, t: Thread, was: bool, now: bool) {
    if was == now then lock' == lock else if now then lock == Nobody && lock' == t else lock' == Nobody
  }

  lemma CookMoves(s: Shop, i: nat)
    requires i < |s.cooks| && CookReady(s, i)
    ensures var s' := CookStep(s, i);
            && |s'.cooks| == |s.cooks| && s'.cooks == s.cooks[i := s'.cooks[i]]
            && Moves(s.kitchen, s'.kitchen, Cook(i), InKitchen(s.cooks[i]), InKitchen(s'.cooks[i]))
            && Moves(s.rackLock, s'.rackLock, Cook(i), CookAtRack(s.cooks[i]), CookAtRack(s'.cooks[i]))
            && s' == s.(cooks := s'.cooks, kitchen := s'.kitchen, rackLock := s'.rackLock, rack := s'.rack,
                        waitForBurger := s'.waitForBurger, rackEmpty := s'.rackEmpty, rackFull := s'.rackFull)
  {
  }

  ghost predicate CashierMoved(s: Shop, s': Shop, i: nat)
    requires i < |s.cashiers|
  {
    && |s'.cashiers| == |s.cashiers| && s'.cashiers == s.cashiers[i := s'.cashiers[i]]
    && Moves(s.counter, s'.counter, Cashier(i), AtCounter(s.cashiers[i]), AtCounter(s'.cashiers[i]))
    && Moves(s.rackLock, s'.rackLock, Cashier(i), AtRack(s.cashiers[i]), AtRack(s'.cashiers[i]))
    && Moves(s.queueLock, s'.queueLock, Cashier(i), AtQueue(s.cashiers[i]), AtQueue(s'.cashiers[i]))
    && Moves(s.countLock, s'.countLock, Cashier(i), Counting(s.cashiers[i]), Counting(s'.cashiers[i]))
    && s'.cooks == s.cooks && s'.kitchen == s.kitchen && s'.customers == s.customers && s'.line == s.line
    && s'.racksize == s.racksize
  }

  lemma QueueMoves(s: Shop, i: nat)
    requires i < |s.cashiers| && s.ring.Valid() && CashierReady(s, i) && QueuePhase(s.cashiers[i])
    ensures CashierMoved(s, QueueStep(s, i), i)
  {
  }

  lemma CounterMoves(s: Shop, i: nat)
    requires i < |s.cashiers| && CashierReady(s, i) && CounterPhase(s.cashiers[i])
    ensures CashierMoved(s, CounterStep(s, i), i)
  {
  }

  lemma CountMoves(s: Shop, i: nat)
    requires i < |s.cashiers| && CashierReady(s, i) && CountPhase(s.cashiers[i])
    ensures CashierMoved(s, CountStep(s, i), i)
  {
  }

  lemma CashierMoves(s: Shop, i: nat)
    requires i < |s.cashiers| && s.ring.Valid() && CashierReady(s, i)
    ensures CashierMoved(s, CashierStep(s, i), i)
  {
    hide QueueStep, CountStep, CounterStep, CashierMoved;
    if QueuePhase(s.cashiers[i]) {
      QueueMoves(s, i);
    } else if CountPhase(s.cashiers[i]) {
      CountMoves(s, i);
    } else {
      CounterMoves(s, i);
    }
  }

  lemma CustomerMoves(s: Shop, i: nat)
    requires i < |s.customers| && s.ring.Valid() && CustomerReady(s, i)
    ensures var s' := CustomerStep(s, i);
            && |s'.customers| == |s.customers| && s'.customers == s.customers[i := s'.customers[i]]
            && Moves(s.line, s'.line, Customer(i), InLine(s.customers[i]), InLine(s'.customers[i]))
            && Moves(s.queueLock, s'.queueLock, Customer(i), CustomerAtQueue(s.customers[i]),
                CustomerAtQueue(s'.customers[i]))
            && s' == s.(customers := s'.customers, line := s'.line, queueLock := s'.queueLock, ring := s'.ring,
                        waitForCashier := s'.waitForCashier, allBusy := s'.allBusy, available := s'.available)
  {
  }

  lemma CookStepLocks(s: Shop, i: nat)
    requires LocksOk(s) && i < |s.cooks| && CookReady(s, i)
    ensures LocksOk(CookStep(s, i))
  {
    hide CookStep, InKitchen, CookAtRack;
    CookMoves(s, i);
    hide Owns;
    var s' := CookStep(s, i);
    OwnsKept(s.cooks, CookOf(s.kitchen), InKitchen, i, s'.cooks[i], CookOf(s'.kitchen));
    OwnsKept(s.cooks, CookOf(s.rackLock), CookAtRack, i, s'.cooks[i], CookOf(s'.rackLock));
    OwnsAt(s.cooks, CookOf(s.rackLock), CookAtRack, i);
  }

  lemma OwnsAt<P(!new)>(pcs: seq<P>, owner: int, inside: P -> bool, i: nat)
    requires Owns(pcs, owner, inside) && i < |pcs|
    ensures inside(pcs[i]) <==> owner == i
  {
  }

  lemma CashierStepLocks(s: Shop, i: nat)
    requires LocksOk(s) && i < |s.cashiers| && s.ring.Valid() && CashierReady(s, i)
    ensures LocksOk(CashierStep(s, i))
  {
    hide CashierStep, AtCounter, AtRack, AtQueue, Counting;
    CashierMoves(s, i);
    hide Owns;
    var s' := CashierStep(s, i);
    OwnsKept(s.cashiers, CashierOf(s.rackLock), AtRack, i, s'.cashiers[i], CashierOf(s'.rackLock));
    OwnsKept(s.cashiers, CashierOf(s.counter), AtCounter, i, s'.cashiers[i], CashierOf(s'.counter));
    OwnsKept(s.cashiers, CashierOf(s.queueLock), AtQueue, i, s'.cashiers[i], CashierOf(s'.queueLock));
    OwnsKept(s.cashiers, CashierOf(s.countLock), Counting, i, s'.cashiers[i], CashierOf(s'.countLock));
    OwnsAt(s.cashiers, CashierOf(s.rackLock), AtRack, i);
    OwnsAt(s.cashiers, CashierOf(s.queueLock), AtQueue, i);
  }

  lemma CustomerStepLocks(s: Shop, i: nat)
    requires LocksOk(s) && i < |s.customers| && s.ring.Valid() && CustomerReady(s, i)
    ensures LocksOk(CustomerStep(s, i))
  {
    hide CustomerStep, InLine, CustomerAtQueue;
    CustomerMoves(s, i);
    hide Owns;
    var s' := CustomerStep(s, i);
    OwnsKept(s.customers, CustomerOf(s.line), InLine, i, s'.customers[i], CustomerOf(s'.line));
    OwnsKept(s.customers, CustomerOf(s.queueLock), CustomerAtQueue, i, s'.customers[i], CustomerOf(s'.queueLock));
    OwnsAt(s.customers, CustomerOf(s.queueLock), CustomerAtQueue, i);
  }

  // ---- the thread in each section ----

  function Role<P>(pcs: seq<P>, owner: int, rest: P): P { if 0 <= owner < |pcs| then pcs[owner] else rest }

  /** The cook in the kitchen, the cashiers at the counter, at the queue and at the count, the customer at the front. */
  function Chef(s: Shop): CookPc { Role(s.cooks, CookOf(s.kitchen), EnterKitchen) }
  function Server(s: Shop): CashierPc { Role(s.cashiers, CashierOf(s.counter), EnterCounter) }
  function Greeter(s: Shop): CashierPc { Role(s.cashiers, CashierOf(s.queueLock), LockQueue) }
  function Teller(s: Shop): CashierPc { Role(s.cashiers, CashierOf(s.countLock), LockCount) }
  function Front(s: Shop): CustomerPc { Role(s.customers, CustomerOf(s.line), EnterLine) }

  lemma RoleMoves<P(!new)>(pcs: seq<P>, owner: int, inside: P -> bool, i: nat, p: P, owner': int, rest: P)
    requires Owns(pcs, owner, inside) && i < |pcs|
    requires if inside(pcs[i]) == inside(p) then owner' == owner
             else if inside(p) then owner == -1 && owner' == i
             else owner' == -1
    ensures inside(pcs[i]) ==> Role(pcs, owner, rest) == pcs[i]
    ensures inside(p) && !inside(pcs[i]) ==> Role(pcs, owner, rest) == rest
    ensures Role(pcs[i := p], owner', rest)
         == if inside(p) then p else if inside(pcs[i]) then rest else Role(pcs, owner, rest)
  {
  }

  /** Nobody is at the rack with the cook, or at the queue with the customer. */
  lemma Exclusion(s: Shop)
    requires LocksOk(s)
    ensures CookAtRack(Chef(s)) ==> !AtRack(Server(s))
    ensures CustomerAtQueue(Front(s)) ==> !AtQueue(Greeter(s))
  {
    hide CookAtRack, AtRack, CustomerAtQueue, AtQueue, InKitchen, AtCounter, InLine, Counting;
    assert !CookAtRack(EnterKitchen) && !AtRack(EnterCounter) && !CustomerAtQueue(EnterLine) && !AtQueue(LockQueue) by {
      SectionDefaults();
    }
  }

  lemma SectionDefaults()
    ensures !CookAtRack(EnterKitchen) && !AtRack(EnterCounter) && !CustomerAtQueue(EnterLine) && !AtQueue(LockQueue)
  {
  }

  lemma CookRoles(s: Shop, i: nat)
    requires LocksOk(s) && i < |s.cooks| && CookReady(s, i)
    ensures var s' := CookStep(s, i);
            && Chef(s) == s.cooks[i] && |s'.cooks| == |s.cooks| && Chef(s') == s'.cooks[i]
            && Server(s') == Server(s) && Greeter(s') == Greeter(s) && Teller(s') == Teller(s) && Front(s') == Front(s)
  {
    hide Owns, Role, CookAtRack;
    CookMoves(s, i);
    assert InKitchen(s.cooks[i]) || InKitchen(CookStep(s, i).cooks[i]);
    hide CookStep;
    var s' := CookStep(s, i);
    RoleMoves(s.cooks, CookOf(s.kitchen), InKitchen, i, s'.cooks[i], CookOf(s'.kitchen), EnterKitchen);
  }

  lemma CustomerRoles(s: Shop, i: nat)
    requires LocksOk(s) && i < |s.customers| && s.ring.Valid() && CustomerReady(s, i)
    ensures var s' := CustomerStep(s, i);
            && Front(s) == s.customers[i] && |s'.customers| == |s.customers|
            && Front(s') == (if s'.customers[i] == Gone then EnterLine else s'.customers[i])
            && Chef(s') == Chef(s) && Server(s') == Server(s) && Greeter(s') == Greeter(s) && Teller(s') == Teller(s)
  {
    hide Owns, Role, CustomerAtQueue;
    CustomerMoves(s, i);
    assert InLine(s.customers[i]) || InLine(CustomerStep(s, i).customers[i]);
    assert CustomerStep(s, i).customers[i] != EnterLine;
    hide CustomerStep;
    var s' := CustomerStep(s, i);
    RoleMoves(s.customers, CustomerOf(s.line), InLine, i, s'.customers[i], CustomerOf(s'.line), EnterLine);
    OwnsAt(s.customers, CustomerOf(s.queueLock), CustomerAtQueue, i);
    GreeterStays(s, s');
  }

  lemma GreeterStays(s: Shop, s': Shop)
    requires s'.cashiers == s.cashiers && CashierOf(s'.queueLock) == CashierOf(s.queueLock)
    ensures Greeter(s') == Greeter(s)
  {
  }

  /** The role of a section after a cashier went from `p` to `p'`. */
  function RoleAfter(inside: CashierPc -> bool, before: CashierPc, p: CashierPc, p': CashierPc,
                     rest: CashierPc): CashierPc {
    if inside(p') then p' else if inside(p) then rest else before
  }

  lemma CashierRoles(s: Shop, i: nat)
    requires LocksOk(s) && i < |s.cashiers| && s.ring.Valid() && CashierReady(s, i)
    ensures var s', p := CashierStep(s, i), s.cashiers[i];
            && |s'.cashiers| == |s.cashiers| && Chef(s') == Chef(s) && Front(s') == Front(s)
            && (AtCounter(p) ==> Server(s) == p) && (AtQueue(p) ==> Greeter(s) == p) && (Counting(p) ==> Teller(s) == p)
            && (AtCounter(s'.cashiers[i]) && !AtCounter(p) ==> Server(s) == EnterCounter)
            && (AtQueue(s'.cashiers[i]) && !AtQueue(p) ==> Greeter(s) == LockQueue)
            && (Counting(s'.cashiers[i]) && !Counting(p) ==> Teller(s) == LockCount)
            && Server(s') == RoleAfter(AtCounter, Server(s), p, s'.cashiers[i], EnterCounter)
            && Greeter(s') == RoleAfter(AtQueue, Greeter(s), p, s'.cashiers[i], LockQueue)
            && Teller(s') == RoleAfter(Counting, Teller(s), p, s'.cashiers[i], LockCount)
  {
    hide Owns, Role, AtRack, AtCounter, AtQueue, Counting, CashierStep;
    CashierMoves(s, i);
    var s' := CashierStep(s, i);
    var p' := s'.cashiers[i];
    RoleMoves(s.cashiers, CashierOf(s.counter), AtCounter, i, p', CashierOf(s'.counter), EnterCounter);
    RoleMoves(s.cashiers, CashierOf(s.queueLock), AtQueue, i, p', CashierOf(s'.queueLock), LockQueue);
    RoleMoves(s.cashiers, CashierOf(s.countLock), Counting, i, p', CashierOf(s'.countLock), LockCount);
  }

  // ---- the handshake at the queue ----

  /** A waiting customer is announced once, and is called as soon as somebody is in the queue. */
  ghost predicate QueueSignals(front: CustomerPc, greeter: CashierPc, n: nat, waiting: int, called: nat) {
    && waiting >= 0
    && waiting + called == (if front.LeaveQueue? || front.AwaitCashier? then 1 else 0)
    && (front.NoteWaiting? || front.LeaveQueue? ==> n == 0)
    && (called > 0 || front.ReturnToQueue? || front.TakeCashier? ==> n > 0)
    && (waiting > 0 && n > 0 ==> n == 1 && greeter == TellCustomer)
  }

  ghost predicate FrontOk(s: Shop)
    requires s.ring.Valid()
  {
    QueueSignals(Front(s), Greeter(s), |s.ring.Contents()|, s.waitForCashier, s.allBusy)
  }

  // ---- the handshake at the rack ----

  /** The rack never goes negative, and a waiting cashier is announced once and called with the first burger. */
  ghost predicate RackSignals(server: CashierPc, chef: CookPc, rack: int, waiting: int, called: nat) {
    && waiting >= 0 && rack >= 0
    && waiting + called == (if server.LeaveEmpty? || server.AwaitBurger? then 1 else 0)
    && (server.NoteHungry? || server.LeaveEmpty? ==> rack == 0)
    && (called > 0 || server.ReopenRack? || server.TakeBurger? ==> rack > 0)
    && (waiting > 0 && rack > 0 ==> rack == 1 && chef == TellCashier)
    && (chef == TellCashier ==> rack > 0)
  }

  /** A cook waits for room only while the rack is exactly full, or while a cashier is about to signal. */
  ghost predicate RoomSignals(server: CashierPc, chef: CookPc, rack: int, racksize: int, rackFull: nat) {
    (chef.LeaveFull? || chef.AwaitRoom?) && rackFull == 0 ==>
      rack == racksize || (server == TellCook && rack + 1 == racksize)
  }

  ghost predicate RackOk(s: Shop) {
    && RackSignals(Server(s), Chef(s), s.rack, s.waitForBurger, s.rackEmpty)
    && RoomSignals(Server(s), Chef(s), s.rack, s.racksize, s.rackFull)
  }

  lemma CookStepRack(s: Shop, i: nat)
    requires LocksOk(s) && RackOk(s) && i < |s.cooks| && CookReady(s, i)
    ensures RackOk(CookStep(s, i))
  {
    hide LocksOk, Chef, Server;
    CookRoles(s, i);
    Exclusion(s);
  }

  lemma CounterStepRack(s: Shop, i: nat)
    requires LocksOk(s) && RackOk(s) && i < |s.cashiers| && s.ring.Valid() && CashierReady(s, i)
             && CounterPhase(s.cashiers[i])
    ensures RackOk(CounterStep(s, i))
  {
    hide LocksOk, Chef, Server, Greeter, Teller, RackSignals, RoomSignals, CounterStep;
    CashierRoles(s, i);
    Exclusion(s);
    var s' := CounterStep(s, i);
    var p, p' := s.cashiers[i], s'.cashiers[i];
    assert Server(s) == p && Server(s') == (if p' == LockCount then EnterCounter else p') by { CounterPcs(s, i); }
    CounterStepBurger(s, i);
    CounterStepRoom(s, i);
  }

  lemma CounterPcs(s: Shop, i: nat)
    requires i < |s.cashiers| && CashierReady(s, i) && CounterPhase(s.cashiers[i])
    ensures var s' := CounterStep(s, i);
            && |s'.cashiers| == |s.cashiers| && (AtCounter(s.cashiers[i]) || s.cashiers[i] == EnterCounter)
            && (AtCounter(s'.cashiers[i]) <==> s'.cashiers[i] != LockCount)
            && (s.cashiers[i] == EnterCounter ==> AtCounter(s'.cashiers[i]))
  {
  }

  lemma CounterStepBurger(s: Shop, i: nat)
    requires i < |s.cashiers| && CashierReady(s, i) && CounterPhase(s.cashiers[i])
             && (CookAtRack(Chef(s)) ==> !AtRack(s.cashiers[i]))
    requires RackSignals(s.cashiers[i], Chef(s), s.rack, s.waitForBurger, s.rackEmpty)
    ensures var s' := CounterStep(s, i);
            && |s'.cashiers| == |s.cashiers|
            && var p' := s'.cashiers[i];
               RackSignals(if p' == LockCount then EnterCounter else p', Chef(s),
                           s'.rack, s'.waitForBurger, s'.rackEmpty)
  {
    hide Chef;
  }

  lemma CounterStepRoom(s: Shop, i: nat)
    requires i < |s.cashiers| && CashierReady(s, i) && CounterPhase(s.cashiers[i])
             && (CookAtRack(Chef(s)) ==> !AtRack(s.cashiers[i]))
    requires RoomSignals(s.cashiers[i], Chef(s), s.rack, s.racksize, s.rackFull)
    ensures var s' := CounterStep(s, i);
            && |s'.cashiers| == |s.cashiers| && s'.racksize == s.racksize
            && var p' := s'.cashiers[i];
               RoomSignals(if p' == LockCount then EnterCounter else p', Chef(s), s'.rack, s'.racksize, s'.rackFull)
  {
    hide Chef;
  }

  lemma OtherStepRack(s: Shop, i: nat)
    requires LocksOk(s) && RackOk(s) && i < |s.cashiers| && s.ring.Valid() && CashierReady(s, i)
             && !CounterPhase(s.cashiers[i])
    ensures RackOk(CashierStep(s, i))
  {
    hide LocksOk, Chef, Server, Greeter, Teller, RackSignals, RoomSignals;
    CashierRoles(s, i);
  }

  lemma CustomerStepRack(s: Shop, i: nat)
    requires LocksOk(s) && RackOk(s) && i < |s.customers| && s.ring.Valid() && CustomerReady(s, i)
    ensures RackOk(CustomerStep(s, i))
  {
    hide LocksOk, Chef, Server, RackSignals, RoomSignals, CustomerStep;
    CustomerRoles(s, i);
    CustomerMoves(s, i);
  }

  // ---- who is available ----

  /** A cashier who has queued up and has not yet accepted an order. */
  predicate Out(p: CashierPc) { p.TellCustomer? || p.UnlockQueue? || p.AwaitOrder? }

  function Carried(front: CustomerPc): int { if front.ReleaseQueue? || front.CallCashier? then front.id else 0 }

  function Bit(b: bool): nat { if b then 1 else 0 }

  /**
    Every such cashier is in the queue, in the hands of the customer at the front, or called: exactly one of them,
    exactly once.
   */
  ghost predicate Tokens(queue: seq<int>, front: CustomerPc, available: seq<nat>, cashiers: seq<CashierPc>) {
    && |available| == |cashiers|
    && (front.ReleaseQueue? || front.CallCashier? ==> 1 <= front.id <= |cashiers|)
    && (forall k | 0 <= k < |queue| :: 1 <= queue[k] <= |cashiers|)
    && NoDups(queue)
    && (forall i | 0 <= i < |cashiers| ::
        Bit(i + 1 in queue) + Bit(Carried(front) == i + 1) + available[i] == Bit(Out(cashiers[i])))
  }

  ghost predicate TokensOk(s: Shop) {
    s.ring.Valid() && |s.ring.buf| == |s.cashiers| + 1 && Tokens(s.ring.Contents(), Front(s), s.available, s.cashiers)
  }

  /** Distinct ids in 1..m that leave one out are fewer than m. */
  lemma {:induction false} DistinctBound(ids: seq<int>, m: nat, missing: int)
    requires NoDups(ids) && 1 <= missing <= m && missing !in ids
    requires forall k | 0 <= k < |ids| :: 1 <= ids[k] <= m
    ensures |ids| < m
    decreases m
  {
    if ids != [] {
      if k :| 0 <= k < |ids| && ids[k] == m {
        var rest := ids[..k] + ids[k + 1..];
        DistinctBound(rest, m - 1, missing);
      } else if missing == m {
        DistinctBound(ids[..|ids| - 1], m - 1, ids[|ids| - 1]);
      } else {
        DistinctBound(ids, m - 1, missing);
      }
    }
  }

  lemma AppendMembers(ids: seq<int>, id: int)
    ensures forall x: int :: x in ids + [id] <==> x in ids || x == id
  {
  }

  lemma FirstMembers(ids: seq<int>)
    requires ids != [] && NoDups(ids)
    ensures forall x: int :: x in ids <==> x in ids[1..] || x == ids[0]
    ensures ids[0] !in ids[1..]
  {
    assert ids == [ids[0]] + ids[1..];
  }

  lemma TokenEnqueue(queue: seq<int>, front: CustomerPc, available: seq<nat>, cashiers: seq<CashierPc>, i: nat)
    requires Tokens(queue, front, available, cashiers) && i < |cashiers| && cashiers[i] == Enqueue
    ensures |queue| < |cashiers| && Tokens(queue + [i + 1], front, available, cashiers[i := TellCustomer])
  {
    assert Bit(i + 1 in queue) == 0;
    DistinctBound(queue, |cashiers|, i + 1);
    var queue' := queue + [i + 1];
    AppendMembers(queue, i + 1);
  }

  lemma TokenMove(queue: seq<int>, front: CustomerPc, available: seq<nat>, cashiers: seq<CashierPc>, i: nat,
                  p: CashierPc)
    requires Tokens(queue, front, available, cashiers) && i < |cashiers| && Out(cashiers[i]) == Out(p)
    ensures Tokens(queue, front, available, cashiers[i := p])
  {
    hide Out;
  }

  lemma TokenAccept(queue: seq<int>, front: CustomerPc, available: seq<nat>, cashiers: seq<CashierPc>, i: nat)
    requires Tokens(queue, front, available, cashiers) && i < |cashiers| && cashiers[i] == AwaitOrder
             && available[i] > 0
    ensures Tokens(queue, front, available[i := available[i] - 1], cashiers[i := EnterCounter])
  {
  }

  lemma TokenTake(queue: seq<int>, front: CustomerPc, available: seq<nat>, cashiers: seq<CashierPc>)
    requires Tokens(queue, front, available, cashiers) && front == TakeCashier && queue != []
    ensures Tokens(queue[1..], ReleaseQueue(queue[0]), available, cashiers)
  {
    var rest := queue[1..];
    FirstMembers(queue);
  }

  lemma TokenCall(queue: seq<int>, front: CustomerPc, available: seq<nat>, cashiers: seq<CashierPc>)
    requires Tokens(queue, front, available, cashiers) && front.CallCashier?
    ensures var i := front.id - 1; Tokens(queue, LeaveLine, available[i := available[i] + 1], cashiers)
  {
  }

  lemma TokenFront(queue: seq<int>, front: CustomerPc, available: seq<nat>, cashiers: seq<CashierPc>,
                   front': CustomerPc)
    requires Tokens(queue, front, available, cashiers) && Carried(front') == Carried(front)
    requires front'.ReleaseQueue? || front'.CallCashier? ==> front.ReleaseQueue? || front.CallCashier?
    ensures Tokens(queue, front', available, cashiers)
  {
  }

  ghost predicate QueueOk(s: Shop) {
    TokensOk(s) && FrontOk(s)
  }

  lemma CookStepQueue(s: Shop, i: nat)
    requires LocksOk(s) && QueueOk(s) && i < |s.cooks| && CookReady(s, i)
    ensures QueueOk(CookStep(s, i))
  {
    hide LocksOk, Front, Greeter, CookStep, Tokens, QueueSignals;
    CookRoles(s, i);
    CookMoves(s, i);
  }

  /** Cashiers away from the queue. */
  lemma OtherStepQueue(s: Shop, i: nat)
    requires LocksOk(s) && QueueOk(s) && i < |s.cashiers| && CashierReady(s, i) && !QueuePhase(s.cashiers[i])
    ensures QueueOk(CashierStep(s, i))
  {
    hide LocksOk, Front, Greeter, Server, Teller, Tokens, QueueSignals;
    CashierRoles(s, i);
    var s' := CashierStep(s, i);
    TokenMove(s.ring.Contents(), Front(s), s.available, s.cashiers, i, s'.cashiers[i]);
  }

  lemma QueueStepTokens(s: Shop, i: nat)
    requires LocksOk(s) && QueueOk(s) && i < |s.cashiers| && CashierReady(s, i) && QueuePhase(s.cashiers[i])
    ensures TokensOk(QueueStep(s, i))
    ensures s.cashiers[i] == Enqueue ==> QueueStep(s, i).ring.Contents() == s.ring.Contents() + [i + 1]
  {
    hide LocksOk, Front, Greeter, Server, Teller, Tokens;
    CashierRoles(s, i);
    TokensLength(s.ring.Contents(), Front(s), s.available, s.cashiers);
    var s' := QueueStep(s, i);
    if s.cashiers[i] == Enqueue {
      TokenEnqueue(s.ring.Contents(), Front(s), s.available, s.cashiers, i);
      EnqueueAppends(s.ring, i + 1);
    } else if s.cashiers[i] == AwaitOrder {
      TokenAccept(s.ring.Contents(), Front(s), s.available, s.cashiers, i);
    } else {
      TokenMove(s.ring.Contents(), Front(s), s.available, s.cashiers, i, s'.cashiers[i]);
    }
  }

  lemma TokensLength(queue: seq<int>, front: CustomerPc, available: seq<nat>, cashiers: seq<CashierPc>)
    requires Tokens(queue, front, available, cashiers)
    ensures |available| == |cashiers|
  {
  }

  lemma QueueStepQueue(s: Shop, i: nat)
    requires LocksOk(s) && QueueOk(s) && i < |s.cashiers| && CashierReady(s, i) && QueuePhase(s.cashiers[i])
    ensures QueueOk(QueueStep(s, i))
  {
    hide LocksOk, Front, Greeter, Server, Teller, Tokens;
    QueueStepTokens(s, i);
    CashierRoles(s, i);
    Exclusion(s);
  }

  lemma CustomerStepTokens(s: Shop, i: nat)
    requires LocksOk(s) && QueueOk(s) && i < |s.customers| && CustomerReady(s, i)
    ensures TokensOk(CustomerStep(s, i))
    ensures s.customers[i] == TakeCashier ==> |CustomerStep(s, i).ring.Contents()| == |s.ring.Contents()| - 1
  {
    hide LocksOk, Front, Greeter, Server, Teller, Tokens, Chef;
    CustomerRoles(s, i);
    TokensLength(s.ring.Contents(), Front(s), s.available, s.cashiers);
    var s' := CustomerStep(s, i);
    if s.customers[i] == TakeCashier {
      DequeueTakesFirst(s.ring);
      TokenTake(s.ring.Contents(), Front(s), s.available, s.cashiers);
      var (d, id) := s.ring.Dequeue();
      assert s.ring.Contents() == [id] + d.Contents();
      assert s.ring.Contents()[0] == id && s.ring.Contents()[1..] == d.Contents();
    } else if s.customers[i].CallCashier? {
      CarriedInRange(s.ring.Contents(), Front(s), s.available, s.cashiers);
      TokenCall(s.ring.Contents(), Front(s), s.available, s.cashiers);
    } else {
      TokenFront(s.ring.Contents(), Front(s), s.available, s.cashiers, Front(s'));
    }
  }

  lemma CarriedInRange(queue: seq<int>, front: CustomerPc, available: seq<nat>, cashiers: seq<CashierPc>)
    requires Tokens(queue, front, available, cashiers) && front.CallCashier?
    ensures 1 <= front.id <= |available|
  {
  }

  lemma CustomerStepQueue(s: Shop, i: nat)
    requires LocksOk(s) && QueueOk(s) && i < |s.customers| && CustomerReady(s, i)
    ensures QueueOk(CustomerStep(s, i))
  {
    hide LocksOk, Front, Greeter, Server, Teller, Chef, Tokens;
    CustomerStepTokens(s, i);
    CustomerRoles(s, i);
    Exclusion(s);
  }

  // ---- conservation of orders ----

  function Sum(xs: seq<nat>): nat { if xs == [] then 0 else Sum(xs[..|xs| - 1]) + xs[|xs| - 1] }

  lemma {:induction false} SumUpdate(xs: seq<nat>, i: nat, v: nat)
    requires i < |xs|
    ensures Sum(xs[i := v]) + xs[i] == Sum(xs) + v
  {
    var last := |xs| - 1;
    if i < last {
      SumUpdate(xs[..last], i, v);
      assert xs[i := v][..last] == xs[..last][i := v];
    } else {
      assert xs[i := v][..last] == xs[..last];
    }
  }

  lemma {:induction false} SumAtLeast(xs: seq<nat>, i: nat)
    requires i < |xs|
    ensures Sum(xs) >= xs[i]
  {
    if i < |xs| - 1 { SumAtLeast(xs[..|xs| - 1], i); }
  }

  lemma {:induction false} SumOfBits(xs: seq<nat>)
    requires forall i | 0 <= i < |xs| :: xs[i] <= 1
    ensures Sum(xs) <= |xs|
  {
    if xs != [] { SumOfBits(xs[..|xs| - 1]); }
  }

  /** From the accepted order to the count. */
  predicate Busy(p: CashierPc) { CounterPhase(p) || p.LockCount? || p.Count? }

  /** The orders on each cashier: called for and not yet accepted, or accepted and not yet counted. */
  function Orders(cashiers: seq<CashierPc>, available: seq<nat>): seq<nat>
    requires |available| == |cashiers|
  {
    seq(|cashiers|, i requires 0 <= i < |cashiers| => available[i] + Bit(Busy(cashiers[i])))
  }

  /** The customers who have called their cashier. */
  function Called(customers: seq<CustomerPc>): seq<nat> {
    seq(|customers|, i requires 0 <= i < |customers| => Bit(customers[i].LeaveLine? || customers[i].Gone?))
  }

  /** Every customer who called a cashier is an order or has been served; the manager is told once, by the last one. */
  ghost predicate CountOk(s: Shop) {
    && |s.available| == |s.cashiers| && s.served >= 0
    && s.served + Sum(Orders(s.cashiers, s.available)) == Sum(Called(s.customers))
    && (Teller(s) == TellManager ==> s.served >= 1)
    && s.finish == Bit(s.served == |s.customers| > 0 && Teller(s) != TellManager)
  }

  lemma ServedBound(s: Shop)
    requires CountOk(s)
    ensures s.served <= |s.customers|
    ensures forall i | 0 <= i < |s.cashiers| && Busy(s.cashiers[i]) :: s.served < |s.customers|
  {
    SumOfBits(Called(s.customers));
    var orders := Orders(s.cashiers, s.available);
    forall i | 0 <= i < |s.cashiers| && Busy(s.cashiers[i]) ensures s.served < |s.customers| {
      SumAtLeast(orders, i);
    }
  }

  lemma CashierStepCount(s: Shop, i: nat)
    requires LocksOk(s) && CountOk(s) && i < |s.cashiers| && s.ring.Valid() && CashierReady(s, i)
    ensures CountOk(CashierStep(s, i))
  {
    hide LocksOk, Front, Greeter, Server, Teller, Chef, Sum;
    CashierRoles(s, i);
    ServedBound(s);
    CashierOrders(s, i);
  }

  lemma CashierOrders(s: Shop, i: nat)
    requires |s.available| == |s.cashiers| && i < |s.cashiers| && s.ring.Valid() && CashierReady(s, i)
    ensures var s' := CashierStep(s, i);
            && |s'.available| == |s'.cashiers| && s'.customers == s.customers
            && s'.served + Sum(Orders(s'.cashiers, s'.available)) == s.served + Sum(Orders(s.cashiers, s.available))
  {
    hide Sum;
    var s' := CashierStep(s, i);
    var orders, orders' := Orders(s.cashiers, s.available), Orders(s'.cashiers, s'.available);
    assert orders' == orders[i := orders'[i]];
    SumUpdate(orders, i, orders'[i]);
  }

  lemma CustomerStepCount(s: Shop, i: nat)
    requires LocksOk(s) && CountOk(s) && QueueOk(s) && i < |s.customers| && CustomerReady(s, i)
    ensures CountOk(CustomerStep(s, i))
  {
    hide LocksOk, Front, Greeter, Server, Teller, Chef, Sum, Tokens, QueueSignals, Called, Orders;
    CustomerRoles(s, i);
    if s.customers[i].CallCashier? { CarriedInRange(s.ring.Contents(), Front(s), s.available, s.cashiers); }
    CustomerOrders(s, i);
    CustomerMoves(s, i);
    hide CustomerStep;
  }

  /** A customer who calls a cashier is one more who has called, and one more order. */
  lemma CustomerOrders(s: Shop, i: nat)
    requires |s.available| == |s.cashiers| && i < |s.customers| && s.ring.Valid() && CustomerReady(s, i)
    requires s.customers[i].CallCashier? ==> 1 <= s.customers[i].id <= |s.available|
    ensures var s' := CustomerStep(s, i);
            && |s'.available| == |s'.cashiers| && s'.served == s.served
            && Sum(Orders(s'.cashiers, s'.available)) - Sum(Called(s'.customers))
                == Sum(Orders(s.cashiers, s.available)) - Sum(Called(s.customers))
  {
    hide Sum;
    var s' := CustomerStep(s, i);
    var called, called' := Called(s.customers), Called(s'.customers);
    assert called' == called[i := called'[i]];
    SumUpdate(called, i, called'[i]);
    if s.customers[i].CallCashier? {
      var j := s.customers[i].id - 1;
      var orders, orders' := Orders(s.cashiers, s.available), Orders(s'.cashiers, s'.available);
      assert orders' == orders[j := orders[j] + 1];
      SumUpdate(orders, j, orders[j] + 1);
    }
  }

  lemma CookStepCount(s: Shop, i: nat)
    requires LocksOk(s) && CountOk(s) && i < |s.cooks| && CookReady(s, i)
    ensures CountOk(CookStep(s, i))
  {
    hide LocksOk, Teller, CookStep;
    CookRoles(s, i);
    CookMoves(s, i);
  }

  // ---- every reachable state ----

  ghost predicate Inv(s: Shop) {
    LocksOk(s) && RackOk(s) && QueueOk(s) && CountOk(s)
  }

  lemma InitialInv(s: Shop)
    requires Initial(s)
    ensures Inv(s)
  {
    hide AtRack, AtCounter, AtQueue, Counting, InLine, CustomerAtQueue, CookAtRack, InKitchen, Sum;
    assert !InKitchen(EnterKitchen) && !AtCounter(LockQueue) && !Counting(LockQueue) && !AtRack(LockQueue)
        && !InLine(EnterLine) by {
      OutsideAtStart();
    }
    SectionDefaults();
    SizeIs(s.ring);
    NoOrders(Orders(s.cashiers, s.available));
    NoOrders(Called(s.customers));
  }

  lemma OutsideAtStart()
    ensures !InKitchen(EnterKitchen) && !AtCounter(LockQueue) && !Counting(LockQueue) && !AtRack(LockQueue)
            && !InLine(EnterLine)
  {
  }

  lemma {:induction false} NoOrders(xs: seq<nat>)
    requires forall i | 0 <= i < |xs| :: xs[i] == 0
    ensures Sum(xs) == 0
  {
    if xs != [] { NoOrders(xs[..|xs| - 1]); }
  }

  lemma StepInv(s: Shop, t: Thread)
    requires Inv(s)
    ensures Inv(Step(s, t))
  {
    hide LocksOk, RackOk, CountOk, Tokens, FrontOk, CookStep, CustomerStep, QueueStep, CounterStep, CountStep;
    if Ready(s, t) {
      match t
      case Cook(i) =>
        CookStepLocks(s, i);
        CookStepRack(s, i);
        CookStepQueue(s, i);
        CookStepCount(s, i);
      case Cashier(i) =>
        CashierStepLocks(s, i);
        CashierStepCount(s, i);
        if CounterPhase(s.cashiers[i]) { CounterStepRack(s, i); } else { OtherStepRack(s, i); }
        if QueuePhase(s.cashiers[i]) { QueueStepQueue(s, i); } else { OtherStepQueue(s, i); }
      case Customer(i) =>
        CustomerStepLocks(s, i);
        CustomerStepRack(s, i);
        CustomerStepQueue(s, i);
        CustomerStepCount(s, i);
    }
  }

  lemma {:induction false} RunInv(s: Shop, schedule: seq<Thread>)
    requires Inv(s)
    ensures Inv(Run(s, schedule))
  {
    hide Inv, Step;
    if schedule != [] {
      RunInv(s, schedule[..|schedule| - 1]);
      StepInv(Run(s, schedule[..|schedule| - 1]), schedule[|schedule| - 1]);
    }
  }

  /** What must never go wrong. */
  ghost predicate Safe(s: Shop) {
    && s.rack >= 0
    && s.ring.Valid() && |s.ring.buf| == |s.cashiers| + 1 && |s.ring.Contents()| <= |s.cashiers|
    && NoDups(s.ring.Contents())
    && (forall k | 0 <= k < |s.ring.Contents()| :: 1 <= s.ring.Contents()[k] <= |s.cashiers|)
    && (forall i | 0 <= i < |s.cashiers| && s.cashiers[i] == Enqueue ::
        |s.ring.Contents()| < |s.cashiers| && i + 1 !in s.ring.Contents())
    && (forall c | 0 <= c < |s.customers| && s.customers[c] == TakeCashier :: s.ring.Contents() != [])
    && (forall c | 0 <= c < |s.customers| && (s.customers[c].ReleaseQueue? || s.customers[c].CallCashier?) ::
        1 <= s.customers[c].id <= |s.available|)
    && 0 <= s.served <= |s.customers|
    && s.finish <= 1 && (s.finish == 1 ==> s.served == |s.customers|)
  }

  lemma InvSafe(s: Shop)
    requires Inv(s)
    ensures Safe(s)
  {
    hide Sum;
    SafeQueue(s);
    SafeCustomers(s);
    ServedBound(s);
  }

  lemma SafeQueue(s: Shop)
    requires TokensOk(s)
    ensures |s.ring.Contents()| <= |s.cashiers|
    ensures forall i | 0 <= i < |s.cashiers| && s.cashiers[i] == Enqueue ::
            |s.ring.Contents()| < |s.cashiers| && i + 1 !in s.ring.Contents()
  {
    SizeIs(s.ring);
    forall i | 0 <= i < |s.cashiers| && s.cashiers[i] == Enqueue
      ensures |s.ring.Contents()| < |s.cashiers| && i + 1 !in s.ring.Contents()
    {
      TokenEnqueue(s.ring.Contents(), Front(s), s.available, s.cashiers, i);
      assert Bit(i + 1 in s.ring.Contents()) == 0;
    }
  }

  lemma SafeCustomers(s: Shop)
    requires LocksOk(s) && QueueOk(s)
    ensures forall c | 0 <= c < |s.customers| && s.customers[c] == TakeCashier :: s.ring.Contents() != []
    ensures forall c | 0 <= c < |s.customers| && (s.customers[c].ReleaseQueue? || s.customers[c].CallCashier?) ::
            1 <= s.customers[c].id <= |s.available|
  {
    forall c | 0 <= c < |s.customers| && InLine(s.customers[c]) ensures Front(s) == s.customers[c] {
      OwnsAt(s.customers, CustomerOf(s.line), InLine, c);
    }
  }

  /** Whatever the numbers of threads and the schedule, the shop is safe. */
  lemma Safety(s: Shop, schedule: seq<Thread>)
    requires Initial(s)
    ensures Safe(Run(s, schedule))
  {
    InitialInv(s);
    RunInv(s, schedule);
    InvSafe(Run(s, schedule));
  }

  // ---- no lost wakeup ----

  /** No cashier and no customer can move. */
  ghost predicate Blocked(s: Shop) {
    && (forall i | 0 <= i < |s.cashiers| :: !Ready(s, Cashier(i)))
    && (forall i | 0 <= i < |s.customers| :: !Ready(s, Customer(i)))
  }

  /** The owner of the rack, of the queue or of the count is never blocked itself. */
  lemma OwnersReady(s: Shop)
    requires LocksOk(s) && s.ring.Valid()
    ensures s.rackLock != Nobody ==> Ready(s, s.rackLock)
    ensures s.queueLock != Nobody ==> Ready(s, s.queueLock)
    ensures s.countLock != Nobody ==> Ready(s, s.countLock)
  {
  }

  /** What blocks everybody: the inner locks are free, or a cook has the rack. */
  lemma BlockedLocks(s: Shop)
    requires LocksOk(s) && s.ring.Valid() && Blocked(s)
    ensures s.queueLock == Nobody && s.countLock == Nobody && (s.rackLock == Nobody || s.rackLock.Cook?)
  {
    OwnersReady(s);
    hide Ready;
  }

  /** With nobody at the counter every cashier is back in the queue with nothing to do. */
  lemma BlockedIdle(s: Shop, i: nat)
    requires LocksOk(s) && s.ring.Valid() && Blocked(s) && s.counter == Nobody && i < |s.cashiers|
             && |s.available| == |s.cashiers|
    ensures s.cashiers[i] == AwaitOrder && s.available[i] == 0
  {
    BlockedLocks(s);
    assert !Ready(s, Cashier(i));
    OwnsAt(s.cashiers, CashierOf(s.counter), AtCounter, i);
    OwnsAt(s.cashiers, CashierOf(s.queueLock), AtQueue, i);
    OwnsAt(s.cashiers, CashierOf(s.countLock), Counting, i);
  }

  /** The customer at the front of a blocked shop waits for a cashier. */
  lemma BlockedFront(s: Shop)
    requires LocksOk(s) && s.ring.Valid() && Blocked(s) && s.line != Nobody
    ensures Front(s) == AwaitCashier && s.allBusy == 0
  {
    BlockedLocks(s);
    var c := s.line.index;
    assert !Ready(s, Customer(c));
    OwnsAt(s.customers, CustomerOf(s.line), InLine, c);
    OwnsAt(s.customers, CustomerOf(s.queueLock), CustomerAtQueue, c);
  }

  lemma BlockedCounter(s: Shop)
    requires Inv(s) && Blocked(s) && s.served < |s.customers| && |s.cashiers| > 0
    ensures s.counter != Nobody
  {
    hide Tokens, RackOk, QueueSignals, Sum, Blocked, LocksOk;
    if s.counter == Nobody {
      forall i | 0 <= i < |s.cashiers| ensures s.cashiers[i] == AwaitOrder && s.available[i] == 0 { BlockedIdle(s, i); }
      NoOrders(Orders(s.cashiers, s.available));
      var c := SomeUncalled(s.customers);
      BlockedQueue(s, c);
      assert false;
    }
  }

  lemma {:induction false} SomeUncalled(customers: seq<CustomerPc>) returns (c: nat)
    requires Sum(Called(customers)) < |customers|
    ensures c < |customers| && !customers[c].LeaveLine? && !customers[c].Gone?
  {
    var last := |customers| - 1;
    if customers[last].LeaveLine? || customers[last].Gone? {
      assert Called(customers)[..last] == Called(customers[..last]);
      c := SomeUncalled(customers[..last]);
    } else {
      c := last;
    }
  }

  /** It cannot be that all cashiers are idle while a customer has yet to call one. */
  lemma BlockedQueue(s: Shop, c: nat)
    requires LocksOk(s) && QueueOk(s) && Blocked(s) && c < |s.customers| && !s.customers[c].LeaveLine?
             && !s.customers[c].Gone?
    requires |s.cashiers| > 0 && |s.available| == |s.cashiers|
    ensures exists i :: 0 <= i < |s.cashiers| && !(s.cashiers[i] == AwaitOrder && s.available[i] == 0)
  {
    BlockedLine(s, c);
    BlockedFront(s);
    BlockedLocks(s);
    assert Greeter(s) == LockQueue;
    assert s.ring.Contents() == [];
    assert !(s.cashiers[0] == AwaitOrder && s.available[0] == 0);
  }

  lemma BlockedLine(s: Shop, c: nat)
    requires LocksOk(s) && s.ring.Valid() && Blocked(s) && c < |s.customers| && !s.customers[c].LeaveLine?
             && !s.customers[c].Gone?
    ensures s.line != Nobody
  {
    OwnsAt(s.customers, CustomerOf(s.line), InLine, c);
    assert !Ready(s, Customer(c));
  }

  /** The cashier at the counter of a blocked shop waits for a cook to leave the rack, or for a burger. */
  lemma BlockedServer(s: Shop)
    requires LocksOk(s) && s.ring.Valid() && Blocked(s) && s.counter != Nobody
    ensures s.rackLock.Cook? || (Server(s) == AwaitBurger && s.rackEmpty == 0)
  {
    BlockedLocks(s);
    var i := s.counter.index;
    assert !Ready(s, Cashier(i));
    OwnsAt(s.cashiers, CashierOf(s.counter), AtCounter, i);
    OwnsAt(s.cashiers, CashierOf(s.rackLock), AtRack, i);
  }

  /** A cook who finds the rack free and a burger wanted can go on. */
  lemma KitchenReady(s: Shop) returns (i: nat)
    requires LocksOk(s) && RackOk(s) && s.ring.Valid() && |s.cooks| > 0 && s.racksize >= 1
    requires s.rackLock == Nobody && Server(s) == AwaitBurger && s.rackEmpty == 0
    ensures i < |s.cooks| && Ready(s, Cook(i)) && s.rack == 0
  {
    i := if s.kitchen == Nobody then 0 else s.kitchen.index;
    OwnsAt(s.cooks, CookOf(s.kitchen), InKitchen, i);
    OwnsAt(s.cooks, CookOf(s.rackLock), CookAtRack, i);
  }

  /**
    While somebody is still to be served, a cashier or a customer can move; or else a cook can, and the counter
    waits for that cook to leave the rack or for a burger on an empty rack.
   */
  lemma NoLostWakeup(s: Shop) returns (i: nat)
    requires Inv(s) && s.served < |s.customers| && |s.cooks| > 0 && |s.cashiers| > 0 && s.racksize >= 1
    requires Blocked(s)
    ensures i < |s.cooks| && Ready(s, Cook(i))
    ensures s.rackLock == Cook(i) || (Server(s) == AwaitBurger && s.waitForBurger == 1 && s.rack == 0)
  {
    hide LocksOk, Blocked, QueueOk, CountOk, RoomSignals;
    BlockedCounter(s);
    assert s.ring.Valid() by { InvRing(s); }
    BlockedServer(s);
    BlockedLocks(s);
    OwnersReady(s);
    if s.rackLock.Cook? {
      i := s.rackLock.index;
    } else {
      i := KitchenReady(s);
    }
  }

  /** Which of the two: a burger is awaited on an empty rack exactly if one is wanted and no cook is about to call. */
  lemma AwaitsOnEmptyRack(s: Shop)
    requires Inv(s) && s.served < |s.customers| && |s.cooks| > 0 && |s.cashiers| > 0 && s.racksize >= 1
    requires Blocked(s)
    ensures Server(s) == AwaitBurger && s.waitForBurger == 1 && s.rack == 0
            <==> s.waitForBurger > 0 && Chef(s) != TellCashier
  {
    hide LocksOk, Blocked, QueueOk, CountOk, RoomSignals, Chef, Server;
    BlockedCounter(s);
    assert s.ring.Valid() by { InvRing(s); }
    assert s.waitForBurger > 0 ==> Server(s) == AwaitBurger by { BlockedAwaits(s); }
  }

  /** A cashier who is announced and cannot move is waiting already. */
  lemma BlockedAwaits(s: Shop)
    requires LocksOk(s) && s.ring.Valid() && Blocked(s) && s.counter != Nobody
    ensures Server(s) != LeaveEmpty
  {
    assert !Ready(s, Cashier(s.counter.index));
  }

  lemma InvRing(s: Shop)
    requires QueueOk(s)
    ensures s.ring.Valid()
  {
  }

  // ---- everybody is served ----

  function CashierWork(p: CashierPc): nat {
    match p
    case AwaitOrder => 0 case UnlockQueue => 1 case TellCustomer => 2 case Enqueue => 3 case LockQueue => 4
    case UnlockCount => 5 case TellManager => 6 case Count => 7 case LockCount => 8
    case LeaveCounter => 9 case CloseRack => 10 case TellCook => 11 case TakeBurger => 12
    case ReopenRack => 13 case AwaitBurger => 14 case LeaveEmpty => 15 case NoteHungry => 16
    case CheckEmpty => 17 case OpenRack => 18 case EnterCounter => 19
  }

  function CustomerWork(p: CustomerPc): nat {
    match p
    case Gone => 0 case LeaveLine => 1 case CallCashier(_) => 22 case ReleaseQueue(_) => 23 case TakeCashier => 24
    case ReturnToQueue => 25 case AwaitCashier => 26 case LeaveQueue => 27 case NoteWaiting => 28
    case CheckQueue => 29 case ReachQueue => 30 case EnterLine => 31
  }

  function CashierWorks(cashiers: seq<CashierPc>, available: seq<nat>): seq<nat>
    requires |available| == |cashiers|
  {
    seq(|cashiers|, i requires 0 <= i < |cashiers| => CashierWork(cashiers[i]) + 20 * available[i])
  }

  function CustomerWorks(customers: seq<CustomerPc>): seq<nat> {
    seq(|customers|, i requires 0 <= i < |customers| => CustomerWork(customers[i]))
  }

  /** The steps that cashiers and customers can still take. */
  function Work(s: Shop): nat
    requires |s.available| == |s.cashiers|
  {
    Sum(CashierWorks(s.cashiers, s.available)) + Sum(CustomerWorks(s.customers))
  }

  /** Cooks cannot change that number, and cashiers and customers lower it with every step. */
  lemma CashierWorksLess(s: Shop, i: nat)
    requires |s.available| == |s.cashiers| && i < |s.cashiers| && s.ring.Valid() && CashierReady(s, i)
    ensures var s' := CashierStep(s, i); |s'.available| == |s'.cashiers| && Work(s') < Work(s)
  {
    hide Sum;
    var s' := CashierStep(s, i);
    var w, w' := CashierWorks(s.cashiers, s.available), CashierWorks(s'.cashiers, s'.available);
    assert w' == w[i := w'[i]];
    SumUpdate(w, i, w'[i]);
  }

  lemma CustomerWorksLess(s: Shop, i: nat)
    requires |s.available| == |s.cashiers| && i < |s.customers| && s.ring.Valid() && CustomerReady(s, i)
    requires s.customers[i].CallCashier? ==> 1 <= s.customers[i].id <= |s.available|
    ensures var s' := CustomerStep(s, i); |s'.available| == |s'.cashiers| && Work(s') < Work(s)
  {
    hide Sum;
    var s' := CustomerStep(s, i);
    var c, c' := CustomerWorks(s.customers), CustomerWorks(s'.customers);
    assert c' == c[i := c'[i]];
    SumUpdate(c, i, c'[i]);
    if s.customers[i].CallCashier? {
      var j := s.customers[i].id - 1;
      var w, w' := CashierWorks(s.cashiers, s.available), CashierWorks(s'.cashiers, s'.available);
      assert w' == w[j := w[j] + 20];
      SumUpdate(w, j, w[j] + 20);
    }
  }

  lemma WorkLess(s: Shop, t: Thread)
    requires Inv(s)
    ensures |Step(s, t).available| == |Step(s, t).cashiers| && |s.available| == |s.cashiers|
    ensures Ready(s, t) && !t.Cook? ==> Work(Step(s, t)) < Work(s)
    ensures !Ready(s, t) || t.Cook? ==> Work(Step(s, t)) == Work(s)
  {
    hide Work, LocksOk, RackOk, QueueOk, CookStep, CashierStep, CustomerStep, Sum;
    if Ready(s, t) {
      match t
      case Cook(i) => CookMoves(s, i); WorkSame(s, CookStep(s, i));
      case Cashier(i) => CashierWorksLess(s, i);
      case Customer(i) =>
        InvSafe(s);
        CustomerWorksLess(s, i);
    }
  }

  lemma WorkSame(s: Shop, s': Shop)
    requires |s.available| == |s.cashiers| && s'.available == s.available && s'.cashiers == s.cashiers
             && s'.customers == s.customers
    ensures Work(s') == Work(s)
  {
  }

  /** How many scheduled cashier and customer steps were really taken. */
  function Taken(s: Shop, schedule: seq<Thread>): nat {
    if schedule == [] then 0 else
      var before, t := schedule[..|schedule| - 1], schedule[|schedule| - 1];
      Taken(s, before) + Bit(!t.Cook? && Ready(Run(s, before), t))
  }

  lemma {:induction false} RunWork(s: Shop, schedule: seq<Thread>)
    requires Inv(s)
    ensures |Run(s, schedule).available| == |Run(s, schedule).cashiers| && |s.available| == |s.cashiers|
    ensures Work(Run(s, schedule)) + Taken(s, schedule) <= Work(s)
  {
    hide Inv, Work, Step, Ready;
    if schedule == [] {
      WorkLess(s, Nobody);
    } else {
      var before, t := schedule[..|schedule| - 1], schedule[|schedule| - 1];
      RunWork(s, before);
      RunInv(s, before);
      WorkLess(Run(s, before), t);
    }
  }

  /** Over any run whatsoever cashiers and customers take at most 4 * cashiers + 31 * customers steps. */
  lemma StepsBounded(s: Shop, schedule: seq<Thread>)
    requires Initial(s)
    ensures Taken(s, schedule) <= 4 * |s.cashiers| + 31 * |s.customers|
  {
    InitialInv(s);
    RunWork(s, schedule);
    SumOfEqual(CashierWorks(s.cashiers, s.available), 4);
    SumOfEqual(CustomerWorks(s.customers), 31);
  }

  lemma {:induction false} SumOfEqual(xs: seq<nat>, v: nat)
    requires forall i | 0 <= i < |xs| :: xs[i] == v
    ensures Sum(xs) == v * |xs|
  {
    if xs != [] { SumOfEqual(xs[..|xs| - 1], v); }
  }

  /** How far the cook in the kitchen is from announcing a burger, and from leaving the rack. */
  function ToAnnounce(p: CookPc): nat {
    match p
    case TellCashier => 1 case AddBurger => 2 case ReturnToRack => 3 case AwaitRoom => 4 case LeaveFull => 5
    case CheckFull => 6 case LockRack => 7 case EnterKitchen => 8 case LeaveKitchen => 9 case UnlockRack => 10
  }

  function ToRelease(p: CookPc): nat {
    match p
    case UnlockRack => 1 case LeaveFull => 1 case TellCashier => 2 case AddBurger => 3 case CheckFull => 4 case _ => 0
  }

  function CookWork(s: Shop): nat {
    if s.waitForBurger > 0 then ToAnnounce(Chef(s)) else ToRelease(Chef(s))
  }

  /** In a blocked shop every step of a cook counts: it frees somebody or comes closer to doing so. */
  lemma CookUnblocks(s: Shop, i: nat)
    requires Inv(s) && s.served < |s.customers| && |s.cashiers| > 0 && s.racksize >= 1
    requires Blocked(s) && i < |s.cooks| && CookReady(s, i)
    ensures var s' := CookStep(s, i); CookWork(s') < CookWork(s) <= 10 || !Blocked(s')
  {
    hide LocksOk, QueueOk, CountOk, Chef, Server, Greeter, Teller, Front, RoomSignals, Blocked;
    var k := NoLostWakeup(s);
    CookRoles(s, i);
    var s' := CookStep(s, i);
    if s.waitForBurger > 0 && s.cooks[i] == TellCashier {
      BlockedCounter(s);
      InvRing(s);
      AnnouncedReady(s, s');
    } else if s.waitForBurger == 0 {
      RackOwnerIsChef(s, k);
    }
  }

  lemma RackOwnerIsChef(s: Shop, k: nat)
    requires LocksOk(s) && k < |s.cooks| && s.rackLock == Cook(k)
    ensures CookAtRack(Chef(s))
  {
    OwnsAt(s.cooks, CookOf(s.rackLock), CookAtRack, k);
    OwnsAt(s.cooks, CookOf(s.kitchen), InKitchen, k);
  }

  lemma AnnouncedReady(s: Shop, s': Shop)
    requires LocksOk(s) && s.ring.Valid() && Blocked(s) && s.counter != Nobody
             && (Server(s) == LeaveEmpty || Server(s) == AwaitBurger)
    requires s'.cashiers == s.cashiers && s'.ring == s.ring && s'.rackEmpty > 0
    ensures !Blocked(s')
  {
    var i := s.counter.index;
    assert !Ready(s, Cashier(i));
    assert Ready(s', Cashier(i));
  }

  lemma {:induction false} RunConcat(s: Shop, a: seq<Thread>, b: seq<Thread>)
    ensures Run(s, a + b) == Run(Run(s, a), b)
  {
    hide Step;
    if b == [] {
      assert a + b == a;
    } else {
      assert (a + b)[..|a + b| - 1] == a + b[..|b| - 1];
      RunConcat(s, a, b[..|b| - 1]);
    }
  }

  lemma RunFrom(s: Shop, t: Thread, rest: seq<Thread>)
    ensures Run(s, [t] + rest) == Run(Step(s, t), rest)
  {
    hide Step;
    assert [t][..0] == [];
    assert Run(s, [t]) == Step(s, t);
    RunConcat(s, [t], rest);
  }

  lemma StepSizes(s: Shop, t: Thread)
    ensures var s' := Step(s, t);
            |s'.cooks| == |s.cooks| && |s'.cashiers| == |s.cashiers| && |s'.customers| == |s.customers|
                && s'.racksize == s.racksize
  {
    hide CookStep, CashierStep, CustomerStep;
    if Ready(s, t) {
      match t
      case Cook(i) => CookMoves(s, i);
      case Cashier(i) => CashierMoves(s, i);
      case Customer(i) => CustomerMoves(s, i);
    }
  }

  /** From every state that satisfies the invariant some schedule serves everybody. */
  lemma {:induction false} Serve(s: Shop) returns (schedule: seq<Thread>)
    requires Inv(s) && |s.available| == |s.cashiers| && |s.cooks| > 0 && |s.cashiers| > 0 && s.racksize >= 1
    ensures Run(s, schedule).served == |s.customers|
    decreases Work(s), Bit(Blocked(s)), CookWork(s)
  {
    hide LocksOk, RackOk, QueueOk, CountOk, Work, CookWork, Step, Run, Blocked;
    if s.served == |s.customers| {
      schedule := [];
      assert Run(s, []) == s by { RunNothing(s); }
    } else {
      assert s.served < |s.customers| by { ServedBound(s); }
      var t: Thread;
      if Blocked(s) {
        var i := NoLostWakeup(s);
        t := Cook(i);
        CookUnblocks(s, i);
        StepIsCook(s, i);
      } else {
        t := SomeReady(s);
      }
      StepInv(s, t);
      WorkLess(s, t);
      StepSizes(s, t);
      var rest := Serve(Step(s, t));
      schedule := [t] + rest;
      RunFrom(s, t, rest);
    }
  }

  lemma RunNothing(s: Shop)
    ensures Run(s, []) == s
  {
  }

  lemma StepIsCook(s: Shop, i: nat)
    requires i < |s.cooks| && CookReady(s, i)
    ensures Step(s, Cook(i)) == CookStep(s, i)
  {
  }

  lemma SomeReady(s: Shop) returns (t: Thread)
    requires !Blocked(s)
    ensures Ready(s, t) && !t.Cook?
  {
    if i :| 0 <= i < |s.cashiers| && Ready(s, Cashier(i)) {
      t := Cashier(i);
    } else {
      var i :| 0 <= i < |s.customers| && Ready(s, Customer(i));
      t := Customer(i);
    }
  }

  /** No run can get the shop stuck: whatever happened so far, everybody can still be served. */
  lemma EveryoneCanBeServed(s: Shop, past: seq<Thread>) returns (future: seq<Thread>)
    requires Initial(s) && |s.cooks| > 0 && |s.cashiers| > 0 && s.racksize >= 1
    ensures Run(Run(s, past), future).served == |s.customers|
  {
    InitialInv(s);
    RunInv(s, past);
    RunSizes(s, past);
    RunWork(s, past);
    future := Serve(Run(s, past));
  }

  lemma {:induction false} RunSizes(s: Shop, schedule: seq<Thread>)
    ensures var s' := Run(s, schedule);
            |s'.cooks| == |s.cooks| && |s'.cashiers| == |s.cashiers| && |s'.customers| == |s.customers|
                && s'.racksize == s.racksize
  {
    hide Step;
    if schedule != [] {
      RunSizes(s, schedule[..|schedule| - 1]);
      StepSizes(Run(s, schedule[..|schedule| - 1]), schedule[|schedule| - 1]);
    }
  }
}
