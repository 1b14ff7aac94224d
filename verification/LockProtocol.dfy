/**
 * How client threads and the AGIOS thread share the data structures: the lock-then-recheck loop of
 * `acquire_adequate_lock`, the locks taken while scheduling, and the change of scheduling algorithm
 * under all locks. A state machine over the steps of any number of clients and the AGIOS thread.
 */
module LockProtocol {
  import opened Sequences

  const LINES: nat := 64

  datatype Lock = Timeline | Line(index: nat)
  {
    predicate Valid() { Line? ==> index < LINES }

    /** Position in the order in which `lock_all_data_structures` takes the locks. */
    function AcquireIndex(): nat { if Timeline? then 0 else index + 1 }

    /** Position in the order in which `unlock_all_data_structures` frees the locks. */
    function ReleaseIndex(): nat { if Timeline? then LINES else index }
  }

  datatype Thread = Client(id: nat) | Agios

  /** Where a client is: `hash` is its line, `seen` whether the scheduler it saw uses the hashtable. */
  datatype ClientState =
    | Outside
    | Reading(hash: nat)
    | Waiting(hash: nat, seen: bool)
    | Checking(hash: nat, seen: bool)
    | Mistaken(hash: nat, seen: bool)
    | Inside(hash: nat, seen: bool)

  /** Where the AGIOS thread is. It starts with all locks held and no scheduler selected. */
  datatype AgiosState =
    | Starting
    | Working
    | Wanting(lock: Lock)
    | Serving(lock: Lock)
    | Acquiring(count: nat)
    | Moving
    | Releasing(count: nat)

  datatype Scheduler = Unselected | Selected(needsHashtable: bool)

  /** `flips` and `retries` only record history: changes of data structure and wrong locks per client. */
  datatype State = State(scheduler: Scheduler, holders: map<Lock, Thread>, clients: seq<ClientState>, agios: AgiosState,
                         flips: nat, retries: seq<nat>)

  datatype Step =
    | Enter(client: nat, hash: nat)
    | Read(client: nat)
    | Take(client: nat)
    | Recheck(client: nat)
    | GiveBack(client: nat)
    | Leave(client: nat)
    | Select(needsHashtable: bool)
    | Want(lock: Lock)
    | Serve
    | Served
    | BeginChange
    | AcquireNext
    | Switch(needsHashtable: bool)
    | DoneMoving
    | ReleaseNext

  function LockFor(hash: nat, needsHashtable: bool): Lock
  {
    if needsHashtable then Line(hash) else Timeline
  }

  function AcquireOrder(n: nat): Lock { if n == 0 then Timeline else Line(n - 1) }

  function ReleaseOrder(n: nat): Lock { if n == LINES then Timeline else Line(n) }

  predicate Enabled(s: State, step: Step)
  {
    match step
    case Enter(i, h) => i < |s.clients| && s.clients[i] == Outside && h < LINES
    case Read(i) => i < |s.clients| && s.clients[i].Reading? && s.scheduler.Selected?
    case Take(i) => i < |s.clients| && s.clients[i].Waiting?
                    && LockFor(s.clients[i].hash, s.clients[i].seen) !in s.holders
    case Recheck(i) => i < |s.clients| && s.clients[i].Checking?
    case GiveBack(i) => i < |s.clients| && i < |s.retries| && s.clients[i].Mistaken?
    case Leave(i) => i < |s.clients| && s.clients[i].Inside?
    case Select(_) => s.agios.Starting?
    case Want(l) => s.agios.Working? && l.Valid() && s.scheduler == Selected(l.Line?)
    case Serve => s.agios.Wanting? && s.agios.lock !in s.holders
    case Served => s.agios.Serving?
    case BeginChange => s.agios.Working?
    case AcquireNext => s.agios.Acquiring? && s.agios.count <= LINES && AcquireOrder(s.agios.count) !in s.holders
    case Switch(_) => s.agios == Acquiring(LINES + 1)
    case DoneMoving => s.agios.Moving?
    case ReleaseNext => s.agios.Releasing? && s.agios.count <= LINES
  }

  function Next(s: State, step: Step): State
    requires Enabled(s, step)
  {
    match step
    case Enter(i, h) => s.(clients := s.clients[i := Reading(h)])
    case Read(i) => s.(clients := s.clients[i := Waiting(s.clients[i].hash, s.scheduler.needsHashtable)])
    case Take(i) =>
      var c := s.clients[i];
      s.(clients := s.clients[i := Checking(c.hash, c.seen)],
         holders := s.holders[LockFor(c.hash, c.seen) := Client(i)])
    case Recheck(i) =>
      var c := s.clients[i];
      s.(clients := s.clients[i := if s.scheduler == Selected(c.seen) then Inside(c.hash, c.seen)
                              else Mistaken(c.hash, c.seen)])
    case GiveBack(i) =>
      var c := s.clients[i];
      s.(clients := s.clients[i := Reading(c.hash)], holders := s.holders - {LockFor(c.hash, c.seen)},
         retries := s.retries[i := s.retries[i] + 1])
    case Leave(i) =>
      var c := s.clients[i];
      s.(clients := s.clients[i := Outside], holders := s.holders - {LockFor(c.hash, c.seen)})
    case Select(needs) => s.(scheduler := Selected(needs), agios := Releasing(0))
    case Want(l) => s.(agios := Wanting(l))
    case Serve => s.(agios := Serving(s.agios.lock), holders := s.holders[s.agios.lock := Agios])
    case Served => s.(agios := Working, holders := s.holders - {s.agios.lock})
    case BeginChange => s.(agios := Acquiring(0))
    case AcquireNext =>
      s.(agios := Acquiring(s.agios.count + 1), holders := s.holders[AcquireOrder(s.agios.count) := Agios])
    case Switch(needs) =>
      s.(scheduler := Selected(needs), agios := Moving,
         flips := s.flips + (if s.scheduler == Selected(needs) then 0 else 1))
    case DoneMoving => s.(agios := Releasing(0))
    case ReleaseNext =>
      s.(agios := if s.agios.count == LINES then Working else Releasing(s.agios.count + 1),
         holders := s.holders - {ReleaseOrder(s.agios.count)})
  }

  // ---------------------------------------------------------------------------------------------
  // The invariant
  // ---------------------------------------------------------------------------------------------

  predicate ClientHolds(c: ClientState, l: Lock)
  {
    (c.Checking? || c.Mistaken? || c.Inside?) && LockFor(c.hash, c.seen) == l
  }

  predicate AgiosHolds(a: AgiosState, l: Lock)
  {
    match a
    case Starting => l.Valid()
    case Working => false
    case Wanting(_) => false
    case Serving(k) => l == k
    case Acquiring(n) => l.Valid() && l.AcquireIndex() < n
    case Moving => l.Valid()
    case Releasing(n) => l.Valid() && n <= l.ReleaseIndex()
  }

  /** The scheduler has changed since this client looked at it. */
  predicate Outdated(s: State, c: ClientState)
  {
    (c.Waiting? || c.Checking? || c.Mistaken?) && s.scheduler != Selected(c.seen)
  }

  ghost predicate LocksOk(s: State)
  {
    && (forall l :: l in s.holders ==> l.Valid() && (s.holders[l].Client? ==> s.holders[l].id < |s.clients|))
    && (forall i, l :: 0 <= i < |s.clients| ==>
        (ClientHolds(s.clients[i], l) <==> l in s.holders && s.holders[l] == Client(i)))
    && (forall l :: AgiosHolds(s.agios, l) <==> l in s.holders && s.holders[l] == Agios)
  }

  predicate AgiosOk(s: State)
  {
    && (s.scheduler.Unselected? <==> s.agios.Starting?)
    && (s.agios.Starting? ==> s.flips == 0)
    && (s.agios.Wanting? || s.agios.Serving? ==> s.agios.lock.Valid() && s.scheduler == Selected(s.agios.lock.Line?))
    && (s.agios.Acquiring? ==> s.agios.count <= LINES + 1)
    && (s.agios.Releasing? ==> s.agios.count <= LINES)
  }

  predicate ClientOk(s: State, i: nat)
    requires i < |s.clients| && i < |s.retries|
  {
    var c := s.clients[i];
    && (!c.Outside? ==> c.hash < LINES)
    && (c.Inside? ==> s.scheduler == Selected(c.seen))
    && (c.Mistaken? ==> s.scheduler != Selected(c.seen))
    && s.retries[i] + (if Outdated(s, c) then 1 else 0) <= s.flips
  }

  ghost predicate Inv(s: State)
  {
    && |s.retries| == |s.clients|
    && LocksOk(s) && AgiosOk(s)
    && forall i :: 0 <= i < |s.clients| ==> ClientOk(s, i)
  }

  /** Nothing selected yet, all locks held by the AGIOS thread, no client has called yet. */
  ghost predicate Initial(s: State)
  {
    && s.scheduler == Unselected && s.agios == Starting && s.flips == 0
    && (forall i :: 0 <= i < |s.clients| ==> s.clients[i] == Outside)
    && |s.retries| == |s.clients| && (forall i :: 0 <= i < |s.retries| ==> s.retries[i] == 0)
    && (forall l :: l in s.holders <==> l.Valid()) && (forall l :: l in s.holders ==> s.holders[l] == Agios)
  }

  lemma InitialInv(s: State)
    requires Initial(s)
    ensures Inv(s)
  {
  }

  lemma StepKeepsClient(s: State, step: Step, i: nat)
    requires Inv(s) && Enabled(s, step) && i < |s.clients|
    ensures ClientOk(Next(s, step), i)
  {
    assert ClientOk(s, i);
    if step.Switch? {
      AllHeldByAgios(s, i);
    }
  }

  lemma StepKeepsInv(s: State, step: Step)
    requires Inv(s) && Enabled(s, step)
    ensures Inv(Next(s, step))
  {
    StepKeepsLocks(s, step);
    forall i | 0 <= i < |s.clients| ensures ClientOk(Next(s, step), i) {
      StepKeepsClient(s, step, i);
    }
  }

  /** While the AGIOS thread has all locks no client is past the lock. */
  lemma AllHeldByAgios(s: State, i: nat)
    requires Inv(s) && i < |s.clients| && s.agios == Acquiring(LINES + 1)
    ensures !(s.clients[i].Checking? || s.clients[i].Mistaken? || s.clients[i].Inside?)
  {
    var c := s.clients[i];
    assert ClientOk(s, i);
    if c.Checking? || c.Mistaken? || c.Inside? {
      var l := LockFor(c.hash, c.seen);
      assert ClientHolds(c, l);
      assert AgiosHolds(s.agios, l);
    }
  }

  // How the three kinds of change to a thread keep the bookkeeping of locks.

  lemma ClientMoves(s: State, i: nat, c: ClientState)
    requires LocksOk(s) && i < |s.clients| && forall l :: ClientHolds(c, l) <==> ClientHolds(s.clients[i], l)
    ensures LocksOk(s.(clients := s.clients[i := c]))
  {
  }

  lemma ClientTakes(s: State, i: nat, c: ClientState, k: Lock)
    requires LocksOk(s) && i < |s.clients| && k.Valid() && k !in s.holders
    requires forall l :: !ClientHolds(s.clients[i], l) && (ClientHolds(c, l) <==> l == k)
    ensures LocksOk(s.(clients := s.clients[i := c], holders := s.holders[k := Client(i)]))
  {
    forall l | l in s.holders ensures s.holders[l] != Client(i) {
      assert !ClientHolds(s.clients[i], l);
    }
    assert !AgiosHolds(s.agios, k);
    var t := s.(clients := s.clients[i := c], holders := s.holders[k := Client(i)]);
    forall j, l | 0 <= j < |t.clients|
      ensures ClientHolds(t.clients[j], l) <==> l in t.holders && t.holders[l] == Client(j) {
      assert !ClientHolds(s.clients[j], k);
    }
  }

  lemma ClientFrees(s: State, i: nat, c: ClientState, k: Lock)
    requires LocksOk(s) && i < |s.clients|
    requires forall l :: (ClientHolds(s.clients[i], l) <==> l == k) && !ClientHolds(c, l)
    ensures LocksOk(s.(clients := s.clients[i := c], holders := s.holders - {k}))
  {
    assert ClientHolds(s.clients[i], k) && !AgiosHolds(s.agios, k);
    var t := s.(clients := s.clients[i := c], holders := s.holders - {k});
    forall j, l | 0 <= j < |t.clients|
      ensures ClientHolds(t.clients[j], l) <==> l in t.holders && t.holders[l] == Client(j) {
      assert ClientHolds(s.clients[j], l) <==> l in s.holders && s.holders[l] == Client(j);
    }
  }

  lemma AgiosMoves(s: State, a: AgiosState)
    requires LocksOk(s) && forall l :: AgiosHolds(a, l) <==> AgiosHolds(s.agios, l)
    ensures LocksOk(s.(agios := a))
  {
  }

  lemma AgiosTakes(s: State, a: AgiosState, k: Lock)
    requires LocksOk(s) && k.Valid() && k !in s.holders
    requires forall l :: AgiosHolds(a, l) <==> AgiosHolds(s.agios, l) || l == k
    ensures LocksOk(s.(agios := a, holders := s.holders[k := Agios]))
  {
  }

  lemma AgiosFrees(s: State, a: AgiosState, k: Lock)
    requires LocksOk(s) && AgiosHolds(s.agios, k)
    requires forall l :: AgiosHolds(a, l) <==> AgiosHolds(s.agios, l) && l != k
    ensures LocksOk(s.(agios := a, holders := s.holders - {k}))
  {
  }

  /** Only scheduler, counters and the like differ, which the bookkeeping of locks does not look at. */
  lemma SameLocks(s: State, t: State)
    requires LocksOk(s) && s.holders == t.holders && s.clients == t.clients && s.agios == t.agios
    ensures LocksOk(t)
  {
  }

  lemma ClientStepKeepsLocks(s: State, step: Step)
    requires Inv(s) && Enabled(s, step)
    requires step.Enter? || step.Read? || step.Take? || step.Recheck? || step.GiveBack? || step.Leave?
    ensures LocksOk(Next(s, step))
  {
    var t := Next(s, step);
    var i := step.client;
    var c := s.clients[i];
    assert ClientOk(s, i);
    match step
    case Enter(_, _) => ClientMoves(s, i, t.clients[i]);
    case Read(_) => ClientMoves(s, i, t.clients[i]);
    case Recheck(_) => ClientMoves(s, i, t.clients[i]);
    case Take(_) => ClientTakes(s, i, t.clients[i], LockFor(c.hash, c.seen));
    case Leave(_) => ClientFrees(s, i, t.clients[i], LockFor(c.hash, c.seen));
    case GiveBack(_) =>
      ClientFrees(s, i, t.clients[i], LockFor(c.hash, c.seen));
      SameLocks(t.(retries := s.retries), t);
  }

  lemma AgiosStepKeepsLocks(s: State, step: Step)
    requires Inv(s) && Enabled(s, step)
    requires !(step.Enter? || step.Read? || step.Take? || step.Recheck? || step.GiveBack? || step.Leave?)
    ensures LocksOk(Next(s, step))
  {
    var t := Next(s, step);
    match step
    case Select(_) =>
      AgiosMoves(s, t.agios);
      SameLocks(s.(agios := t.agios), t);
    case Want(_) => AgiosMoves(s, t.agios);
    case Serve => AgiosTakes(s, t.agios, s.agios.lock);
    case Served => AgiosFrees(s, t.agios, s.agios.lock);
    case BeginChange => AgiosMoves(s, t.agios);
    case AcquireNext =>
      OrdersCoverLocks(s.agios.count);
      AgiosTakes(s, t.agios, AcquireOrder(s.agios.count));
    case Switch(_) =>
      AgiosMoves(s, t.agios);
      SameLocks(s.(agios := t.agios), t);
    case DoneMoving => AgiosMoves(s, t.agios);
    case ReleaseNext =>
      OrdersCoverLocks(s.agios.count);
      AgiosFrees(s, t.agios, ReleaseOrder(s.agios.count));
  }

  lemma StepKeepsLocks(s: State, step: Step)
    requires Inv(s) && Enabled(s, step)
    ensures LocksOk(Next(s, step))
  {
    if step.Enter? || step.Read? || step.Take? || step.Recheck? || step.GiveBack? || step.Leave? {
      ClientStepKeepsLocks(s, step);
    } else {
      AgiosStepKeepsLocks(s, step);
    }
  }

  lemma OrdersCoverLocks(n: nat)
    requires n <= LINES
    ensures AcquireOrder(n).Valid() && forall l: Lock :: l.Valid() && l.AcquireIndex() == n <==> l == AcquireOrder(n)
    ensures ReleaseOrder(n).Valid() && forall l: Lock :: l.Valid() && l.ReleaseIndex() == n <==> l == ReleaseOrder(n)
  {
  }

  // ---------------------------------------------------------------------------------------------
  // Safety of every run
  // ---------------------------------------------------------------------------------------------

  predicate ValidRun(s: State, steps: seq<Step>)
    decreases |steps|
  {
    steps == [] || (Enabled(s, steps[0]) && ValidRun(Next(s, steps[0]), steps[1..]))
  }

  function Exec(s: State, steps: seq<Step>): State
    requires ValidRun(s, steps)
    decreases |steps|
  {
    if steps == [] then s else Exec(Next(s, steps[0]), steps[1..])
  }

  lemma {:induction false} RunKeepsInv(s: State, steps: seq<Step>)
    requires Inv(s) && ValidRun(s, steps)
    ensures Inv(Exec(s, steps))
    decreases |steps|
  {
    if steps == [] {
    } else {
      StepKeepsInv(s, steps[0]);
      RunKeepsInv(Next(s, steps[0]), steps[1..]);
    }
  }

  /** Client `i` is the holder of lock `l`, and the AGIOS thread is not on what `l` protects. */
  predicate Owns(s: State, i: nat, l: Lock)
  {
    l in s.holders && s.holders[l] == Client(i) && s.agios != Serving(l)
  }

  /**
   * Client `i`, past the lock, has the lock of its line if the hashtable is in use and that of the
   * timeline otherwise, and the AGIOS thread is neither migrating nor on that structure.
   */
  predicate InsideSafely(s: State, i: nat)
    requires i < |s.clients| && s.clients[i].Inside?
  {
    && s.scheduler == Selected(s.clients[i].seen)
    && (s.scheduler == Selected(true) ==> Owns(s, i, Line(s.clients[i].hash)))
    && (s.scheduler == Selected(false) ==> Owns(s, i, Timeline))
    && !s.agios.Starting? && !s.agios.Moving?
  }

  ghost predicate Safe(s: State)
  {
    && (forall i :: 0 <= i < |s.clients| && s.clients[i].Inside? ==> InsideSafely(s, i))
    && (forall i, j :: 0 <= i < |s.clients| && 0 <= j < |s.clients| && i != j
                       && s.clients[i].Inside? && s.clients[j].Inside? ==>
          s.scheduler == Selected(true) && s.clients[i].hash != s.clients[j].hash)
    && (s.agios.Serving? ==> s.scheduler == Selected(s.agios.lock.Line?))
  }

  lemma InvSafe(s: State)
    requires Inv(s)
    ensures Safe(s)
  {
    forall i | 0 <= i < |s.clients| && s.clients[i].Inside?
      ensures InsideSafely(s, i) && ClientHolds(s.clients[i], LockFor(s.clients[i].hash, s.clients[i].seen))
    {
      var l := LockFor(s.clients[i].hash, s.clients[i].seen);
      assert ClientOk(s, i);
      assert ClientHolds(s.clients[i], l) && !AgiosHolds(s.agios, l);
    }
  }

  /**
   * In every interleaving: a client past the lock holds the lock of the structure the current
   * scheduler uses, no migration and no scheduling on the same structure overlaps it, two clients
   * inside are on different lines of the hashtable, and with a timeline there is only one.
   */
  lemma EveryRunIsSafe(s: State, steps: seq<Step>)
    requires Initial(s) && ValidRun(s, steps)
    ensures Safe(Exec(s, steps))
  {
    InitialInv(s);
    RunKeepsInv(s, steps);
    InvSafe(Exec(s, steps));
  }

  ghost predicate AgiosHas(s: State, l: Lock)
  {
    l in s.holders && s.holders[l] == Agios
  }

  /**
   * In every interleaving the AGIOS thread holds all locks while it moves requests from one structure
   * to the other, and none while it works on neither. It takes the lock of the timeline first and then
   * the lines in increasing order, and gives them back in increasing order and the timeline last.
   */
  lemma AllLocksInOrder(s: State, steps: seq<Step>)
    requires Initial(s) && ValidRun(s, steps)
    ensures var t := Exec(s, steps);
            && (t.agios.Starting? || t.agios.Moving? ==> forall l: Lock :: l.Valid() ==> AgiosHas(t, l))
            && (t.agios.Working? || t.agios.Wanting? ==> forall l: Lock :: !AgiosHas(t, l))
            && (t.agios.Acquiring? || t.agios.Releasing? ==>
                  forall i :: 0 <= i < LINES && AgiosHas(t, Line(i)) ==> AgiosHas(t, Timeline))
            && (t.agios.Acquiring? ==>
                  forall i, j :: 0 <= i < j < LINES && AgiosHas(t, Line(j)) ==> AgiosHas(t, Line(i)))
            && (t.agios.Releasing? ==>
                  forall i, j :: 0 <= i < j < LINES && AgiosHas(t, Line(i)) ==> AgiosHas(t, Line(j)))
  {
    InitialInv(s);
    RunKeepsInv(s, steps);
    var t := Exec(s, steps);
    assert forall l :: AgiosHolds(t.agios, l) <==> AgiosHas(t, l);
  }

  // What the threads do is what they were last asked to do.

  /** The line that client `i` last called for, `h` if it did not call. */
  function LastCall(steps: seq<Step>, i: nat, h: nat): nat
  {
    if steps == [] then h
    else LastCall(steps[1..], i, if steps[0].Enter? && steps[0].client == i then steps[0].hash else h)
  }

  /** The structure that was last chosen, when a scheduler was selected or changed. */
  function LastChoice(steps: seq<Step>, c: Scheduler): Scheduler
  {
    if steps == [] then c
    else LastChoice(steps[1..], if steps[0].Select? || steps[0].Switch? then Selected(steps[0].needsHashtable) else c)
  }

  /** The lock of the requests that the scheduler last wanted to process. */
  function LastWanted(steps: seq<Step>, l: Lock): Lock
  {
    if steps == [] then l else LastWanted(steps[1..], if steps[0].Want? then steps[0].lock else l)
  }

  predicate Remembers(s: State, i: nat, h: nat, c: Scheduler, l: Lock)
  {
    && i < |s.clients| && (!s.clients[i].Outside? ==> s.clients[i].hash == h) && s.scheduler == c
    && (s.agios.Wanting? || s.agios.Serving? ==> s.agios.lock == l)
  }

  lemma {:induction false} RunRemembers(s: State, steps: seq<Step>, i: nat, h: nat, c: Scheduler, l: Lock)
    requires ValidRun(s, steps) && Remembers(s, i, h, c, l)
    ensures Remembers(Exec(s, steps), i, LastCall(steps, i, h), LastChoice(steps, c), LastWanted(steps, l))
    decreases |steps|
  {
    if steps == [] {
    } else {
      var step := steps[0];
      RunRemembers(Next(s, step), steps[1..], i, if step.Enter? && step.client == i then step.hash else h,
                   if step.Select? || step.Switch? then Selected(step.needsHashtable) else c,
                   if step.Want? then step.lock else l);
    }
  }

  /**
   * In every interleaving: a client inside holds the lock of the line it called for if the scheduler
   * chosen last needs the hashtable, and the lock of the timeline otherwise; and the AGIOS thread is
   * then not processing requests of that line, or of the timeline.
   */
  lemma InsideHoldsLineCalled(s: State, steps: seq<Step>, i: nat)
    requires Initial(s) && ValidRun(s, steps) && i < |Exec(s, steps).clients| && Exec(s, steps).clients[i].Inside?
    ensures var t, h := Exec(s, steps), LastCall(steps, i, 0);
            && h < LINES && LastChoice(steps, Unselected).Selected?
            && (LastChoice(steps, Unselected) == Selected(true) ==>
                  && Line(h) in t.holders && t.holders[Line(h)] == Client(i)
                  && !(t.agios.Serving? && LastWanted(steps, Timeline) == Line(h)))
            && (LastChoice(steps, Unselected) == Selected(false) ==>
                  Timeline in t.holders && t.holders[Timeline] == Client(i) && !t.agios.Serving?)
  {
    var t := Exec(s, steps);
    EveryRunIsSafe(s, steps);
    RunKeepsClients(s, steps);
    RunRemembers(s, steps, i, 0, Unselected, Timeline);
    assert InsideSafely(t, i);
    InitialInv(s);
    RunKeepsInv(s, steps);
    assert ClientOk(t, i);
  }

  lemma {:induction false} RunConcat(s: State, a: seq<Step>, b: seq<Step>)
    requires ValidRun(s, a) && ValidRun(Exec(s, a), b)
    ensures ValidRun(s, a + b) && Exec(s, a + b) == Exec(Exec(s, a), b)
    decreases |a|
  {
    if a == [] {
      assert a + b == b;
    } else {
      assert (a + b)[0] == a[0] && (a + b)[1..] == a[1..] + b;
      RunConcat(Next(s, a[0]), a[1..], b);
    }
  }

  /** When all is quiet a call for any line can go through, and ends inside with the right lock. */
  lemma CallGoesThrough(s: State, i: nat, h: nat, needs: bool)
    requires Inv(s) && Quiet(s) && s.scheduler == Selected(needs) && i < |s.clients| && h < LINES
    ensures var l := if needs then Line(h) else Timeline;
            && ValidRun(s, [Enter(i, h)] + [Read(i)] + [Take(i)] + [Recheck(i)])
            && var t := Exec(s, [Enter(i, h)] + [Read(i)] + [Take(i)] + [Recheck(i)]);
               t == s.(clients := s.clients[i := Inside(h, needs)], holders := s.holders[l := Client(i)])
  {
    FreeUnlessAgios(s, LockFor(h, needs));
    OneStep(s, Enter(i, h));
    var s1 := Next(s, Enter(i, h));
    OneStep(s1, Read(i));
    RunConcat(s, [Enter(i, h)], [Read(i)]);
    var s2 := Next(s1, Read(i));
    OneStep(s2, Take(i));
    RunConcat(s, [Enter(i, h)] + [Read(i)], [Take(i)]);
    var s3 := Next(s2, Take(i));
    OneStep(s3, Recheck(i));
    RunConcat(s, [Enter(i, h)] + [Read(i)] + [Take(i)], [Recheck(i)]);
    assert Next(s3, Recheck(i)).clients == s.clients[i := Inside(h, needs)];
  }

  /** The AGIOS thread can then process requests of any line, or of the timeline, holding that lock meanwhile. */
  lemma ProcessingGoesThrough(s: State, l: Lock)
    requires Inv(s) && Quiet(s) && s.scheduler == Selected(l.Line?) && l.Valid()
    ensures && ValidRun(s, [Want(l)] + [Serve])
            && var t := Exec(s, [Want(l)] + [Serve]);
               && t == s.(agios := Serving(l), holders := s.holders[l := Agios])
               && Enabled(t, Served) && Next(t, Served) == s
  {
    FreeUnlessAgios(s, l);
    OneStep(s, Want(l));
    OneStep(Next(s, Want(l)), Serve);
    RunConcat(s, [Want(l)], [Serve]);
  }

  lemma OneStep(s: State, step: Step)
    requires Enabled(s, step)
    ensures ValidRun(s, [step]) && Exec(s, [step]) == Next(s, step)
  {
    assert [step][1..] == [];
  }

  /** How often client `i` gave a lock back because it was the wrong one. */
  function Retries(steps: seq<Step>, i: nat): nat
  {
    if steps == [] then 0 else (if steps[0] == GiveBack(i) then 1 else 0) + Retries(steps[1..], i)
  }

  /** How often the scheduler was changed for one that uses the other structure. */
  function Flips(steps: seq<Step>, c: Scheduler): nat
  {
    if steps == [] then 0 else
      var d := if steps[0].Select? || steps[0].Switch? then Selected(steps[0].needsHashtable) else c;
      (if steps[0].Switch? && d != c then 1 else 0) + Flips(steps[1..], d)
  }

  lemma {:induction false} RunCounts(s: State, steps: seq<Step>, i: nat)
    requires ValidRun(s, steps) && i < |s.retries|
    ensures var t := Exec(s, steps);
            && i < |t.retries| && t.retries[i] == s.retries[i] + Retries(steps, i)
            && t.flips == s.flips + Flips(steps, s.scheduler)
    decreases |steps|
  {
    if steps == [] {
    } else {
      RunCounts(Next(s, steps[0]), steps[1..], i);
    }
  }

  /** In every interleaving a client takes a wrong lock at most as often as the structure in use was changed. */
  lemma RetriesBoundedByFlips(s: State, steps: seq<Step>, i: nat)
    requires Initial(s) && ValidRun(s, steps) && i < |s.clients|
    ensures var t := Exec(s, steps);
            && i < |t.retries| && t.retries[i] == Retries(steps, i) && t.flips == Flips(steps, Unselected)
            && Retries(steps, i) <= Flips(steps, Unselected)
  {
    InitialInv(s);
    RunKeepsInv(s, steps);
    RunKeepsClients(s, steps);
    RunCounts(s, steps, i);
    assert ClientOk(Exec(s, steps), i);
  }

  lemma {:induction false} RunKeepsClients(s: State, steps: seq<Step>)
    requires ValidRun(s, steps)
    ensures |Exec(s, steps).clients| == |s.clients|
    decreases |steps|
  {
    if steps == [] {
    } else {
      RunKeepsClients(Next(s, steps[0]), steps[1..]);
    }
  }

  // ---------------------------------------------------------------------------------------------
  // Progress: what has begun can always be completed
  // ---------------------------------------------------------------------------------------------

  /** Nobody is in the middle of anything. */
  ghost predicate Quiet(s: State)
  {
    s.agios.Working? && forall i :: 0 <= i < |s.clients| ==> s.clients[i].Outside?
  }

  /** The step continues something begun before; it is no new call and no new decision to schedule. */
  predicate Continues(step: Step)
  {
    !step.Enter? && !step.Want? && !step.BeginChange?
  }

  function AgiosRank(a: AgiosState): int
  {
    match a
    case Working => 0
    case Serving(_) => 1
    case Wanting(_) => 2
    case Releasing(n) => 1 + LINES - n
    case Starting => 2 + LINES
    case Moving => 2 + LINES
    case Acquiring(n) => 4 + 2 * LINES - n
  }

  function ClientRank(scheduler: Scheduler, c: ClientState): int
  {
    match c
    case Outside => 0
    case Inside(_, _) => 1
    case Checking(_, seen) => if scheduler == Selected(seen) then 2 else 6
    case Waiting(_, seen) => if scheduler == Selected(seen) then 3 else 7
    case Reading(_) => 4
    case Mistaken(_, _) => 5
  }

  function ClientsRank(s: State): int
  {
    Sum(s.clients, (c: ClientState) => ClientRank(s.scheduler, c))
  }

  ghost predicate Nearer(t: State, s: State)
  {
    0 <= AgiosRank(t.agios) < AgiosRank(s.agios) ||
    (AgiosRank(t.agios) == AgiosRank(s.agios) && ClientsRank(t) < ClientsRank(s))
  }

  lemma ClientStepNearer(s: State, step: Step, i: nat)
    requires Inv(s) && Enabled(s, step) && i < |s.clients|
    requires step == Read(i) || step == Take(i) || step == Recheck(i) || step == GiveBack(i) || step == Leave(i)
    ensures Nearer(Next(s, step), s)
  {
    assert ClientOk(s, i);
    var t := Next(s, step);
    SumUpdate(s.clients, i, t.clients[i], (c: ClientState) => ClientRank(s.scheduler, c));
  }

  /** A client that holds a lock is never blocked. */
  lemma HolderSteps(s: State, i: nat) returns (step: Step)
    requires Inv(s) && i < |s.clients|
    requires s.clients[i].Checking? || s.clients[i].Mistaken? || s.clients[i].Inside?
    ensures Enabled(s, step) && Continues(step) && Nearer(Next(s, step), s)
  {
    step := if s.clients[i].Checking? then Recheck(i) else if s.clients[i].Mistaken? then GiveBack(i) else Leave(i);
    ClientStepNearer(s, step, i);
  }

  lemma FreeUnlessAgios(s: State, l: Lock)
    requires Inv(s) && !AgiosHolds(s.agios, l)
    requires forall i :: 0 <= i < |s.clients| ==>
             !(s.clients[i].Checking? || s.clients[i].Mistaken? || s.clients[i].Inside?)
    ensures l !in s.holders
  {
    assert forall i :: 0 <= i < |s.clients| ==> !ClientHolds(s.clients[i], l);
  }

  lemma AgiosSteps(s: State) returns (step: Step)
    requires Inv(s) && !s.agios.Working?
    requires forall i :: 0 <= i < |s.clients| ==>
             !(s.clients[i].Checking? || s.clients[i].Mistaken? || s.clients[i].Inside?)
    ensures Enabled(s, step) && Continues(step) && Nearer(Next(s, step), s)
  {
    match s.agios
    case Starting => step := Select(true);
    case Wanting(l) =>
      FreeUnlessAgios(s, l);
      step := Serve;
    case Serving(_) => step := Served;
    case Acquiring(n) =>
      if n == LINES + 1 {
        step := Switch(true);
      } else {
        OrdersCoverLocks(n);
        FreeUnlessAgios(s, AcquireOrder(n));
        step := AcquireNext;
      }
    case Moving => step := DoneMoving;
    case Releasing(_) => step := ReleaseNext;
  }

  /**
   * No deadlock: unless everything is quiet, some thread can take a step that continues what it
   * began and brings the system nearer to quiet.
   */
  lemma NoDeadlock(s: State) returns (step: Step)
    requires Inv(s) && !Quiet(s)
    ensures Enabled(s, step) && Continues(step) && Nearer(Next(s, step), s)
  {
    if i :| 0 <= i < |s.clients| && (s.clients[i].Checking? || s.clients[i].Mistaken? || s.clients[i].Inside?) {
      step := HolderSteps(s, i);
    } else if !s.agios.Working? {
      step := AgiosSteps(s);
    } else {
      var i :| 0 <= i < |s.clients| && !s.clients[i].Outside?;
      var c := s.clients[i];
      if c.Waiting? {
        FreeUnlessAgios(s, LockFor(c.hash, c.seen));
        step := Take(i);
      } else {
        step := Read(i);
      }
      ClientStepNearer(s, step, i);
    }
  }

  lemma RanksNonNegative(s: State)
    requires Inv(s)
    ensures AgiosRank(s.agios) >= 0 && ClientsRank(s) >= 0
  {
    SumNonNegative(s.clients, (c: ClientState) => ClientRank(s.scheduler, c));
  }

  /** Whatever thread goes on with what it began, everything comes nearer to quiet. */
  lemma ContinuingIsNearer(s: State, step: Step)
    requires Inv(s) && Enabled(s, step) && Continues(step)
    ensures Nearer(Next(s, step), s)
  {
    match step
    case Read(i) => ClientStepNearer(s, step, i);
    case Take(i) => ClientStepNearer(s, step, i);
    case Recheck(i) => ClientStepNearer(s, step, i);
    case GiveBack(i) => ClientStepNearer(s, step, i);
    case Leave(i) => ClientStepNearer(s, step, i);
    case _ =>
  }

  /** A bound on the steps still to be taken. */
  function Work(s: State): int
  {
    AgiosRank(s.agios) * (7 * |s.clients| + 1) + ClientsRank(s)
  }

  lemma {:induction false} RankAtMost(scheduler: Scheduler, clients: seq<ClientState>)
    ensures Sum(clients, (c: ClientState) => ClientRank(scheduler, c)) <= 7 * |clients|
  {
    if clients == [] {
    } else {
      RankAtMost(scheduler, clients[1..]);
    }
  }

  lemma Distribute(a: int, d: int, n: int)
    ensures (a + d + 1) * n == a * n + d * n + n
  {
  }

  lemma NoNegativeProduct(a: int, b: int)
    requires a >= 0 && b >= 0
    ensures a * b >= 0
  {
  }

  lemma FewerRounds(a: int, b: int, n: int)
    requires a < b && n >= 0
    ensures a * n + n <= b * n
  {
    var d := b - a - 1;
    Distribute(a, d, n);
    NoNegativeProduct(d, n);
  }

  lemma NearerIsLessWork(s: State, t: State)
    requires Nearer(t, s) && |t.clients| == |s.clients|
    requires ClientsRank(s) >= 0
    ensures Work(t) < Work(s)
  {
    RankAtMost(t.scheduler, t.clients);
    if AgiosRank(t.agios) < AgiosRank(s.agios) {
      FewerRounds(AgiosRank(t.agios), AgiosRank(s.agios), 7 * |s.clients| + 1);
    }
  }

  lemma NoNegativeWork(s: State)
    requires Inv(s)
    ensures Work(s) >= 0
  {
    RanksNonNegative(s);
    NoNegativeProduct(AgiosRank(s.agios), 7 * |s.clients| + 1);
  }

  /** Every run of steps that only continue what was begun is bounded. */
  lemma {:induction false} WorkBoundsRun(s: State, steps: seq<Step>)
    requires Inv(s) && ValidRun(s, steps) && forall step :: step in steps ==> Continues(step)
    ensures |steps| + Work(Exec(s, steps)) <= Work(s)
    decreases |steps|
  {
    if steps == [] {
    } else {
      var t := Next(s, steps[0]);
      ContinuingIsNearer(s, steps[0]);
      StepKeepsInv(s, steps[0]);
      RanksNonNegative(s);
      NearerIsLessWork(s, t);
      assert forall step :: step in steps[1..] ==> step in steps;
      WorkBoundsRun(t, steps[1..]);
    }
  }

  /**
   * Whatever the schedule, what has begun is completed: without new calls and new decisions to
   * schedule no run is longer than the bound, and a run can be continued exactly until all is quiet.
   */
  lemma EveryScheduleCompletes(s: State, steps: seq<Step>)
    requires Inv(s) && ValidRun(s, steps) && forall step :: step in steps ==> Continues(step)
    ensures |steps| <= Work(s)
    ensures var t := Exec(s, steps); Quiet(t) <==> forall step :: Continues(step) ==> !Enabled(t, step)
  {
    var t := Exec(s, steps);
    WorkBoundsRun(s, steps);
    RunKeepsInv(s, steps);
    NoNegativeWork(t);
    if !Quiet(t) {
      var step := NoDeadlock(t);
    }
  }

  /** From every reachable state, all calls and the AGIOS thread's current work can run to completion. */
  lemma {:induction false} CanAlwaysComplete(s: State) returns (steps: seq<Step>)
    requires Inv(s)
    ensures ValidRun(s, steps) && Quiet(Exec(s, steps)) && forall step :: step in steps ==> Continues(step)
    ensures |steps| <= Work(s)
    decreases AgiosRank(s.agios), ClientsRank(s)
  {
    RanksNonNegative(s);
    NoNegativeWork(s);
    if Quiet(s) {
      steps := [];
    } else {
      var step := NoDeadlock(s);
      StepKeepsInv(s, step);
      NearerIsLessWork(s, Next(s, step));
      var rest := CanAlwaysComplete(Next(s, step));
      steps := [step] + rest;
      assert steps[1..] == rest;
    }
  }
}
