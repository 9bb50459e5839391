/**
 The session at the granularity of its locks: the connection and the state stand under a lock each, and every call
 writes one after the other. Any number of calls run at once, and each step is one store under one lock.
 */
module SessionLocks {
  import opened Bytes
  import opened Session

  /**
   What the link between sharing and the connection depends on, and how many calls stand before each of their stores:
   `enter_sharing` stores the connection and then publishes the state; `disconnect` and `fail` take the connection and
   then conclude; a request, a visitor and a rejection only replace the state. Requests and visitors are turned away
   while the session is busy; a rejection looks at the waiting connection alone, so it can begin in any phase.
   */
  datatype Locks = Locks(connection: Option<Conn>, phase: Phase, toStore: nat, toPublish: nat, toTake: nat, toConclude: nat, toReplace: nat)

  datatype Step =
    | BeginEnter | BeginClear | BeginReplace | BeginReject
    | Store(conn: Conn) | Publish
    | Take | Conclude(phase: Phase)
    | Replace(phase: Phase)

  function Do(l: Locks, e: Step): Locks {
    match e
    case BeginEnter => l.(toStore := l.toStore + 1)
    case BeginClear => l.(toTake := l.toTake + 1)
    case BeginReplace => if Busy(l.phase) then l else l.(toReplace := l.toReplace + 1)
    case BeginReject => l.(toReplace := l.toReplace + 1)
    case Store(conn) => if l.toStore == 0 then l else l.(connection := Some(conn), toStore := l.toStore - 1, toPublish := l.toPublish + 1)
    case Publish => if l.toPublish == 0 then l else l.(phase := Sharing, toPublish := l.toPublish - 1)
    case Take => if l.toTake == 0 then l else l.(connection := None, toTake := l.toTake - 1, toConclude := l.toConclude + 1)
    case Conclude(phase) => if l.toConclude == 0 || phase.Sharing? then l else l.(phase := phase, toConclude := l.toConclude - 1)
    case Replace(phase) => if l.toReplace == 0 || phase.Sharing? then l else l.(phase := phase, toReplace := l.toReplace - 1)
  }

  function DoAll(l: Locks, steps: seq<Step>): Locks
    decreases |steps|
  {
    if steps == [] then l else DoAll(Do(l, steps[0]), steps[1..])
  }

  function Entering(l: Locks): nat {
    l.toStore + l.toPublish
  }

  function Leaving(l: Locks): nat {
    l.toTake + l.toConclude + l.toReplace
  }

  predicate Linked(l: Locks) {
    l.phase.Sharing? <==> l.connection.Some?
  }

  /** All calls are through. */
  predicate AtRest(l: Locks) {
    Entering(l) == 0 && Leaving(l) == 0
  }

  /**
   The calls on their way are of one kind, and the connection is already as they will leave it or one of them is still
   to see to that.
   */
  predicate Safe(l: Locks) {
    if AtRest(l) then Linked(l)
    else if Leaving(l) == 0 then l.toStore > 0 || l.connection.Some?
    else if Entering(l) == 0 then l.toTake > 0 || l.connection.None?
    else false
  }

  predicate IsBegin(e: Step) {
    e.BeginEnter? || e.BeginClear? || e.BeginReplace? || e.BeginReject?
  }

  predicate NoBegin(steps: seq<Step>) {
    forall i | 0 <= i < |steps| :: !IsBegin(steps[i])
  }

  // ---------- Calls that begin apart ----------

  /**
   Entering begins when no call that leaves is on its way, and leaving when none that enters is; a rejection moreover only
   when no connection is stored, or one is still to be taken.
   */
  predicate BeginsApart(l: Locks, e: Step) {
    match e
    case BeginEnter => Leaving(l) == 0
    case BeginClear => Entering(l) == 0
    case BeginReplace => Entering(l) == 0 || Busy(l.phase)
    case BeginReject => Entering(l) == 0 && (l.toTake > 0 || l.connection.None?)
    case _ => true
  }

  /** The condition on each beginning is exact. */
  lemma BeginIsSafeExactly(l: Locks, e: Step)
    requires Safe(l)
    ensures Safe(Do(l, e)) <==> BeginsApart(l, e)
  {
    if IsBegin(e) {
    } else if Leaving(l) == 0 {
      EnteringGoesOn(l, e);
    } else {
      LeavingGoesOn(l, e);
    }
  }

  lemma EnteringGoesOn(l: Locks, e: Step)
    requires Safe(l) && Leaving(l) == 0 && !IsBegin(e)
    ensures Safe(Do(l, e))
  {
  }

  lemma LeavingGoesOn(l: Locks, e: Step)
    requires Safe(l) && Leaving(l) > 0 && !IsBegin(e)
    ensures Safe(Do(l, e))
  {
  }

  predicate KindsApart(l: Locks, steps: seq<Step>)
    decreases |steps|
  {
    steps != [] ==> BeginsApart(l, steps[0]) && KindsApart(Do(l, steps[0]), steps[1..])
  }

  /** Over any run whose calls begin apart, sharing and a stored connection go together whenever all calls are through. */
  lemma {:induction false} KindsApartKeepLink(l: Locks, steps: seq<Step>)
    requires Safe(l) && KindsApart(l, steps)
    ensures var t := DoAll(l, steps); Safe(t) && (AtRest(t) ==> Linked(t))
    decreases |steps|
  {
    if steps == [] {
    } else {
      BeginIsSafeExactly(l, steps[0]);
      KindsApartKeepLink(Do(l, steps[0]), steps[1..]);
    }
  }

  lemma {:induction false} NoBeginKeepsApart(l: Locks, steps: seq<Step>)
    requires NoBegin(steps)
    ensures KindsApart(l, steps)
    decreases |steps|
  {
    if steps == [] {
    } else {
      assert !IsBegin(steps[0]);
      NoBeginKeepsApart(Do(l, steps[0]), steps[1..]);
    }
  }

  // ---------- Calls carried through in any order ----------

  function Work(l: Locks): nat {
    2 * l.toStore + l.toPublish + 2 * l.toTake + l.toConclude + l.toReplace
  }

  function StepPublishingLast(l: Locks): Step {
    if l.toStore > 0 then Store(0) else if l.toTake > 0 then Take else if l.toConclude > 0 then Conclude(Idle)
    else if l.toReplace > 0 then Replace(Idle) else Publish
  }

  function StepLeavingLast(l: Locks): Step {
    if l.toStore > 0 then Store(0) else if l.toTake > 0 then Take else if l.toPublish > 0 then Publish
    else if l.toConclude > 0 then Conclude(Idle) else Replace(Idle)
  }

  /** Lets all calls through, those that publish last. */
  function PublishLast(l: Locks): seq<Step>
    decreases Work(l)
  {
    if AtRest(l) then [] else [StepPublishingLast(l)] + PublishLast(Do(l, StepPublishingLast(l)))
  }

  /** Lets all calls through, those that conclude or replace last. */
  function LeaveLast(l: Locks): seq<Step>
    decreases Work(l)
  {
    if AtRest(l) then [] else [StepLeavingLast(l)] + LeaveLast(Do(l, StepLeavingLast(l)))
  }

  /** Either way all stores come before all takes, which decides the connection. */
  function Decided(l: Locks): Option<Conn> {
    if l.toTake > 0 then None else if l.toStore > 0 then Some(0) else l.connection
  }

  lemma PublishingStep(l: Locks)
    requires Entering(l) > 0
    ensures var next := Do(l, StepPublishingLast(l));
            && Work(next) < Work(l) && Decided(next) == Decided(l)
            && (Entering(next) > 0 || (AtRest(next) && next.phase.Sharing? && next.connection == Decided(l)))
  {
  }

  lemma LeavingStep(l: Locks)
    requires Leaving(l) > 0
    ensures var next := Do(l, StepLeavingLast(l));
            && Work(next) < Work(l) && Decided(next) == Decided(l)
            && (Leaving(next) > 0 || (AtRest(next) && !next.phase.Sharing? && next.connection == Decided(l)))
  {
  }

  lemma OneThenAll(l: Locks, e: Step, rest: seq<Step>)
    requires !IsBegin(e) && NoBegin(rest)
    ensures DoAll(l, [e] + rest) == DoAll(Do(l, e), rest) && NoBegin([e] + rest)
  {
    assert ([e] + rest)[1..] == rest;
  }

  lemma {:induction false} PublishLastEnds(l: Locks)
    requires Entering(l) > 0
    ensures var t := DoAll(l, PublishLast(l)); AtRest(t) && t.phase.Sharing? && t.connection == Decided(l)
    ensures NoBegin(PublishLast(l))
    decreases Work(l)
  {
    var next := Do(l, StepPublishingLast(l));
    PublishingStep(l);
    if Entering(next) > 0 {
      PublishLastEnds(next);
    }
    OneThenAll(l, StepPublishingLast(l), PublishLast(next));
  }

  lemma {:induction false} LeaveLastEnds(l: Locks)
    requires Leaving(l) > 0
    ensures var t := DoAll(l, LeaveLast(l)); AtRest(t) && !t.phase.Sharing? && t.connection == Decided(l)
    ensures NoBegin(LeaveLast(l))
    decreases Work(l)
  {
    var next := Do(l, StepLeavingLast(l));
    LeavingStep(l);
    if Leaving(next) > 0 {
      LeaveLastEnds(next);
    }
    OneThenAll(l, StepLeavingLast(l), LeaveLast(next));
  }

  /** A way through that ends unlinked, where there is one. */
  lemma UnsafeBreaks(l: Locks) returns (steps: seq<Step>)
    ensures Safe(l) || (NoBegin(steps) && AtRest(DoAll(l, steps)) && !Linked(DoAll(l, steps)))
  {
    if AtRest(l) {
      steps := [];
    } else if Entering(l) > 0 && (Leaving(l) == 0 || Decided(l).None?) {
      PublishLastEnds(l);
      steps := PublishLast(l);
    } else {
      LeaveLastEnds(l);
      steps := LeaveLast(l);
    }
  }

  /**
   Exactly then, from whatever state: every way the calls on their way can be carried through ends linked if and only if
   the state is safe.
   */
  lemma LinkKeptExactly(l: Locks)
    ensures (forall steps | NoBegin(steps) && AtRest(DoAll(l, steps)) :: Linked(DoAll(l, steps))) <==> Safe(l)
  {
    if Safe(l) {
      forall steps | NoBegin(steps) && AtRest(DoAll(l, steps)) ensures Linked(DoAll(l, steps)) {
        NoBeginKeepsApart(l, steps);
        KindsApartKeepLink(l, steps);
      }
    } else {
      var steps := UnsafeBreaks(l);
      assert NoBegin(steps) && AtRest(DoAll(l, steps)) && !Linked(DoAll(l, steps));
    }
  }

  // ---------- The stores are those of the calls ----------

  /** A disconnect that runs between the two stores of `enter_sharing` leaves sharing without a connection. */
  lemma DisconnectBetweenStores(conn: Conn, reason: string)
    ensures var begun := Do(Do(Locks(None, Idle, 0, 0, 0, 0, 0), BeginEnter), BeginClear);
            Do(Do(Do(Do(begun, Store(conn)), Take), Conclude(Disconnected(reason))), Publish) == Locks(None, Sharing, 0, 0, 0, 0, 0)
  {
  }

  /** The link's part of a session state, with no call on its way. */
  function Rest(s: State): Locks {
    Locks(s.connection, s.info.phase, 0, 0, 0, 0, 0)
  }

  /** Undisturbed, the stores of each call make up its step of the session. */
  lemma StoresMakeCalls(s: State, conn: Conn, granted: nat, screen: nat, reason: string, device: string)
    ensures Do(Do(Do(Rest(s), BeginEnter), Store(conn)), Publish) == Rest(Shared(s, conn, granted, screen))
    ensures Do(Do(Do(Rest(s), BeginClear), Take), Conclude(Disconnected(reason))) == Rest(Dropped(s, reason))
    ensures Do(Do(Do(Rest(s), BeginClear), Take), Conclude(Error(reason))) == Rest(Failed(s, reason))
    ensures !Busy(s.info.phase) ==> Do(Do(Rest(s), BeginReplace), Replace(Connecting)) == Rest(Started(s, device))
    ensures Do(Do(Rest(s), BeginReplace), Replace(WaitingConfirm)) == Rest(Arrived(s, conn, device))
    ensures s.pending.Some? ==> Do(Do(Rest(s), BeginReject), Replace(Disconnected(reason))) == Rest(RejectedPending(s, reason))
  {
  }

  /**
   So rejecting a visitor that still waits while the session shares leaves the connection stored without sharing, with no
   other call on its way.
   */
  lemma RejectionStrays(s: State, reason: string)
    requires s.pending.Some? && s.connection.Some?
    ensures !Safe(Do(Rest(s), BeginReject)) && !Linked(Rest(RejectedPending(s, reason)))
  {
  }
}
