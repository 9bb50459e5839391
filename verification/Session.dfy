/**
 The desktop-sharing session (desktop_share/session.rs): one state record, the active connection,
 a connection waiting for the user's confirmation, and its request. What the network does is a parameter.
 */
module Session {
  import opened Bytes

  type Conn = nat

  datatype Role = NoRole | Controller | Host

  datatype Phase = Idle | WaitingConfirm | Connecting | Sharing | Disconnected(reason: string) | Error(message: string)

  datatype Info = Info(phase: Phase, role: Role, device: Option<string>, granted: Option<nat>, screen: Option<nat>)

  datatype State = State(info: Info, connection: Option<Conn>, pending: Option<Conn>, request: Option<string>)

  const INITIAL := State(Reset(Idle), None, None, None)

  function Reset(phase: Phase): Info {
    Info(phase, NoRole, None, None, None)
  }

  predicate Busy(phase: Phase) {
    phase.Connecting? || phase.WaitingConfirm? || phase.Sharing?
  }

  /** How a request to another device can go. */
  datatype Outcome = Unreachable | NotSent | Accepted(conn: Conn, granted: nat, screen: nat) | Rejected(reason: string) | Unexpected | Broken | NoAnswer

  // ---------- State changes ----------

  function Failed(s: State, message: string): State {
    State(Reset(Error(message)), None, None, None)
  }

  function Shared(s: State, conn: Conn, granted: nat, screen: nat): State {
    s.(connection := Some(conn), info := s.info.(phase := Sharing, granted := Some(granted), screen := Some(screen)))
  }

  function Started(s: State, device: string): State {
    s.(info := Info(Connecting, Controller, Some(device), None, None))
  }

  function Message(outcome: Outcome): string {
    match outcome
    case Rejected(reason) => "rejected: " + reason
    case Unexpected => "unexpected message"
    case NoAnswer => "confirmation timed out"
    case _ => "network error"
  }

  function Finished(s: State, outcome: Outcome): State {
    if outcome.Accepted? then Shared(s, outcome.conn, outcome.granted, outcome.screen) else Failed(s, Message(outcome))
  }

  function Requested(s: State, device: string, outcome: Outcome): State {
    if Busy(s.info.phase) then s else Finished(Started(s, device), outcome)
  }

  function Arrived(s: State, conn: Conn, device: string): State {
    if Busy(s.info.phase) then s
    else State(Info(WaitingConfirm, Host, Some(device), None, None), s.connection, Some(conn), Some(device))
  }

  /** The waiting connection is taken before the answer is sent. */
  function AcceptedPending(s: State, sent: bool, granted: nat, screen: nat): State {
    if s.pending.None? then s
    else if !sent then s.(pending := None)
    else Shared(s.(pending := None), s.pending.value, granted, screen)
  }

  function RejectedPending(s: State, reason: string): State {
    if s.pending.None? then s else State(Reset(Disconnected(reason)), s.connection, None, None)
  }

  function Dropped(s: State, reason: string): State {
    State(Reset(Disconnected(reason)), None, None, None)
  }

  // ---------- The manager ----------

  class SessionManager {
    var info: Info
    var connection: Option<Conn>
    var pending: Option<Conn>
    var request: Option<string>

    function Now(): State
      reads this
    {
      State(info, connection, pending, request)
    }

    constructor ()
      ensures Now() == INITIAL
    {
      info, connection, pending, request := Reset(Idle), None, None, None;
    }

    method SetInfo(to: Info)
      modifies this
      ensures Now() == old(Now()).(info := to)
    {
      info := to;
    }

    method Fail(message: string)
      modifies this
      ensures Now() == Failed(old(Now()), message)
    {
      connection := None;
      pending := None;
      request := None;
      SetInfo(Reset(Error(message)));
    }

    method EnterSharing(conn: Option<Conn>, granted: Option<nat>, screen: Option<nat>)
      modifies this
      ensures conn.Some? && granted.Some? && screen.Some? ==> Now() == Shared(old(Now()), conn.value, granted.value, screen.value)
      ensures info.phase == Sharing && pending == old(pending) && request == old(request)
    {
      if conn.Some? {
        connection := conn;
      }
      var next := info.(phase := Sharing);
      if granted.Some? {
        next := next.(granted := granted);
      }
      if screen.Some? {
        next := next.(screen := screen);
      }
      info := next;
    }

    method RequestConnect(device: string, outcome: Outcome) returns (conn: Option<Conn>)
      modifies this
      ensures Now() == Requested(old(Now()), device, outcome)
      ensures conn == if !Busy(old(info).phase) && outcome.Accepted? then Some(outcome.conn) else None
    {
      if Busy(info.phase) {
        return None;
      }
      SetInfo(Info(Connecting, Controller, Some(device), None, None));
      match outcome {
        case Accepted(c, granted, screen) =>
          EnterSharing(Some(c), Some(granted), Some(screen));
          return Some(c);
        case _ =>
          Fail(Message(outcome));
          return None;
      }
    }

    method HandleIncoming(conn: Conn, first: Option<string>) returns (asked: Option<string>)
      modifies this
      ensures Now() == if first.Some? then Arrived(old(Now()), conn, first.value) else old(Now())
      ensures asked == if Busy(old(info).phase) then None else first
    {
      if first.None? {
        return None;
      }
      if Busy(info.phase) {
        return None;
      }
      pending := Some(conn);
      request := first;
      SetInfo(Info(WaitingConfirm, Host, first, None, None));
      return first;
    }

    method AcceptPending(sent: bool, granted: nat, screen: nat) returns (conn: Option<Conn>)
      modifies this
      ensures Now() == AcceptedPending(old(Now()), sent, granted, screen)
      ensures conn == if sent then old(pending) else None
    {
      var taken := pending;
      pending := None;
      if taken.None? || !sent {
        return None;
      }
      EnterSharing(taken, Some(granted), Some(screen));
      return taken;
    }

    method RejectPending(reason: string) returns (ok: bool)
      modifies this
      ensures Now() == RejectedPending(old(Now()), reason) && ok == old(pending).Some?
    {
      var taken := pending;
      pending := None;
      if taken.None? {
        return false;
      }
      request := None;
      SetInfo(Reset(Disconnected(reason)));
      return true;
    }

    method Disconnect(reason: string)
      modifies this
      ensures Now() == Dropped(old(Now()), reason)
    {
      connection := None;
      pending := None;
      request := None;
      SetInfo(Reset(Disconnected(reason)));
    }
  }

  // ---------- Calls that run to completion ----------

  datatype Call =
    | RequestConnect(device: string, outcome: Outcome)
    | HandleIncoming(conn: Conn, first: Option<string>)
    | AcceptPending(sent: bool, granted: nat, screen: nat)
    | RejectPending(reason: string)
    | Disconnect(reason: string)

  function After(s: State, call: Call): State {
    match call
    case RequestConnect(device, outcome) => Requested(s, device, outcome)
    case HandleIncoming(conn, first) => if first.Some? then Arrived(s, conn, first.value) else s
    case AcceptPending(sent, granted, screen) => AcceptedPending(s, sent, granted, screen)
    case RejectPending(reason) => RejectedPending(s, reason)
    case Disconnect(reason) => Dropped(s, reason)
  }

  function AfterAll(s: State, calls: seq<Call>): State
    decreases |calls|
  {
    if calls == [] then s else AfterAll(After(s, calls[0]), calls[1..])
  }

  predicate Consistent(s: State) {
    && (s.info.phase.Sharing? <==> s.connection.Some?)
    && (s.pending.Some? ==> s.info.role == Host && s.info.phase.WaitingConfirm? && s.request == s.info.device && s.request.Some?)
    && !(s.connection.Some? && s.pending.Some?)
    && !s.info.phase.Connecting?
    && (s.info.role == NoRole <==> !Busy(s.info.phase))
    && (s.info.phase.WaitingConfirm? ==> s.info.role == Host)
    && (s.info.phase.Sharing? <==> s.info.granted.Some?) && (s.info.phase.Sharing? <==> s.info.screen.Some?)
  }

  /** In every state the calls lead to, sharing and a stored connection go together, and a waiting request is the host's alone. */
  lemma {:induction false} AlwaysConsistent(s: State, calls: seq<Call>)
    requires Consistent(s)
    ensures Consistent(AfterAll(s, calls))
    decreases |calls|
  {
    if calls == [] {
    } else {
      AlwaysConsistent(After(s, calls[0]), calls[1..]);
    }
  }

  lemma ReachableConsistent(calls: seq<Call>)
    ensures Consistent(AfterAll(INITIAL, calls))
  {
    AlwaysConsistent(INITIAL, calls);
  }

  /** What both roles come to: who is asked or asks, what was granted, and that nothing of a rejected request remains. */
  lemma WholeSessions(s: State, device: string, conn: Conn, granted: nat, screen: nat, reason: string)
    requires Consistent(s) && !Busy(s.info.phase)
    ensures After(s, RequestConnect(device, Accepted(conn, granted, screen)))
         == State(Info(Sharing, Controller, Some(device), Some(granted), Some(screen)), Some(conn), None, s.request)
    ensures AfterAll(s, [HandleIncoming(conn, Some(device)), AcceptPending(true, granted, screen)])
         == State(Info(Sharing, Host, Some(device), Some(granted), Some(screen)), Some(conn), None, Some(device))
    ensures AfterAll(s, [HandleIncoming(conn, Some(device)), RejectPending(reason)]) == State(Reset(Disconnected(reason)), None, None, None)
  {
    var arrived := Arrived(s, conn, device);
    assert [HandleIncoming(conn, Some(device)), AcceptPending(true, granted, screen)][1..] == [AcceptPending(true, granted, screen)];
    assert [HandleIncoming(conn, Some(device)), RejectPending(reason)][1..] == [RejectPending(reason)];
    assert AfterAll(arrived, [AcceptPending(true, granted, screen)]) == After(arrived, AcceptPending(true, granted, screen));
    assert AfterAll(arrived, [RejectPending(reason)]) == After(arrived, RejectPending(reason));
  }

  /** An accept whose answer could not be sent: still waiting, with nothing to wait for. */
  predicate Stuck(s: State) {
    s.info.phase.WaitingConfirm? && s.pending.None?
  }

  /** It is reached only that way, and only `disconnect` leaves it. */
  lemma StuckExactly(s: State, call: Call)
    requires Consistent(s)
    ensures !Stuck(s) ==> (Stuck(After(s, call)) <==> s.pending.Some? && call.AcceptPending? && !call.sent)
    ensures Stuck(s) ==> if call.Disconnect? then After(s, call).info == Reset(Disconnected(call.reason)) else After(s, call) == s
  {
  }

  lemma {:induction false} StuckUntilDisconnect(s: State, calls: seq<Call>)
    requires Stuck(s) && forall i | 0 <= i < |calls| :: !calls[i].Disconnect?
    ensures AfterAll(s, calls) == s
    decreases |calls|
  {
    if calls == [] {
    } else {
      StuckUntilDisconnect(After(s, calls[0]), calls[1..]);
    }
  }

  // ---------- Calls that overlap at the network ----------

  /**
   Calls in flight: requests waiting for an answer, and accepts, rejects and disconnects waiting for their message to go
   out. A disconnect of a live connection keeps the connection's lock while it waits, so calls that are to store or clear
   the connection wait for it: their events do nothing until it is through.
   */
  datatype Overlap = Overlap(s: State, connecting: nat, accepting: seq<Conn>, rejecting: nat, dropping: bool)

  datatype Event =
    | StartConnect(device: string)
    | ConnectEnds(outcome: Outcome)
    | Incoming(conn: Conn, device: string)
    | StartAccept
    | AcceptEnds(i: nat, sent: bool, granted: nat, screen: nat)
    | StartReject
    | RejectEnds(reason: string)
    | StartDrop(reason: string)
    | DropEnds(reason: string)

  function Next(o: Overlap, e: Event): Overlap {
    match e
    case StartConnect(device) => if Busy(o.s.info.phase) then o else o.(s := Started(o.s, device), connecting := o.connecting + 1)
    case ConnectEnds(outcome) =>
      if o.connecting == 0 || o.dropping then o else o.(s := Finished(o.s, outcome), connecting := o.connecting - 1)
    case Incoming(conn, device) => o.(s := Arrived(o.s, conn, device))
    case StartAccept => if o.s.pending.None? then o else o.(s := o.s.(pending := None), accepting := o.accepting + [o.s.pending.value])
    case AcceptEnds(i, sent, granted, screen) =>
      if i >= |o.accepting| || (sent && o.dropping) then o
      else o.(accepting := o.accepting[..i] + o.accepting[i + 1..], s := if sent then Shared(o.s, o.accepting[i], granted, screen) else o.s)
    case StartReject => if o.s.pending.None? then o else o.(s := o.s.(pending := None), rejecting := o.rejecting + 1)
    case RejectEnds(reason) =>
      if o.rejecting == 0 then o
      else o.(s := o.s.(request := None, info := Reset(Disconnected(reason))), rejecting := o.rejecting - 1)
    case StartDrop(reason) =>
      if o.dropping then o
      else if o.s.connection.None? then o.(s := Dropped(o.s, reason))
      else o.(s := o.s.(connection := None), dropping := true)
    case DropEnds(reason) =>
      if !o.dropping then o
      else o.(s := State(Reset(Disconnected(reason)), o.s.connection, None, None), dropping := false)
  }

  function NextAll(o: Overlap, events: seq<Event>): Overlap
    decreases |events|
  {
    if events == [] then o else NextAll(Next(o, events[0]), events[1..])
  }

  const QUIET := Overlap(INITIAL, 0, [], 0, false)

  /** However calls overlap at the network, sharing without a stored connection means that a disconnect is in flight. */
  predicate Backed(o: Overlap) {
    o.s.info.phase.Sharing? ==> o.s.connection.Some? || o.dropping
  }

  lemma {:induction false} SharingHasConnection(o: Overlap, events: seq<Event>)
    requires Backed(o)
    ensures Backed(NextAll(o, events))
    decreases |events|
  {
    if events == [] {
    } else {
      SharingHasConnection(Next(o, events[0]), events[1..]);
    }
  }

  predicate NoDrop(events: seq<Event>) {
    forall i | 0 <= i < |events| :: !events[i].StartDrop?
  }

  /** Without disconnects of a live connection it means a stored connection, always. */
  lemma {:induction false} SharingWithoutDrops(o: Overlap, events: seq<Event>)
    requires Backed(o) && !o.dropping && NoDrop(events)
    ensures var t := NextAll(o, events); t.s.info.phase.Sharing? ==> t.s.connection.Some?
    decreases |events|
  {
    if events == [] {
    } else {
      SharingWithoutDrops(Next(o, events[0]), events[1..]);
    }
  }

  // ---------- When overlapping calls keep the link ----------

  /** A stored connection means sharing, and is never there beside a waiting one. */
  predicate Linked(s: State) {
    s.connection.Some? ==> s.info.phase.Sharing? && s.pending.None?
  }

  /** No request, accept or reject is in flight. */
  predicate Free(o: Overlap) {
    o.connecting == 0 && o.accepting == [] && o.rejecting == 0
  }

  function InFlight(o: Overlap): nat {
    o.connecting + |o.accepting| + o.rejecting + if o.dropping then 1 else 0
  }

  /** At most one call is in flight or waits for the user, and the phase says which. */
  predicate Orderly(o: Overlap) {
    && InFlight(o) + (if o.s.pending.Some? then 1 else 0) <= 1
    && (o.s.info.phase.Connecting? <==> o.connecting == 1)
    && (o.s.pending.Some? || o.accepting != [] || o.rejecting == 1 ==> o.s.info.phase.WaitingConfirm?)
    && (if o.dropping then o.s.info.phase.Sharing? && o.s.connection.None? else o.s.info.phase.Sharing? <==> o.s.connection.Some?)
  }

  /** Every disconnect of the run starts when no other call is in flight. */
  predicate DropsWhenFree(o: Overlap, events: seq<Event>)
    decreases |events|
  {
    events != [] ==> (events[0].StartDrop? ==> Free(o)) && DropsWhenFree(Next(o, events[0]), events[1..])
  }

  /**
   However the other calls overlap: while disconnects start only when no other call is in flight, sharing and a stored
   connection go together, but for a disconnect on its way, and never is there a stored and a waiting one.
   */
  lemma {:induction false} FreeDropsKeepLink(o: Overlap, events: seq<Event>)
    requires Orderly(o) && DropsWhenFree(o, events)
    ensures var t := NextAll(o, events);
            Orderly(t) && Linked(t.s) && (!t.dropping ==> (t.s.info.phase.Sharing? <==> t.s.connection.Some?))
    decreases |events|
  {
    if events == [] {
    } else {
      OrderlyNext(o, events[0]);
      FreeDropsKeepLink(Next(o, events[0]), events[1..]);
    }
  }

  lemma OrderlyNext(o: Overlap, e: Event)
    requires Orderly(o) && (e.StartDrop? ==> Free(o))
    ensures Orderly(Next(o, e))
  {
  }

  lemma {:induction false} NoDropIsFree(o: Overlap, events: seq<Event>)
    requires NoDrop(events)
    ensures DropsWhenFree(o, events)
    decreases |events|
  {
    if events == [] {
    } else {
      NoDropIsFree(Next(o, events[0]), events[1..]);
    }
  }

  /**
   That condition is exact: a disconnect keeps the link over every continuation without another one if and only if it
   starts when no request, accept or reject is in flight.
   */
  lemma DropKeepsLinkExactly(o: Overlap, reason: string)
    requires Orderly(o)
    ensures (forall events | NoDrop(events) :: Linked(NextAll(Next(o, StartDrop(reason)), events).s)) <==> Free(o)
  {
    var dropped := Next(o, StartDrop(reason));
    if Free(o) {
      OrderlyNext(o, StartDrop(reason));
      forall events | NoDrop(events) ensures Linked(NextAll(dropped, events).s) {
        NoDropIsFree(dropped, events);
        FreeDropsKeepLink(dropped, events);
      }
    } else {
      var events := Harm(o);
      HarmBreaks(o, reason);
      assert NoDrop(events) && !Linked(NextAll(dropped, events).s);
    }
  }

  /** What breaks the link after a disconnect while the call in flight goes on. */
  function Harm(o: Overlap): seq<Event> {
    var answer := Accepted(0, 0, 0);
    if o.connecting > 0 then [Incoming(1, "")] + [ConnectEnds(answer)]
    else if o.accepting != [] then [Incoming(1, "")] + [AcceptEnds(0, true, 0, 0)]
    else [StartConnect("")] + ([ConnectEnds(answer)] + [RejectEnds("")])
  }

  lemma NextTwo(o: Overlap, e0: Event, e1: Event)
    ensures NextAll(o, [e0] + [e1]) == Next(Next(o, e0), e1)
  {
    assert ([e0] + [e1])[1..] == [e1] && [e1][1..] == [];
    assert NextAll(Next(o, e0), [e1]) == Next(Next(o, e0), e1);
  }

  lemma HarmBreaks(o: Overlap, reason: string)
    requires Orderly(o) && !Free(o)
    ensures NoDrop(Harm(o)) && !Linked(NextAll(Next(o, StartDrop(reason)), Harm(o)).s)
  {
    var dropped := Next(o, StartDrop(reason));
    var answer := Accepted(0, 0, 0);
    if o.connecting > 0 {
      NextTwo(dropped, Incoming(1, ""), ConnectEnds(answer));
    } else if o.accepting != [] {
      NextTwo(dropped, Incoming(1, ""), AcceptEnds(0, true, 0, 0));
    } else {
      var rest := [ConnectEnds(answer)] + [RejectEnds("")];
      assert ([StartConnect("")] + rest)[1..] == rest;
      NextTwo(Next(dropped, StartConnect("")), ConnectEnds(answer), RejectEnds(""));
    }
  }

  /** An accept that comes through leaves every other one on its way as it was. */
  lemma OthersStayInFlight(o: Overlap, i: nat, sent: bool, granted: nat, screen: nat, k: nat)
    requires i < |o.accepting| && !(sent && o.dropping) && k < |o.accepting| - 1
    ensures var after := Next(o, AcceptEnds(i, sent, granted, screen));
            && |after.accepting| == |o.accepting| - 1 && after.accepting[k] == o.accepting[if k < i then k else k + 1]
            && after.connecting == o.connecting && after.rejecting == o.rejecting && after.dropping == o.dropping
  {
  }

  /** A call whose two halves meet in flight is the step of the call that runs to completion. */
  lemma HalvesMakeCalls(o: Overlap, device: string, outcome: Outcome, sent: bool, granted: nat, screen: nat, reason: string)
    requires !o.dropping
    ensures !Busy(o.s.info.phase) ==>
              Next(Next(o, StartConnect(device)), ConnectEnds(outcome)) == o.(s := After(o.s, RequestConnect(device, outcome)))
    ensures o.s.pending.Some? ==>
              Next(Next(o, StartAccept), AcceptEnds(|o.accepting|, sent, granted, screen)) == o.(s := After(o.s, AcceptPending(sent, granted, screen)))
    ensures o.s.pending.Some? ==> Next(Next(o, StartReject), RejectEnds(reason)) == o.(s := After(o.s, RejectPending(reason)))
    ensures o.s.connection.Some? ==> Next(Next(o, StartDrop(reason)), DropEnds(reason)) == o.(s := After(o.s, Disconnect(reason)))
  {
    if o.s.pending.Some? {
      var started := Next(o, StartAccept);
      assert started.accepting[..|o.accepting|] + started.accepting[|o.accepting| + 1..] == o.accepting;
    }
  }

  /**
   The first case in full: a request given up locally is answered while another device's request waits; rejecting that
   one leaves a connection stored without sharing. In between, both a connection and a waiting one exist.
   */
  lemma ConverseFails(mine: string, theirs: string, reason: string, outcome: Outcome, conn: Conn)
    requires outcome.Accepted?
    ensures var waiting := Next(Next(Next(QUIET, StartConnect(mine)), StartDrop(reason)), Incoming(conn, theirs));
            var both := Next(waiting, ConnectEnds(outcome));
            var end := Next(Next(both, StartReject), RejectEnds(reason));
            && both.s.connection.Some? && both.s.pending.Some? && both.s.info.phase.Sharing? && both.s.info.role == Host
            && end.s.connection.Some? && end.s.info.phase == Disconnected(reason)
  {
  }
}
