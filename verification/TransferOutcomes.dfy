/**
 How sessions of the transfer protocol end: a paused send, and attempts that nobody disturbs.
 */
module TransferOutcomes {
  import opened Bytes
  import opened Messages
  import opened Transfer
  import opened TransferData
  import opened TransferTheorems

  // ---------- Runs in pieces ----------

  lemma {:induction false} RunConcat(c: Config, s: State, a: seq<Event>, b: seq<Event>)
    ensures Run(c, s, a + b) == Run(c, Run(c, s, a), b)
    decreases |a|
  {
    if a == [] {
      assert a + b == b;
    } else {
      assert (a + b)[1..] == a[1..] + b;
      RunConcat(c, Step(c, s, a[0]), a[1..], b);
    }
  }

  lemma RunOne(c: Config, s: State, e: Event)
    ensures Run(c, s, [e]) == Step(c, s, e)
  {
    assert [e][1..] == [];
  }

  lemma {:induction false} SessionsCount(c: Config, s: State, events: seq<Event>)
    ensures Run(c, s, events).id >= s.id
    decreases |events|
  {
    if events == [] {
    } else {
      SessionStep(c, s, events[0]);
      SessionsCount(c, Step(c, s, events[0]), events[1..]);
    }
  }

  /** Only a new session counts up. */
  lemma SessionStep(c: Config, s: State, e: Event)
    ensures Step(c, s, e).id == if e.Begin? && SessionOver(s) then s.id + 1 else s.id
    ensures s.pause.CancelCalled? && Step(c, s, e).id == s.id ==> Step(c, s, e).pause.CancelCalled?
  {
    match e
    case SenderTake => CallFrameTake(c, s);
    case SendChunk(n) => CallFrameSends(c, s, n);
    case SendComplete => CallFrameSends(c, s, 0);
    case SeeFlag => CallFrameEnds(c, s);
    case CheckPaused => CallFrameEnds(c, s);
    case FinishSend => CallFrameEnds(c, s);
    case Crash(written) => SenderFrameNetwork(s, written, 0, 0);
    case Duplicate(i, j) => SenderFrameNetwork(s, 0, i, j);
    case Cut(keepR, keepS) => SenderFrameNetwork(s, 0, keepR, keepS);
    case Check => SenderFrameCheck(c, s);
    case Rename => SenderFrameCheck(c, s);
    case FinishReceive => SenderFrameFinish(s);
    case TakeOffer => SenderFrameOffer(c, s);
    case RefuseOffer => SenderFrameOffer(c, s);
    case Take => SenderFrameLoop(s);
    case SeeCancel => SenderFrameLoop(s);
    case SeeLoss => SenderFrameLoop(s);
    case Begin =>
    case PauseStatus =>
    case PauseFlag =>
    case CancelFlag =>
    case _ => CallFrameRest(c, s, e);
  }

  // ---------- Paused sends ----------

  /** A cancelled send stays cancelled for its session. */
  lemma {:induction false} DroppedStays(c: Config, s: State, events: seq<Event>)
    requires s.pause.CancelCalled? && Run(c, s, events).id == s.id
    ensures Run(c, s, events).pause.CancelCalled?
    decreases |events|
  {
    if events == [] {
    } else {
      SessionStep(c, s, events[0]);
      SessionsCount(c, Step(c, s, events[0]), events[1..]);
      DroppedStays(c, Step(c, s, events[0]), events[1..]);
    }
  }

  /**
   A send ended by the pause flag stays paused: whatever happens for the rest of the session short of a cancel, it keeps
   the paused status, writes no history record, and its pause check takes the paused branch.
   */
  lemma {:induction false} FlagStaysPaused(c: Config, s: State, events: seq<Event>)
    requires Inv(c, s) && Told(s) && Run(c, s, events).id == s.id && !Run(c, s, events).pause.CancelCalled?
    ensures var t := Run(c, s, events);
            Told(t) && t.status == Paused && t.records == 0 && DoCheckPaused(t).snd == PauseTold
    decreases |events|
  {
    if s.pause.CancelCalled? {
      DroppedStays(c, s, events);
    }
    if events == [] {
    } else {
      var s' := Step(c, s, events[0]);
      ToldStep(c, s, events[0]);
      SessionsCount(c, s', events[1..]);
      RunOne(c, s, events[0]);
      RunKeepsInv(c, s, [events[0]]);
      FlagStaysPaused(c, s', events[1..]);
    }
  }

  lemma ToldReceiverEnds(c: Config, t: State)
    requires Data(c, t) && Endings(t) && Prefix(c, t) && t.snd.PauseTold? && !t.disturbed && t.rcv.ReceiverDone?
    ensures if t.rcv.error == None then t.rstatus == Completed
            else t.rstatus == Paused && t.partial.Some? && t.partial.value <= c.src
  {
    PrefixNeverFails(c, t);
  }

  /**
   Undisturbed, a told receiver ends paused with a prefix of the source kept, or completed with the source in place: put
   there, or found there from the start with the offered hash.
   */
  lemma PausedReceiverEnds(c: Config, s: State, events: seq<Event>)
    requires Inv(c, s) && Prefix(c, s)
    requires var t := Run(c, s, events); t.snd.PauseTold? && !t.disturbed && t.rcv.ReceiverDone?
    ensures var t := Run(c, s, events);
            || (t.rstatus == Paused && t.partial.Some? && t.partial.value <= c.src)
            || (t.rstatus == Completed && (t.final == Some(c.src) || (t.final == s.final && Good(c, s.final))))
    ensures var t := Run(c, s, events); t.rstatus == Completed && NoCollision(c.hash, c.src) ==> t.final == Some(c.src)
  {
    RunKeepsInv(c, s, events);
    RunKeepsPrefix(c, s, events);
    FinalIsSource(c, s, events);
    ToldReceiverEnds(c, Run(c, s, events));
  }

  function Takes(n: nat): seq<Event> {
    if n == 0 then [] else [Take] + Takes(n - 1)
  }

  const FINALE: seq<Event> := ([Check] + [RemoveOld]) + ([Rename] + [FinishReceive])

  predicate HasEnd(queue: seq<Msg>) {
    exists i | 0 <= i < |queue| :: queue[i].Cancel? || queue[i].Complete?
  }

  lemma TakeLeavesSender(c: Config, s: State)
    ensures var s' := DoTake(s); SameSender(s, s') && s'.disturbed == s.disturbed && s'.cut == s.cut && s'.final == s.final && s'.offset == s.offset
    ensures s.rcv.InLoop? && s.toR != [] && !s.toR[0].Cancel? ==> DoTake(s).toS == s.toS
    ensures !s.rcv.InLoop? ==> DoTake(s) == s
  {
    assert s.toS + [] == s.toS;
  }

  predicate Cancelled(r: Receiver) {
    r.Ended? && r.error.Some? && r.error.value.PeerCancel?
  }

  lemma TakeHead(c: Config, s: State)
    requires Data(c, s) && s.rcv.InLoop? && s.toR != []
    ensures var s' := DoTake(s);
            s'.toR == s.toR[1..] && if s.toR[0].Chunk? then s'.rcv.InLoop? else s'.rcv.Checking? || Cancelled(s'.rcv)
  {
  }

  lemma EndRemains(queue: seq<Msg>)
    requires HasEnd(queue)
    ensures queue != [] && (queue[0].Chunk? ==> HasEnd(queue[1..])) && (HasCancel(queue[1..]) ==> HasCancel(queue))
  {
    var i :| 0 <= i < |queue| && (queue[i].Cancel? || queue[i].Complete?);
    if i > 0 { assert queue[1..][i - 1] == queue[i]; }
    assert queue == [queue[0]] + queue[1..];
    CancelHead(queue[0], queue[1..]);
  }

  predicate LeftLoop(s: State, t: State) {
    && SameSender(s, t) && t.disturbed == s.disturbed && t.cut == s.cut && t.final == s.final
    && (t.rcv.Checking? || Cancelled(t.rcv)) && (!HasCancel(s.toR) ==> t.toS == s.toS)
  }

  lemma {:induction false} TakesOutside(c: Config, s: State, n: nat)
    requires !s.rcv.InLoop?
    ensures Run(c, s, Takes(n)) == s
    decreases n
  {
    if n == 0 {
    } else {
      assert Takes(n)[1..] == Takes(n - 1);
      TakesOutside(c, s, n - 1);
    }
  }

  /** What reading a message inside the loop leaves alone. */
  predicate ReadOn(s: State, t: State) {
    && SameSender(s, t) && t.disturbed == s.disturbed && t.cut == s.cut && t.final == s.final
    && (!HasCancel(s.toR) ==> t.toS == s.toS && !HasCancel(t.toR))
  }

  lemma TakeReadsOn(c: Config, s: State)
    requires Data(c, s) && s.rcv.InLoop? && HasEnd(s.toR)
    ensures var t := DoTake(s);
            ReadOn(s, t) && if t.rcv.InLoop? then HasEnd(t.toR) && |t.toR| < |s.toR| else t.rcv.Checking? || Cancelled(t.rcv)
  {
    EndRemains(s.toR);
    TakeLeavesSender(c, s);
    TakeHead(c, s);
    if s.toR[0].Cancel? { assert HasCancel(s.toR); }
  }

  lemma TakesUnfold(c: Config, s: State, n: nat)
    requires n > 0
    ensures Run(c, s, Takes(n)) == Run(c, DoTake(s), Takes(n - 1))
  {
    assert Takes(n)[1..] == Takes(n - 1);
  }

  lemma LeavesAfter(s: State, s': State, t: State)
    requires ReadOn(s, s') && LeftLoop(s', t)
    ensures LeftLoop(s, t)
  {
  }

  lemma {:induction false} LeavesFrom(c: Config, s: State, s': State, n: nat)
    requires ReadOn(s, s') && Data(c, s')
    requires if s'.rcv.InLoop? then HasEnd(s'.toR) && n >= |s'.toR| else s'.rcv.Checking? || Cancelled(s'.rcv)
    ensures Data(c, Run(c, s', Takes(n))) && LeftLoop(s, Run(c, s', Takes(n)))
    decreases n, 1
  {
    if s'.rcv.InLoop? {
      TakesLeaveLoop(c, s', n);
      LeavesAfter(s, s', Run(c, s', Takes(n)));
    } else {
      TakesOutside(c, s', n);
    }
  }

  /** Reading on, the loop is left when the queue holds an end. */
  lemma {:induction false} TakesLeaveLoop(c: Config, s: State, n: nat)
    requires Data(c, s) && s.rcv.InLoop? && n >= |s.toR| && HasEnd(s.toR)
    ensures Data(c, Run(c, s, Takes(n))) && LeftLoop(s, Run(c, s, Takes(n)))
    decreases n, 0
  {
    EndRemains(s.toR);
    KeepTake(c, s);
    TakeReadsOn(c, s);
    LeavesFrom(c, s, DoTake(s), n - 1);
    TakesUnfold(c, s, n);
  }

  predicate Winding(s: State) {
    s.rcv.Checking? || s.rcv.Verified? || s.rcv.Replacing? || s.rcv.InstantSend? || s.rcv.Ended? || s.rcv.ReceiverDone?
  }

  predicate SameButReceiver(s: State, t: State) {
    SameSender(s, t) && t.disturbed == s.disturbed && t.cut == s.cut && t.offset == s.offset && t.toR == s.toR
  }

  lemma CheckWinds(c: Config, s: State)
    requires Data(c, s) && Winding(s)
    ensures var t := DoCheck(c, s);
            && SameButReceiver(s, t) && Winding(t) && !t.rcv.Checking?
            && if s.rcv.Checking? && !s.cut then t.toS == s.toS + [Verify(s.id, c.hash(s.partial.value) == c.hash(c.src))] else t.toS == s.toS
  {
  }

  lemma RemoveWinds(c: Config, s: State)
    requires Winding(s) && !s.rcv.Checking?
    ensures var t := Step(c, s, RemoveOld);
            SameButReceiver(s, t) && t.toS == s.toS && Winding(t) && !t.rcv.Checking? && !t.rcv.Verified?
  {
  }

  lemma RenameWinds(c: Config, s: State)
    requires Winding(s) && !s.rcv.Checking? && !s.rcv.Verified?
    ensures var t := DoRename(s);
            SameButReceiver(s, t) && t.toS == s.toS && (t.rcv.InstantSend? || t.rcv.Ended? || t.rcv.ReceiverDone?)
  {
  }

  lemma FinishWinds(c: Config, s: State)
    requires s.rcv.InstantSend? || s.rcv.Ended? || s.rcv.ReceiverDone?
    ensures var t := DoFinishReceive(s); SameButReceiver(s, t) && t.toS == s.toS && t.rcv.ReceiverDone?
  {
  }

  lemma RunFinale(c: Config, s: State)
    ensures Run(c, s, FINALE) == DoFinishReceive(DoRename(Step(c, DoCheck(c, s), RemoveOld)))
  {
    var s1 := DoCheck(c, s);
    var s2 := Step(c, s1, RemoveOld);
    RunConcat(c, s, [Check] + [RemoveOld], [Rename] + [FinishReceive]);
    RunTwo(c, s, Check, RemoveOld);
    RunTwo(c, s2, Rename, FinishReceive);
  }

  lemma RunTwo(c: Config, s: State, e0: Event, e1: Event)
    ensures Run(c, s, [e0] + [e1]) == Step(c, Step(c, s, e0), e1)
  {
    RunConcat(c, s, [e0], [e1]);
    RunOne(c, s, e0);
    RunOne(c, Step(c, s, e0), e1);
  }

  lemma FinaleEnds(c: Config, s: State)
    requires Data(c, s) && Winding(s)
    ensures var t := Run(c, s, FINALE);
            && t.rcv.ReceiverDone? && SameButReceiver(s, t)
            && if s.rcv.Checking? && !s.cut then t.toS == s.toS + [Verify(s.id, c.hash(s.partial.value) == c.hash(c.src))] else t.toS == s.toS
  {
    RunFinale(c, s);
    var s1 := DoCheck(c, s);
    var s2 := Step(c, s1, RemoveOld);
    CheckWinds(c, s);
    RemoveWinds(c, s1);
    RenameWinds(c, s2);
    FinishWinds(c, DoRename(s2));
  }

  /** Nothing blocks a told receiver: reading what is queued and winding up ends it. */
  lemma PausedReceiverSettles(c: Config, s: State)
    requires Inv(c, s) && s.snd.PauseTold? && !s.disturbed
    ensures var t := Run(c, s, [TakeOffer] + Takes(|s.toR|) + FINALE); t.rcv.ReceiverDone? && t.snd.PauseTold? && !t.disturbed
  {
    RunConcat(c, s, [TakeOffer] + Takes(|s.toR|), FINALE);
    RunConcat(c, s, [TakeOffer], Takes(|s.toR|));
    RunOne(c, s, TakeOffer);
    var s1 := DoTakeOffer(c, s);
    RunKeepsInv(c, s, [TakeOffer]);
    SenderFrameOffer(c, s);
    OfferOpens(c, s);
    if s1.rcv.InLoop? {
      var i :| 0 <= i < |s1.toR| && s1.toR[i].Cancel?;
      assert HasEnd(s1.toR);
      TakesLeaveLoop(c, s1, |s.toR|);
    } else {
      TakesOutside(c, s1, |s.toR|);
    }
    FinaleEnds(c, Run(c, s1, Takes(|s.toR|)));
  }

  lemma OfferOpens(c: Config, s: State)
    requires Data(c, s) && Endings(s) && !s.disturbed && !s.rcv.NoReceiver?
    ensures var t := DoTakeOffer(c, s); !t.disturbed && |t.toR| <= |s.toR| && (t.rcv.InLoop? || Winding(t))
  {
  }

  // ---------- Attempts nobody disturbs ----------

  /** Neither network, crash, user nor pause interfered with the session. */
  predicate Calm(s: State) {
    !s.disturbed && s.pause == NotCalled
  }

  /** Under every schedule, a finished calm session has put content of the offered hash in place, or removed the bad residue. */
  lemma AttemptOutcome(c: Config, s: State)
    requires Inv(c, s) && Calm(s) && s.rcv.ReceiverDone?
    ensures || (s.rcv == ReceiverDone(None) && Good(c, s.final))
            || (s.rcv == ReceiverDone(Some(VerifyFailed)) && !(s.origin <= c.src))
    ensures s.partial == None
  {
    if s.origin <= c.src {
      assert s.origin + c.src[|s.origin|..] == c.src;
    }
  }

  /** A session that started without a residue. */
  predicate FromNothing(s: State) {
    s.origin == [] && (s.rcv.Waiting? ==> s.partial == None)
  }

  lemma FromNothingLoop(c: Config, s: State)
    requires FromNothing(s)
    ensures FromNothing(DoTakeOffer(c, s)) && FromNothing(DoTake(s)) && FromNothing(DoCheck(c, s))
  {
  }

  lemma FromNothingEnds(s: State, written: nat)
    requires FromNothing(s)
    ensures FromNothing(DoRename(s)) && FromNothing(DoFinishReceive(s)) && FromNothing(DoCrash(s, written))
  {
  }

  lemma FromNothingStep(c: Config, s: State, e: Event)
    requires FromNothing(s) && !(e.Begin? && SessionOver(s))
    ensures FromNothing(Step(c, s, e))
  {
    match e
    case SenderTake => ResidueFrameSender(c, s, 0); ReceiverFrameSender(c, s, 0);
    case SendChunk(n) => ResidueFrameSender(c, s, n); ReceiverFrameSender(c, s, n);
    case SendComplete => ResidueFrameSender(c, s, 0); ReceiverFrameSender(c, s, 0);
    case TakeOffer => FromNothingLoop(c, s);
    case Take => FromNothingLoop(c, s);
    case Check => FromNothingLoop(c, s);
    case Rename => FromNothingEnds(s, 0);
    case FinishReceive => FromNothingEnds(s, 0);
    case Crash(written) => FromNothingEnds(s, written);
    case _ =>
  }

  lemma ReceiverFrameSender(c: Config, s: State, n: nat)
    ensures DoSenderTake(c, s).rcv == DoSendChunk(c, s, n).rcv == DoSendComplete(c, s).rcv == s.rcv
  {
    if s.toS != [] && SenderActive(s) { SentMeansVerified(s.(toS := s.toS[1..]), s.toS[0]); }
  }

  lemma {:induction false} FromNothingRun(c: Config, s: State, events: seq<Event>)
    requires FromNothing(s) && Run(c, s, events).id == s.id
    ensures FromNothing(Run(c, s, events))
    decreases |events|
  {
    if events == [] {
    } else {
      SessionStep(c, s, events[0]);
      SessionsCount(c, Step(c, s, events[0]), events[1..]);
      FromNothingStep(c, s, events[0]);
      FromNothingRun(c, Step(c, s, events[0]), events[1..]);
    }
  }

  /** From any residue, of any two calm attempts one leaves content of the offered hash at the final path. */
  lemma TwoAttempts(c: Config, s: State, first: seq<Event>, second: seq<Event>)
    requires Inv(c, s) && SessionOver(s)
    requires var s1 := Run(c, s, [Begin] + first); Calm(s1) && s1.rcv.ReceiverDone? && SessionOver(s1) && s1.id == s.id + 1
    requires var s1 := Run(c, s, [Begin] + first); var s2 := Run(c, s1, [Begin] + second);
             Calm(s2) && s2.rcv.ReceiverDone? && s2.id == s1.id + 1
    ensures var s1 := Run(c, s, [Begin] + first); var s2 := Run(c, s1, [Begin] + second); Good(c, s1.final) || Good(c, s2.final)
  {
    var s1 := Run(c, s, [Begin] + first);
    RunKeepsInv(c, s, [Begin] + first);
    AttemptOutcome(c, s1);
    if s1.rcv != ReceiverDone(None) {
      AttemptFromNothing(c, s1, second);
    }
  }

  /** A calm attempt that starts without a residue always completes. */
  lemma AttemptFromNothing(c: Config, s: State, events: seq<Event>)
    requires Inv(c, s) && SessionOver(s) && s.partial == None
    requires var t := Run(c, s, [Begin] + events); Calm(t) && t.rcv.ReceiverDone? && t.id == s.id + 1
    ensures Good(c, Run(c, s, [Begin] + events).final)
  {
    var b := DoBegin(c, s);
    RunConcat(c, s, [Begin], events);
    RunOne(c, s, Begin);
    RunKeepsInv(c, s, [Begin] + events);
    FromNothingRun(c, b, events);
    AttemptOutcome(c, Run(c, s, [Begin] + events));
  }

  // ---------- Such an attempt exists from every idle state ----------

  function Sends(n: nat): seq<Event> {
    if n == 0 then [] else [SendChunk(1)] + Sends(n - 1)
  }

  const OPENING: seq<Event> := [Begin] + [TakeOffer] + [SenderTake]

  function Closing(size: nat): seq<Event> {
    [SendComplete] + (Takes(size + 1) + FINALE)
  }

  const ANSWERING: seq<Event> := [SenderTake] + ([CheckPaused] + [FinishSend])

  /** Offer, one-byte chunks, completion, check, answer. */
  function Attempt(size: nat): seq<Event> {
    OPENING + (Sends(size) + (Closing(size) + ANSWERING))
  }

  predicate Streaming(c: Config, s: State) {
    && Inv(c, s) && Calm(s) && s.snd.Sending? && s.offset.Some? && !s.flag
    && (if s.rcv.InLoop? then s.toS == [] else s.rcv.InstantSend? && s.toS == [Verify(s.id, true)])
  }

  /** The offer is out and nothing else. */
  predicate Begun(c: Config, s: State) {
    && Inv(c, s) && Calm(s) && !s.flag && s.snd.AwaitAccept? && s.rcv.Waiting? && s.toS == []
    && s.toR == [OfferMsg(c.TheOffer(s.id))]
  }

  /** It is answered. */
  predicate Opened(c: Config, s: State) {
    && Inv(c, s) && Calm(s) && !s.flag && s.snd.AwaitAccept? && s.toR == []
    && if s.rcv.InLoop? then s.toS == [Accept(s.id, s.rcv.received)]
       else s.rcv.InstantSend? && s.toS == [Accept(s.id, |c.src|), Verify(s.id, true)]
  }

  lemma AttemptBegins(c: Config, s: State)
    requires Inv(c, s) && SessionOver(s)
    ensures Begun(c, DoBegin(c, s)) && DoBegin(c, s).id == s.id + 1
  {
    RunOne(c, s, Begin);
    RunKeepsInv(c, s, [Begin]);
  }

  lemma OfferIsTaken(c: Config, s: State)
    requires Begun(c, s)
    ensures Opened(c, DoTakeOffer(c, s)) && DoTakeOffer(c, s).id == s.id
  {
    RunOne(c, s, TakeOffer);
    RunKeepsInv(c, s, [TakeOffer]);
    var t := DoTakeOffer(c, s);
    assert t.toR == [];
    if t.rcv.InLoop? {
      assert t.toS == [Accept(s.id, t.rcv.received)];
    }
  }

  lemma AcceptIsTaken(c: Config, s: State)
    requires Opened(c, s)
    ensures Streaming(c, DoSenderTake(c, s)) && DoSenderTake(c, s).toR == [] && DoSenderTake(c, s).id == s.id
  {
    RunOne(c, s, SenderTake);
    RunKeepsInv(c, s, [SenderTake]);
  }

  lemma AttemptOpens(c: Config, s: State)
    requires Inv(c, s) && SessionOver(s)
    ensures var t := DoSenderTake(c, DoTakeOffer(c, DoBegin(c, s))); Streaming(c, t) && t.toR == [] && t.id == s.id + 1
  {
    AttemptBegins(c, s);
    OfferIsTaken(c, DoBegin(c, s));
    AcceptIsTaken(c, DoTakeOffer(c, DoBegin(c, s)));
  }

  lemma SendOne(c: Config, s: State)
    requires Streaming(c, s)
    ensures var t := DoSendChunk(c, s, 1);
            && Streaming(c, t) && t.id == s.id && |t.toR| <= |s.toR| + 1
            && t.offset.value == if s.offset.value < |c.src| then s.offset.value + 1 else s.offset.value
  {
    RunOne(c, s, SendChunk(1));
    RunKeepsInv(c, s, [SendChunk(1)]);
  }

  lemma {:induction false} SendsStream(c: Config, s: State, n: nat)
    requires Streaming(c, s)
    ensures var t := Run(c, s, Sends(n));
            && Streaming(c, t) && t.id == s.id && |t.toR| <= |s.toR| + n
            && (s.offset.value + n >= |c.src| ==> t.offset.value == |c.src|)
    decreases n
  {
    if n == 0 {
    } else {
      SendOne(c, s);
      assert Sends(n)[1..] == Sends(n - 1);
      SendsStream(c, DoSendChunk(c, s, 1), n - 1);
    }
  }

  lemma CompleteSent(c: Config, s: State)
    requires Streaming(c, s) && s.offset.value == |c.src|
    ensures var t := DoSendComplete(c, s);
            && Inv(c, t) && Calm(t) && t.snd.AwaitVerify? && t.id == s.id && t.rcv == s.rcv && t.toS == s.toS
            && t.toR == s.toR + [Complete(s.id)]
  {
    RunOne(c, s, SendComplete);
    RunKeepsInv(c, s, [SendComplete]);
  }

  lemma AnswerTaken(c: Config, s: State, ok: bool)
    requires SenderData(c, s) && s.snd.AwaitVerify? && s.toS == [Verify(s.id, ok)]
    ensures DoSenderTake(c, s) == s.(toS := [], snd := Returned(if ok then Sent else BadVerify))
  {
    var s0 := s.(toS := []);
    assert s.toS[1..] == [] && s.toS[0] == Verify(s.id, ok);
    assert OnAwaitVerify(s0.id, Verify(s.id, ok)) == Got(ok);
    assert SenderReads(s0, Verify(s.id, ok)) == s0.(snd := Returned(if ok then Sent else BadVerify));
  }

  lemma AnswerRead(c: Config, s: State, end: SendEnd)
    requires Pausing(s) && Calm(s) && s.snd == Returned(end) && s.rcv.ReceiverDone?
    ensures var t := DoFinishSend(DoCheckPaused(s)); Calm(t) && t.rcv == s.rcv && SessionOver(t) && t.id == s.id
  {
  }

  lemma EndQueued(queue: seq<Msg>, id: nat)
    ensures HasEnd(queue + [Complete(id)])
  {
    assert (queue + [Complete(id)])[|queue|].Complete?;
  }

  /** After the completion message the receiver settles with exactly one answer to the sender. */
  lemma ReceiverAnswers(c: Config, s: State, n: nat)
    requires Inv(c, s) && Calm(s) && s.snd.AwaitVerify? && HasEnd(s.toR) && n >= |s.toR|
    requires if s.rcv.InLoop? then s.toS == [] else s.rcv.InstantSend? && s.toS == [Verify(s.id, true)]
    ensures var t := Run(c, Run(c, s, Takes(n)), FINALE);
            Inv(c, t) && Calm(t) && t.snd.AwaitVerify? && t.rcv.ReceiverDone? && t.id == s.id && exists ok :: t.toS == [Verify(s.id, ok)]
  {
    var s1 := Run(c, s, Takes(n));
    var t := Run(c, s1, FINALE);
    RunKeepsInv(c, s, Takes(n));
    RunKeepsInv(c, s1, FINALE);
    if s.rcv.InLoop? {
      TakesLeaveLoop(c, s, n);
      FinaleEnds(c, s1);
      assert t.toS == [Verify(s.id, c.hash(s1.partial.value) == c.hash(c.src))];
    } else {
      TakesOutside(c, s, n);
      FinaleEnds(c, s1);
      assert t.toS == [Verify(s.id, true)];
    }
  }

  lemma FourParts(c: Config, s: State, w: seq<Event>, x: seq<Event>, y: seq<Event>, z: seq<Event>)
    ensures Run(c, s, w + (x + (y + z))) == Run(c, Run(c, Run(c, Run(c, s, w), x), y), z)
  {
    RunConcat(c, s, w, x + (y + z));
    RunConcat(c, Run(c, s, w), x, y + z);
    RunConcat(c, Run(c, Run(c, s, w), x), y, z);
  }

  lemma RunThree(c: Config, s: State, e0: Event, e1: Event, e2: Event)
    ensures Run(c, s, [e0] + [e1] + [e2]) == Step(c, Step(c, Step(c, s, e0), e1), e2)
  {
    RunConcat(c, s, [e0] + [e1], [e2]);
    RunTwo(c, s, e0, e1);
    RunOne(c, Step(c, Step(c, s, e0), e1), e2);
  }

  lemma ClosingRuns(c: Config, s: State, size: nat)
    ensures Run(c, s, Closing(size)) == Run(c, Run(c, DoSendComplete(c, s), Takes(size + 1)), FINALE)
  {
    RunConcat(c, s, [SendComplete], Takes(size + 1) + FINALE);
    RunOne(c, s, SendComplete);
    RunConcat(c, DoSendComplete(c, s), Takes(size + 1), FINALE);
  }

  lemma OpeningRuns(c: Config, s: State)
    requires Inv(c, s) && SessionOver(s)
    ensures var t := Run(c, s, OPENING); Streaming(c, t) && t.toR == [] && t.id == s.id + 1
  {
    RunThree(c, s, Begin, TakeOffer, SenderTake);
    AttemptOpens(c, s);
  }

  lemma ClosingAnswers(c: Config, s: State, n: nat)
    requires Streaming(c, s) && s.offset.value == |c.src| && |s.toR| <= n
    ensures var t := Run(c, s, Closing(n));
            Inv(c, t) && Calm(t) && t.snd.AwaitVerify? && t.rcv.ReceiverDone? && t.id == s.id && exists ok :: t.toS == [Verify(s.id, ok)]
  {
    ClosingRuns(c, s, n);
    CompleteSent(c, s);
    EndQueued(s.toR, s.id);
    ReceiverAnswers(c, DoSendComplete(c, s), n + 1);
  }

  predicate Answerable(c: Config, s: State, ok: bool) {
    SenderData(c, s) && Pausing(s) && Calm(s) && s.snd.AwaitVerify? && s.rcv.ReceiverDone? && s.toS == [Verify(s.id, ok)]
  }

  function Answered(c: Config, s: State): State {
    DoFinishSend(DoCheckPaused(DoSenderTake(c, s)))
  }

  lemma AnswerEnds(c: Config, s: State, ok: bool)
    requires Answerable(c, s, ok)
    ensures var t := Answered(c, s); Calm(t) && t.rcv == s.rcv && SessionOver(t) && t.id == s.id
  {
    PausingSenderTake(c, s);
    AnswerTaken(c, s, ok);
    AnswerRead(c, DoSenderTake(c, s), DoSenderTake(c, s).snd.end);
  }

  lemma AnsweringIs(c: Config, s: State)
    ensures Run(c, s, ANSWERING) == Answered(c, s)
  {
    var s1 := DoSenderTake(c, s);
    RunConcat(c, s, [SenderTake], [CheckPaused] + [FinishSend]);
    RunOne(c, s, SenderTake);
    RunTwo(c, s1, CheckPaused, FinishSend);
  }

  lemma AnsweringRuns(c: Config, s: State, ok: bool)
    requires Answerable(c, s, ok)
    ensures var t := Run(c, s, ANSWERING); Calm(t) && t.rcv == s.rcv && SessionOver(t) && t.id == s.id
  {
    AnswerEnds(c, s, ok);
    AnsweringIs(c, s);
  }

  /** From every idle state, whatever the residue, an attempt runs through without outside help. */
  lemma AttemptRuns(c: Config, s: State)
    requires Inv(c, s) && SessionOver(s)
    ensures var t := Run(c, s, Attempt(|c.src|)); Calm(t) && t.rcv.ReceiverDone? && SessionOver(t) && t.id == s.id + 1
  {
    FourParts(c, s, OPENING, Sends(|c.src|), Closing(|c.src|), ANSWERING);
    OpeningRuns(c, s);
    var s1 := Run(c, s, OPENING);
    SendsStream(c, s1, |c.src|);
    var s2 := Run(c, s1, Sends(|c.src|));
    ClosingAnswers(c, s2, |c.src|);
    var s3 := Run(c, s2, Closing(|c.src|));
    var ok :| s3.toS == [Verify(s3.id, ok)];
    AnsweringRuns(c, s3, ok);
  }

  /** Two attempts in a row always suffice, whatever the residue held; with no second content of that hash, they end with the source. */
  lemma TwoAttemptsSuffice(c: Config, s: State)
    requires Inv(c, s) && SessionOver(s)
    ensures var t := Run(c, s, Attempt(|c.src|) + Attempt(|c.src|));
            Good(c, t.final) && (NoCollision(c.hash, c.src) ==> t.final == Some(c.src))
  {
    var attempt := Attempt(|c.src|);
    var s1 := Run(c, s, attempt);
    RunConcat(c, s, attempt, attempt);
    AttemptRuns(c, s);
    RunKeepsInv(c, s, attempt);
    AttemptOutcome(c, s1);
    AttemptRuns(c, s1);
    assert attempt == [Begin] + attempt[1..];
    AttemptFromNothing(c, s1, attempt[1..]);
  }
}
