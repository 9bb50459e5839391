/**
 What every run keeps about the data: the residue is always the session's starting residue
 extended by the matching part of the source, and the queue holds exactly the part of the
 source between what the receiver has and what the sender has sent.
 */
module TransferData {
  import opened Bytes
  import opened Disk
  import opened Messages
  import opened Transfer

  // ---------- The queue towards the receiver ----------

  predicate GoodChunk(src: seq<byte>, id: nat, msg: Msg) {
    && msg.Chunk? && msg.id == id && msg.data != []
    && msg.offset + |msg.data| <= |src| && msg.data == src[msg.offset..msg.offset + |msg.data|]
  }

  /**
   Reading `queue` with `have` bytes in hand: repeated chunks are behind, new ones continue, nothing is ahead,
   completion comes only with everything in hand; all of it leads to `sent`, or not beyond if messages were lost.
   */
  predicate Flow(src: seq<byte>, id: nat, queue: seq<Msg>, have: nat, sent: nat, cut: bool)
    decreases |queue|
  {
    if queue == [] then (if cut then have <= sent else have == sent)
    else
      var msg, rest := queue[0], queue[1..];
      match msg
      case Chunk(_, offset, data) =>
        GoodChunk(src, id, msg) && offset <= have && Flow(src, id, rest, if offset == have then have + |data| else have, sent, cut)
      case Complete(_) => have == |src| && Flow(src, id, rest, have, sent, cut)
      case Cancel(_, reason) => reason == SenderPaused && Flow(src, id, rest, have, sent, cut)
      case _ => false
  }

  lemma {:induction false} FlowBound(src: seq<byte>, id: nat, queue: seq<Msg>, have: nat, sent: nat, cut: bool)
    requires Flow(src, id, queue, have, sent, cut)
    ensures have <= sent
    decreases |queue|
  {
    if queue == [] {
    } else {
      var msg := queue[0];
      var next := if msg.Chunk? && msg.offset == have then have + |msg.data| else have;
      FlowBound(src, id, queue[1..], next, sent, cut);
    }
  }

  lemma {:induction false} FlowAppend(src: seq<byte>, id: nat, queue: seq<Msg>, have: nat, sent: nat, msg: Msg)
    requires Flow(src, id, queue, have, sent, false)
    requires (GoodChunk(src, id, msg) && msg.offset == sent) || (msg.Complete? && sent == |src|)
          || (msg.Cancel? && msg.reason == SenderPaused)
    ensures Flow(src, id, queue + [msg], have, if msg.Chunk? then sent + |msg.data| else sent, false)
    decreases |queue|
  {
    if queue == [] {
      assert (queue + [msg])[1..] == [];
    } else {
      var head := queue[0];
      var next := if head.Chunk? && head.offset == have then have + |head.data| else have;
      assert (queue + [msg])[1..] == queue[1..] + [msg];
      FlowAppend(src, id, queue[1..], next, sent, msg);
    }
  }

  lemma {:induction false} FlowCut(src: seq<byte>, id: nat, queue: seq<Msg>, have: nat, sent: nat, cut: bool, k: nat)
    requires Flow(src, id, queue, have, sent, cut) && k <= |queue|
    ensures Flow(src, id, queue[..k], have, sent, true)
    decreases |queue|
  {
    FlowBound(src, id, queue, have, sent, cut);
    if k == 0 {
    } else {
      var head := queue[0];
      var next := if head.Chunk? && head.offset == have then have + |head.data| else have;
      assert queue[..k][1..] == queue[1..][..k - 1];
      FlowCut(src, id, queue[1..], next, sent, cut, k - 1);
    }
  }

  lemma {:induction false} FlowInsertStale(src: seq<byte>, id: nat, queue: seq<Msg>, have: nat, sent: nat, cut: bool, j: nat, msg: Msg)
    requires Flow(src, id, queue, have, sent, cut) && j <= |queue|
    requires GoodChunk(src, id, msg) && msg.offset < have
    ensures Flow(src, id, queue[..j] + [msg] + queue[j..], have, sent, cut)
    decreases |queue|
  {
    var with := queue[..j] + [msg] + queue[j..];
    if j == 0 {
      assert with[0] == msg && with[1..] == queue;
    } else {
      var head := queue[0];
      var next := if head.Chunk? && head.offset == have then have + |head.data| else have;
      assert with[1..] == queue[1..][..j - 1] + [msg] + queue[1..][j - 1..];
      FlowInsertStale(src, id, queue[1..], next, sent, cut, j - 1, msg);
    }
  }

  /** A chunk delivered twice is behind when it comes again. */
  lemma {:induction false} FlowDuplicate(src: seq<byte>, id: nat, queue: seq<Msg>, have: nat, sent: nat, cut: bool, i: nat, j: nat)
    requires Flow(src, id, queue, have, sent, cut) && i < j <= |queue| && queue[i].Chunk?
    ensures Flow(src, id, queue[..j] + [queue[i]] + queue[j..], have, sent, cut)
    decreases |queue|
  {
    var with := queue[..j] + [queue[i]] + queue[j..];
    var head, rest := queue[0], queue[1..];
    var next := if head.Chunk? && head.offset == have then have + |head.data| else have;
    assert with[0] == head && with[1..] == rest[..j - 1] + [queue[i]] + rest[j - 1..];
    if i == 0 {
      FlowInsertStale(src, id, rest, next, sent, cut, j - 1, head);
    } else {
      FlowDuplicate(src, id, rest, next, sent, cut, i - 1, j - 1);
    }
  }

  predicate Quiet(queue: seq<Msg>) {
    forall i | 0 <= i < |queue| :: queue[i].Cancel? && queue[i].reason == SenderPaused
  }

  lemma {:induction false} QuietFlows(src: seq<byte>, id: nat, queue: seq<Msg>, have: nat, cut: bool)
    requires Quiet(queue)
    ensures Flow(src, id, queue, have, have, cut)
    decreases |queue|
  {
    if queue == [] {
    } else {
      QuietFlows(src, id, queue[1..], have, cut);
    }
  }

  // ---------- The invariant ----------

  /** The residue is the starting residue and then the source up to `n`. */
  predicate Built(c: Config, s: State, n: nat) {
    s.partial.Some? && |s.origin| <= n <= |c.src| && s.partial.value == s.origin + c.src[|s.origin|..n]
  }

  function SentUpTo(s: State, have: nat): nat {
    if s.offset.Some? then s.offset.value else have
  }

  predicate AcceptsSay(queue: seq<Msg>, n: nat) {
    forall i | 0 <= i < |queue| && queue[i].Accept? :: queue[i].offset == n
  }

  /** Before the offer is read. */
  predicate OfferFirst(s: State) {
    if s.toR == [] then s.cut else s.toR[0].OfferMsg? && Quiet(s.toR[1..])
  }

  predicate KeepsResidue(e: RecvError) {
    e == Lost || e == PeerCancel(SenderPaused)
  }

  predicate SenderData(c: Config, s: State) {
    && (s.offset.Some? ==> s.offset.value <= |c.src|)
    && (s.snd.AwaitAccept? ==> s.offset.None?)
    && (s.snd.Sending? || s.snd.AwaitVerify? ==> s.offset.Some?)
  }

  predicate ReceiverData(c: Config, s: State) {
    match s.rcv
    case Waiting => s.offset.None? && s.toS == [] && OfferFirst(s)
    case InLoop(n) =>
      && Built(c, s, n) && Flow(c.src, s.id, s.toR, n, SentUpTo(s, n), s.cut)
      && (s.offset.None? ==> AcceptsSay(s.toS, n))
    case Checking => Built(c, s, |c.src|)
    case Verified => Built(c, s, |c.src|)
    case Replacing => Built(c, s, |c.src|)
    case Ended(Some(e)) => ErrorData(c, s, e)
    case ReceiverDone(Some(e)) => ErrorData(c, s, e)
    case _ => true
  }

  /** The loop never ends for a gap or a foreign reason, and the rename always finds its file. */
  predicate ErrorData(c: Config, s: State, e: RecvError) {
    && e in {LocalCancel, VerifyFailed, Lost, PeerCancel(SenderPaused)}
    && (KeepsResidue(e) ==> s.partial.Some? && Built(c, s, |s.partial.value|))
    && (e == VerifyFailed ==> if s.rcv.Ended? then Built(c, s, |c.src|) else s.partial.None?)
    && (e == VerifyFailed ==> |s.origin| <= |c.src| && c.hash(s.origin + c.src[|s.origin|..]) != c.hash(c.src))
  }

  predicate Data(c: Config, s: State) {
    SenderData(c, s) && ReceiverData(c, s)
  }

  lemma KeepTakeOffer(c: Config, s: State)
    requires Data(c, s)
    ensures Data(c, DoTakeOffer(c, s))
  {
    var s' := DoTakeOffer(c, s);
    if s'.rcv.InLoop? && s.rcv.Waiting? {
      var n := s'.rcv.received;
      QuietFlows(c.src, s.id, s'.toR, n, s.cut);
      assert s'.origin + c.src[n..n] == s'.origin;
    }
  }

  lemma AppendInPlace(c: Config, s: State, n: nat, data: seq<byte>)
    requires Built(c, s, n) && n + |data| <= |c.src| && data == c.src[n..n + |data|]
    ensures WriteAt(s.partial.value, n, data) == s.origin + c.src[|s.origin|..n + |data|]
  {
    WriteAtEnd(s.partial.value, data);
    assert c.src[|s.origin|..n] + data == c.src[|s.origin|..n + |data|];
    assert s.origin + c.src[|s.origin|..n] + data == s.origin + (c.src[|s.origin|..n] + data);
  }

  lemma TakeNewChunk(c: Config, s: State)
    requires Data(c, s) && s.rcv.InLoop? && s.toR != [] && s.toR[0].Chunk? && s.toR[0].offset == s.rcv.received
    ensures Data(c, DoTake(s))
  {
    var n, data := s.rcv.received, s.toR[0].data;
    FlowBound(c.src, s.id, s.toR[1..], n + |data|, SentUpTo(s, n), s.cut);
    AppendInPlace(c, s, n, data);
  }

  lemma TakeOldChunk(c: Config, s: State)
    requires Data(c, s) && s.rcv.InLoop? && s.toR != [] && s.toR[0].Chunk? && s.toR[0].offset < s.rcv.received
    ensures Data(c, DoTake(s))
  {
  }

  lemma TakeLast(c: Config, s: State)
    requires Data(c, s) && s.rcv.InLoop? && s.toR != [] && (s.toR[0].Complete? || s.toR[0].Cancel?)
    ensures Data(c, DoTake(s))
  {
  }

  lemma KeepTake(c: Config, s: State)
    requires Data(c, s)
    ensures Data(c, DoTake(s))
  {
    if s.rcv.InLoop? && s.toR != [] {
      if s.toR[0].Complete? || s.toR[0].Cancel? {
        TakeLast(c, s);
      } else if s.toR[0].offset == s.rcv.received {
        TakeNewChunk(c, s);
      } else {
        TakeOldChunk(c, s);
      }
    }
  }

  lemma KeepSendChunk(c: Config, s: State, k: nat)
    requires Data(c, s)
    ensures Data(c, DoSendChunk(c, s, k))
  {
    var s' := DoSendChunk(c, s, k);
    if s.rcv.InLoop? && |s'.toR| > |s.toR| {
      FlowAppend(c.src, s.id, s.toR, s.rcv.received, s.offset.value, s'.toR[|s.toR|]);
    }
  }

  lemma KeepSendComplete(c: Config, s: State)
    requires Data(c, s)
    ensures Data(c, DoSendComplete(c, s))
  {
    if s.rcv.InLoop? && s.offset.Some? && s.offset.value >= |c.src| && !s.cut {
      FlowAppend(c.src, s.id, s.toR, s.rcv.received, |c.src|, Complete(s.id));
    }
  }

  lemma TellPause(c: Config, s: State)
    requires Data(c, s) && !s.cut
    ensures ReceiverData(c, s.(toR := s.toR + [Cancel(s.id, SenderPaused)]))
  {
    var msg := Cancel(s.id, SenderPaused);
    if s.rcv.InLoop? {
      FlowAppend(c.src, s.id, s.toR, s.rcv.received, SentUpTo(s, s.rcv.received), msg);
    }
    if s.rcv.Waiting? {
      assert (s.toR + [msg])[1..] == s.toR[1..] + [msg];
    }
  }

  /** The receiver's part of the invariant does not look at the sender's place. */
  lemma SenderMoves(c: Config, s: State, snd: Sender)
    requires Data(c, s) && (snd.Returned? || snd.Finishing? || snd.PauseTold? || snd.SenderDone?)
    ensures Data(c, s.(snd := snd))
  {
  }

  lemma KeepCheckPaused(c: Config, s: State)
    requires Data(c, s)
    ensures Data(c, DoCheckPaused(s))
  {
    if s.snd.Returned? {
      if s.status == Paused {
        SenderMoves(c, s, PauseTold);
        if !s.cut { TellPause(c, s.(snd := PauseTold)); }
      } else {
        SenderMoves(c, s, Finishing(s.snd.end));
      }
    }
  }

  /** While waiting for the answer, the first accept fixes the offset. */
  lemma AwaitAcceptReads(c: Config, s: State, msg: Msg)
    requires SenderData(c, s) && s.snd.AwaitAccept?
    ensures var s' := SenderReads(s, msg);
            && s' == s.(snd := s'.snd, offset := s'.offset)
            && if s'.offset != None then msg.Accept? && s'.offset == Some(msg.offset) && s'.snd == Sending
               else s'.snd.AwaitAccept? || s'.snd.Returned?
  {
  }

  /** Later messages can only end the send. */
  lemma LaterReads(c: Config, s: State, msg: Msg)
    requires SenderData(c, s) && (s.snd.Sending? || s.snd.AwaitVerify?)
    ensures var s' := SenderReads(s, msg); s' == s.(snd := s'.snd) && (s'.snd == s.snd || s'.snd.Returned?)
  {
  }

  lemma SenderTakeEffect(c: Config, s: State)
    requires SenderData(c, s) && s.toS != [] && SenderActive(s)
    ensures var s' := DoSenderTake(c, s);
            && s' == s.(snd := s'.snd, offset := s'.offset, toS := s.toS[1..]) && SenderData(c, s')
            && if s.offset == None && s'.offset != None then s.toS[0].Accept? && s'.offset == Some(Min(s.toS[0].offset, |c.src|))
               else s'.offset == s.offset
  {
    var s0 := s.(toS := s.toS[1..]);
    if s.snd.AwaitAccept? {
      AwaitAcceptReads(c, s0, s.toS[0]);
    } else {
      LaterReads(c, s0, s.toS[0]);
    }
  }

  lemma KeepSenderTake(c: Config, s: State)
    requires Data(c, s)
    ensures Data(c, DoSenderTake(c, s))
    ensures s.rcv.InLoop? && s.offset.None? && DoSenderTake(c, s).offset.Some? ==> DoSenderTake(c, s).offset.value == s.rcv.received
  {
    if s.toS != [] && SenderActive(s) {
      SenderTakeEffect(c, s);
      var s' := DoSenderTake(c, s);
      SenderTakeReceiver(c, s, s');
    }
  }

  lemma SenderTakeReceiver(c: Config, s: State, s': State)
    requires ReceiverData(c, s) && s.toS != []
    requires s' == s.(snd := s'.snd, offset := s'.offset, toS := s.toS[1..])
    requires if s.offset == None && s'.offset != None then s.toS[0].Accept? && s'.offset == Some(Min(s.toS[0].offset, |c.src|))
             else s'.offset == s.offset
    ensures ReceiverData(c, s')
    ensures s.rcv.InLoop? && s.offset.None? && s'.offset.Some? ==> s'.offset.value == s.rcv.received
  {
    if s.rcv.InLoop? && s.offset.None? {
      var rest := s.toS[1..];
      forall i | 0 <= i < |rest| && rest[i].Accept? ensures rest[i].offset == s.rcv.received { assert rest[i] == s.toS[i + 1]; }
    }
  }

  lemma NoChunkBeforeAccept(s: State, i: nat)
    requires OfferFirst(s) && i < |s.toR|
    ensures !s.toR[i].Chunk?
  {
    if i > 0 { assert s.toR[i] == s.toR[1..][i - 1]; }
  }

  lemma KeepDuplicate(c: Config, s: State, i: nat, j: nat)
    requires Data(c, s)
    ensures Data(c, DoDuplicate(s, i, j))
  {
    if i < j <= |s.toR| && s.toR[i].Chunk? {
      if s.rcv.InLoop? {
        FlowDuplicate(c.src, s.id, s.toR, s.rcv.received, SentUpTo(s, s.rcv.received), s.cut, i, j);
      }
      if s.rcv.Waiting? {
        NoChunkBeforeAccept(s, i);
      }
    }
  }

  lemma KeepCut(c: Config, s: State, keepR: nat, keepS: nat)
    requires Data(c, s)
    ensures Data(c, DoCut(s, keepR, keepS))
  {
    if s.rcv.InLoop? {
      FlowCut(c.src, s.id, s.toR, s.rcv.received, SentUpTo(s, s.rcv.received), s.cut, Min(keepR, |s.toR|));
    }
    if s.rcv.Waiting? && s.toR != [] && keepR > 0 {
      var k := Min(keepR, |s.toR|);
      assert s.toR[..k][1..] == s.toR[1..][..k - 1];
    }
  }

  lemma KeepCheck(c: Config, s: State)
    requires Data(c, s)
    ensures Data(c, DoCheck(c, s))
  {
    if s.rcv.Checking? {
      assert c.src[|s.origin|..|c.src|] == c.src[|s.origin|..];
    }
  }

  lemma KeepLoss(c: Config, s: State)
    requires Data(c, s)
    ensures Data(c, DoSeeLoss(s))
  {
  }

  lemma KeepCancel(c: Config, s: State)
    requires Data(c, s)
    ensures Data(c, DoSeeCancel(s))
  {
  }

  lemma KeepRefusal(c: Config, s: State)
    requires Data(c, s)
    ensures Data(c, DoRefuseOffer(s)) && Data(c, Step(c, s, UserCancel))
  {
  }

  lemma KeepReplace(c: Config, s: State)
    requires Data(c, s)
    ensures Data(c, Step(c, s, RemoveOld)) && Data(c, DoRename(s))
  {
  }

  lemma FinishError(c: Config, s: State, e: RecvError)
    requires Data(c, s) && s.rcv == Ended(Some(e))
    ensures ErrorData(c, DoFinishReceive(s), e)
  {
  }

  lemma FinishClean(c: Config, s: State)
    requires Data(c, s) && (s.rcv.InstantSend? || s.rcv == Ended(None))
    ensures Data(c, DoFinishReceive(s))
  {
  }

  lemma KeepFinishReceive(c: Config, s: State)
    requires Data(c, s)
    ensures Data(c, DoFinishReceive(s))
  {
    if s.rcv.InstantSend? || s.rcv == Ended(None) {
      FinishClean(c, s);
    } else if s.rcv.Ended? {
      FinishError(c, s, s.rcv.error.value);
      assert DoFinishReceive(s).rcv == ReceiverDone(Some(s.rcv.error.value));
    } else {
      assert DoFinishReceive(s) == s;
    }
  }

  lemma KeepCrash(c: Config, s: State, written: nat)
    requires Data(c, s)
    ensures Data(c, DoCrash(s, written))
  {
  }

  lemma KeepSender(c: Config, s: State, e: Event)
    requires Data(c, s) && (e.SeeFlag? || e.TimeOut? || e.SeeSendLoss? || e.FinishSend?)
    ensures Data(c, Step(c, s, e))
  {
    var s' := Step(c, s, e);
    if s'.snd != s.snd { SenderMoves(c, s, s'.snd); }
  }

  lemma KeepBegin(c: Config, s: State)
    requires Data(c, s)
    ensures Data(c, DoBegin(c, s))
  {
  }

  /** Statuses and flags are no part of it. */
  lemma KeepFlags(c: Config, s: State, status: Status, rstatus: Status, pause: UserCall, flag: bool, disturbed: bool)
    requires Data(c, s)
    ensures Data(c, s.(status := status, rstatus := rstatus, pause := pause, flag := flag, disturbed := disturbed))
  {
  }

  lemma KeepData(c: Config, s: State, e: Event)
    requires Data(c, s)
    ensures Data(c, Step(c, s, e))
  {
    match e
    case TakeOffer => KeepTakeOffer(c, s);
    case Take => KeepTake(c, s);
    case SendChunk(n) => KeepSendChunk(c, s, n);
    case SendComplete => KeepSendComplete(c, s);
    case CheckPaused => KeepCheckPaused(c, s);
    case SenderTake => KeepSenderTake(c, s);
    case Duplicate(i, j) => KeepDuplicate(c, s, i, j);
    case Cut(keepR, keepS) => KeepCut(c, s, keepR, keepS);
    case Check => KeepCheck(c, s);
    case SeeLoss => KeepLoss(c, s);
    case SeeCancel => KeepCancel(c, s);
    case UserCancel => KeepRefusal(c, s);
    case RefuseOffer => KeepRefusal(c, s);
    case RemoveOld => KeepReplace(c, s);
    case Rename => KeepReplace(c, s);
    case FinishReceive => KeepFinishReceive(c, s);
    case Crash(written) => KeepCrash(c, s, written);
    case SeeFlag => KeepSender(c, s, e);
    case TimeOut => KeepSender(c, s, e);
    case SeeSendLoss => KeepSender(c, s, e);
    case FinishSend => KeepSender(c, s, e);
    case Begin => KeepBegin(c, s);
    case ReceiverProgress => KeepFlags(c, s, s.status, Progress(s.rstatus), s.pause, s.flag, s.disturbed);
    case SenderProgress => KeepFlags(c, s, Progress(s.status), s.rstatus, s.pause, s.flag, s.disturbed);
    case PauseStatus => KeepFlags(c, s, Paused, s.rstatus, Step(c, s, e).pause, s.flag, s.disturbed);
    case PauseFlag => KeepFlags(c, s, s.status, s.rstatus, Step(c, s, e).pause, true, s.disturbed);
    case CancelFlag => KeepFlags(c, s, s.status, s.rstatus, CancelCalled, true, true);
    case CancelStatus => KeepFlags(c, s, Cancelled, s.rstatus, s.pause, s.flag, s.disturbed);
  }
}
