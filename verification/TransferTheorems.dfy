/**
 What holds in every run of the transfer protocol: success is justified, a pause is never
 taken for a failure, the residue stays a prefix of the source, and a bad residue heals.
 */
module TransferTheorems {
  import opened Bytes
  import opened Disk
  import opened Messages
  import opened Transfer
  import opened TransferData

  // ---------- Success is justified ----------

  /** Content with the offered hash. */
  predicate Good(c: Config, content: Option<seq<byte>>) {
    content.Some? && c.hash(content.value) == c.hash(c.src)
  }

  predicate SaysVerified(queue: seq<Msg>) {
    exists i | 0 <= i < |queue| :: queue[i].Verify? && queue[i].ok
  }

  predicate Success(c: Config, s: State) {
    && (SaysVerified(s.toS) ==> Good(c, s.held))
    && (s.snd == Returned(Sent) || s.snd == Finishing(Sent) || s.snd == SenderDone(Sent) ==> Good(c, s.held))
    && (s.rcv.Verified? || s.rcv.Replacing? ==> Good(c, s.partial))
    && (s.rcv.InstantSend? || s.rcv == Ended(None) || s.rcv == ReceiverDone(None) ==> Good(c, s.final) && s.partial == None)
  }

  lemma VerifiedAppend(queue: seq<Msg>, more: seq<Msg>)
    ensures SaysVerified(queue + more) <==> SaysVerified(queue) || SaysVerified(more)
  {
    var all := queue + more;
    if SaysVerified(queue) { var i :| 0 <= i < |queue| && queue[i].Verify? && queue[i].ok; assert all[i] == queue[i]; }
    if SaysVerified(more) { var i :| 0 <= i < |more| && more[i].Verify? && more[i].ok; assert all[|queue| + i] == more[i]; }
  }

  lemma ToSenderVerified(s: State, more: seq<Msg>)
    ensures SaysVerified(ToSender(s, more)) ==> SaysVerified(s.toS) || SaysVerified(more)
  {
    VerifiedAppend(s.toS, more);
  }

  lemma NoVerifyIn(msg: Msg)
    ensures SaysVerified([msg]) <==> msg.Verify? && msg.ok
  {
    if msg.Verify? && msg.ok { assert [msg][0].ok; }
  }

  lemma SuccessTakeOffer(c: Config, s: State)
    requires Success(c, s)
    ensures Success(c, DoTakeOffer(c, s))
  {
    NoVerifyIn(Accept(s.id, |Planned(s.partial, |c.src|)|));
    ToSenderVerified(s, [Accept(s.id, |Planned(s.partial, |c.src|)|)]);
  }

  lemma SuccessRefuseCancel(c: Config, s: State)
    requires Success(c, s)
    ensures Success(c, DoRefuseOffer(s)) && Success(c, DoSeeCancel(s))
  {
    NoVerifyIn(Reject(s.id));
    ToSenderVerified(s, [Reject(s.id)]);
    NoVerifyIn(Cancel(s.id, ReceiverCancelled));
    ToSenderVerified(s, [Cancel(s.id, ReceiverCancelled)]);
  }

  lemma SuccessTake(c: Config, s: State)
    requires Success(c, s)
    ensures Success(c, DoTake(s))
  {
    if s.toR != [] {
      NoVerifyIn(Cancel(s.id, Ack));
      ToSenderVerified(s, Replies(s.id, s.toR[0]));
    }
  }

  lemma SuccessCheck(c: Config, s: State)
    requires Success(c, s)
    ensures Success(c, DoCheck(c, s))
  {
    if s.rcv.Checking? && s.partial.Some? {
      var ok := c.hash(s.partial.value) == c.hash(c.src);
      NoVerifyIn(Verify(s.id, ok));
      ToSenderVerified(s, [Verify(s.id, ok)]);
    }
  }

  predicate SentJustified(s: State, s': State, msg: Msg) {
    && s' == s.(snd := s'.snd, offset := s'.offset)
    && (SenderActive(s') || s'.snd.Returned?)
    && (s'.snd == Returned(Sent) ==> msg.Verify? && msg.ok)
    && s'.snd != Returned(ByFlag)
  }

  lemma EarlyReads(s: State, msg: Msg)
    ensures s.snd.AwaitAccept? ==> SentJustified(s, ReadAccept(s, msg), msg)
    ensures s.snd.Sending? ==> SentJustified(s, ReadWhileSending(s, msg), msg)
  {
  }

  /** Only a positive check result makes the send succeed. */
  lemma SentMeansVerified(s: State, msg: Msg)
    requires SenderActive(s)
    ensures SentJustified(s, SenderReads(s, msg), msg)
  {
    EarlyReads(s, msg);
    if s.snd.AwaitVerify? {
      assert SentJustified(s, ReadVerify(s, msg), msg);
    }
  }

  lemma SuccessSenderTake(c: Config, s: State)
    requires Success(c, s)
    ensures Success(c, DoSenderTake(c, s))
  {
    if s.toS != [] && SenderActive(s) {
      var msg, rest := s.toS[0], s.toS[1..];
      assert s.toS == [msg] + rest;
      VerifiedAppend([msg], rest);
      NoVerifyIn(msg);
      SentMeansVerified(s.(toS := rest), msg);
    }
  }

  lemma SuccessCut(c: Config, s: State, keepR: nat, keepS: nat)
    requires Success(c, s)
    ensures Success(c, DoCut(s, keepR, keepS))
  {
    var k := Min(keepS, |s.toS|);
    assert s.toS == s.toS[..k] + s.toS[k..];
    VerifiedAppend(s.toS[..k], s.toS[k..]);
  }

  /** Whoever leaves the receiver, the answers and the checked content alone and claims nothing new. */
  lemma SuccessFrame(c: Config, s: State, s': State)
    requires Success(c, s) && s'.toS == s.toS && s'.held == s.held && s'.rcv == s.rcv && s'.partial == s.partial && s'.final == s.final
    requires s'.snd in {Returned(Sent), Finishing(Sent), SenderDone(Sent)} ==> s.snd in {Returned(Sent), Finishing(Sent), SenderDone(Sent)}
    ensures Success(c, s')
  {
  }

  lemma SuccessSends(c: Config, s: State, n: nat)
    requires Success(c, s)
    ensures Success(c, DoSendChunk(c, s, n)) && Success(c, DoSendComplete(c, s))
  {
    SuccessFrame(c, s, DoSendChunk(c, s, n));
    SuccessFrame(c, s, DoSendComplete(c, s));
  }

  lemma SuccessSeeFlag(c: Config, s: State)
    requires Success(c, s)
    ensures Success(c, DoSeeFlag(c, s))
  {
    SuccessFrame(c, s, DoSeeFlag(c, s));
  }

  lemma SuccessCheckPaused(c: Config, s: State)
    requires Success(c, s)
    ensures Success(c, DoCheckPaused(s))
  {
    SuccessFrame(c, s, DoCheckPaused(s));
  }

  lemma SuccessFinishSend(c: Config, s: State)
    requires Success(c, s)
    ensures Success(c, DoFinishSend(s))
  {
    SuccessFrame(c, s, DoFinishSend(s));
  }

  lemma SuccessReplace(c: Config, s: State)
    requires Success(c, s)
    ensures Success(c, DoSeeLoss(s)) && Success(c, DoRename(s))
  {
  }

  lemma SuccessFinish(c: Config, s: State)
    requires Success(c, s)
    ensures Success(c, DoFinishReceive(s))
  {
  }

  lemma SuccessBegin(c: Config, s: State)
    requires Success(c, s)
    ensures Success(c, DoBegin(c, s))
  {
  }

  lemma KeepSuccess(c: Config, s: State, e: Event)
    requires Success(c, s)
    ensures Success(c, Step(c, s, e))
  {
    match e
    case TakeOffer => SuccessTakeOffer(c, s);
    case RefuseOffer => SuccessRefuseCancel(c, s);
    case Take => SuccessTake(c, s);
    case SeeCancel => SuccessRefuseCancel(c, s);
    case Check => SuccessCheck(c, s);
    case SenderTake => SuccessSenderTake(c, s);
    case Cut(keepR, keepS) => SuccessCut(c, s, keepR, keepS);
    case SendChunk(n) => SuccessSends(c, s, n);
    case SendComplete => SuccessSends(c, s, 0);
    case SeeFlag => SuccessSeeFlag(c, s);
    case CheckPaused => SuccessCheckPaused(c, s);
    case FinishSend => SuccessFinishSend(c, s);
    case SeeLoss => SuccessReplace(c, s);
    case Rename => SuccessReplace(c, s);
    case FinishReceive => SuccessFinish(c, s);
    case Begin => SuccessBegin(c, s);
    case _ =>
  }

  // ---------- Pausing ----------

  /**
   `file_pause` sets the status before the flag, so a send that saw the flag finds the status; unless the send is also
   cancelled, which sets the flag first.
   */
  predicate Pausing(s: State) {
    && (s.status == Paused ==> s.pause != NotCalled)
    && (s.snd.NoSender? ==> s.pause == NotCalled)
    && s.records == (if s.snd.SenderDone? then 1 else 0)
    && (!s.pause.CancelCalled? ==>
          && (s.flag ==> s.pause.FlagSet?)
          && (s.pause != NotCalled && (SenderActive(s) || s.snd.Returned?) ==> s.status == Paused)
          && (s.snd == Returned(ByFlag) ==> s.flag)
          && s.snd != Finishing(ByFlag) && s.snd != SenderDone(ByFlag)
          && (s.snd.PauseTold? ==> s.status == Paused))
  }

  /** What belongs to the sending task. */
  predicate SameSender(s: State, s': State) {
    s'.snd == s.snd && s'.flag == s.flag && s'.status == s.status && s'.records == s.records && s'.pause == s.pause && s'.id == s.id
  }

  /** The receiver and the network leave the sending task alone. */
  lemma SenderFrameOffer(c: Config, s: State)
    ensures SameSender(s, DoTakeOffer(c, s)) && SameSender(s, DoRefuseOffer(s))
  {
  }

  lemma SenderFrameLoop(s: State)
    ensures SameSender(s, DoTake(s)) && SameSender(s, DoSeeCancel(s)) && SameSender(s, DoSeeLoss(s))
  {
  }

  lemma SenderFrameCheck(c: Config, s: State)
    ensures SameSender(s, DoCheck(c, s)) && SameSender(s, DoRename(s))
  {
  }

  lemma SenderFrameFinish(s: State)
    ensures SameSender(s, DoFinishReceive(s))
  {
  }

  lemma SenderFrameNetwork(s: State, written: nat, i: nat, j: nat)
    ensures SameSender(s, DoCrash(s, written)) && SameSender(s, DoDuplicate(s, i, j)) && SameSender(s, DoCut(s, i, j))
  {
  }

  /** Neither the user's call nor the session changes. */
  predicate SameCall(s: State, s': State) {
    s'.pause == s.pause && s'.id == s.id
  }

  lemma CallFrameTake(c: Config, s: State)
    ensures SameCall(s, DoSenderTake(c, s))
  {
    if s.toS != [] && SenderActive(s) { SentMeansVerified(s.(toS := s.toS[1..]), s.toS[0]); }
  }

  lemma CallFrameSends(c: Config, s: State, n: nat)
    ensures SameCall(s, DoSendChunk(c, s, n)) && SameCall(s, DoSendComplete(c, s))
  {
  }

  lemma CallFrameEnds(c: Config, s: State)
    ensures SameCall(s, DoSeeFlag(c, s)) && SameCall(s, DoCheckPaused(s)) && SameCall(s, DoFinishSend(s))
  {
  }

  lemma CallFrameRest(c: Config, s: State, e: Event)
    requires e.TimeOut? || e.SeeSendLoss? || e.RemoveOld? || e.UserCancel? || e.ReceiverProgress? || e.SenderProgress? || e.CancelStatus?
    ensures SameCall(s, Step(c, s, e))
  {
  }

  lemma PausingSenderTake(c: Config, s: State)
    requires Pausing(s)
    ensures Pausing(DoSenderTake(c, s))
  {
    if s.toS != [] && SenderActive(s) {
      SentMeansVerified(s.(toS := s.toS[1..]), s.toS[0]);
    }
  }

  lemma PausingSends(c: Config, s: State, n: nat)
    requires Pausing(s)
    ensures Pausing(DoSendChunk(c, s, n)) && Pausing(DoSendComplete(c, s))
  {
  }

  lemma PausingEnds(c: Config, s: State, e: Event)
    requires Pausing(s) && (e.SeeFlag? || e.TimeOut? || e.SeeSendLoss? || e.CheckPaused? || e.FinishSend?)
    ensures Pausing(Step(c, s, e))
  {
  }

  lemma PausingUser(c: Config, s: State, e: Event)
    requires Pausing(s) && (e.SenderProgress? || e.PauseStatus? || e.PauseFlag? || e.CancelFlag? || e.CancelStatus? || e.Begin?)
    ensures Pausing(Step(c, s, e))
  {
  }

  lemma KeepPausing(c: Config, s: State, e: Event)
    requires Pausing(s)
    ensures Pausing(Step(c, s, e))
  {
    match e
    case SenderTake => PausingSenderTake(c, s);
    case SendChunk(n) => PausingSends(c, s, n);
    case SendComplete => PausingSends(c, s, 0);
    case SeeFlag => PausingEnds(c, s, e);
    case TimeOut => PausingEnds(c, s, e);
    case SeeSendLoss => PausingEnds(c, s, e);
    case CheckPaused => PausingEnds(c, s, e);
    case FinishSend => PausingEnds(c, s, e);
    case SenderProgress => PausingUser(c, s, e);
    case PauseStatus => PausingUser(c, s, e);
    case PauseFlag => PausingUser(c, s, e);
    case CancelFlag => PausingUser(c, s, e);
    case CancelStatus => PausingUser(c, s, e);
    case Begin => PausingUser(c, s, e);
    case Crash(written) => SenderFrameNetwork(s, written, 0, 0);
    case Duplicate(i, j) => SenderFrameNetwork(s, 0, i, j);
    case Cut(keepR, keepS) => SenderFrameNetwork(s, 0, keepR, keepS);
    case Check => SenderFrameCheck(c, s);
    case Rename => SenderFrameCheck(c, s);
    case FinishReceive => SenderFrameFinish(s);
    case UserCancel =>
    case RemoveOld =>
    case ReceiverProgress =>
    case TakeOffer => SenderFrameOffer(c, s);
    case RefuseOffer => SenderFrameOffer(c, s);
    case _ => SenderFrameLoop(s);
  }

  // ---------- What the user is shown ----------

  /** Unless the user called, the finished task shows how the send ended: success, a failure, or that it was called off. */
  predicate Shown(s: State) {
    s.snd.SenderDone? && s.pause.NotCalled? ==>
      && (s.status == Completed <==> s.snd.end == Sent)
      && (s.status == Cancelled <==> s.snd.end == ByFlag || s.snd.end == ByPeer(false))
      && (s.status == Failed <==> s.snd.end in {ByPeer(true), TimedOut, ConnectionLost, BadVerify})
  }

  lemma ShownSenderTake(c: Config, s: State)
    requires Shown(s)
    ensures Shown(DoSenderTake(c, s))
  {
    if s.toS != [] && SenderActive(s) {
      SentMeansVerified(s.(toS := s.toS[1..]), s.toS[0]);
    }
  }

  lemma ShownEnds(c: Config, s: State, e: Event)
    requires Shown(s) && (e.SeeFlag? || e.TimeOut? || e.SeeSendLoss? || e.CheckPaused? || e.FinishSend?)
    ensures Shown(Step(c, s, e))
  {
  }

  lemma ShownSends(c: Config, s: State, n: nat)
    requires Shown(s)
    ensures Shown(DoSendChunk(c, s, n)) && Shown(DoSendComplete(c, s))
  {
  }

  lemma ShownUser(c: Config, s: State, e: Event)
    requires Shown(s) && (e.SenderProgress? || e.PauseStatus? || e.PauseFlag? || e.CancelFlag? || e.CancelStatus? || e.Begin?)
    ensures Shown(Step(c, s, e))
  {
  }

  lemma KeepShown(c: Config, s: State, e: Event)
    requires Shown(s)
    ensures Shown(Step(c, s, e))
  {
    match e
    case SenderTake => ShownSenderTake(c, s);
    case SendChunk(n) => ShownSends(c, s, n);
    case SendComplete => ShownSends(c, s, 0);
    case SeeFlag => ShownEnds(c, s, e);
    case TimeOut => ShownEnds(c, s, e);
    case SeeSendLoss => ShownEnds(c, s, e);
    case CheckPaused => ShownEnds(c, s, e);
    case FinishSend => ShownEnds(c, s, e);
    case SenderProgress => ShownUser(c, s, e);
    case PauseStatus => ShownUser(c, s, e);
    case PauseFlag => ShownUser(c, s, e);
    case CancelFlag => ShownUser(c, s, e);
    case CancelStatus => ShownUser(c, s, e);
    case Begin => ShownUser(c, s, e);
    case Crash(written) => SenderFrameNetwork(s, written, 0, 0);
    case Duplicate(i, j) => SenderFrameNetwork(s, 0, i, j);
    case Cut(keepR, keepS) => SenderFrameNetwork(s, 0, keepR, keepS);
    case Check => SenderFrameCheck(c, s);
    case Rename => SenderFrameCheck(c, s);
    case FinishReceive => SenderFrameFinish(s);
    case UserCancel =>
    case RemoveOld =>
    case ReceiverProgress =>
    case TakeOffer => SenderFrameOffer(c, s);
    case RefuseOffer => SenderFrameOffer(c, s);
    case _ => SenderFrameLoop(s);
  }

  /** The status for each way a receive can end. */
  predicate ShownAs(error: Option<RecvError>, status: Status) {
    && (status == Completed <==> error == None)
    && (status == Paused <==> error == Some(PeerCancel(SenderPaused)))
    && (status == Cancelled <==> error in {Some(LocalCancel), Some(PeerCancel(Ack)), Some(PeerCancel(ReceiverCancelled))})
    && (status == Failed <==> error in {Some(OffsetGap), Some(VerifyFailed), Some(Lost), Some(NothingToRename)})
  }

  /** On the receiving side: a refusal stays one, and a finished receive shows how it ended. */
  predicate ShownReceiver(s: State) {
    && (s.rcv.Refused? ==> s.rstatus == Rejected)
    && (s.rcv.ReceiverDone? ==> ShownAs(s.rcv.error, s.rstatus))
  }

  lemma ReceiveStatusShows(error: Option<RecvError>)
    ensures ShownAs(error, ReceiveStatus(error))
  {
  }

  /** What belongs to the receiving task. */
  predicate SameReceiver(s: State, s': State) {
    s'.rcv == s.rcv && s'.rstatus == s.rstatus
  }

  lemma ReceiverFrameTake(c: Config, s: State)
    ensures SameReceiver(s, DoSenderTake(c, s))
  {
    if s.toS != [] && SenderActive(s) {
      var t := s.(toS := s.toS[1..]);
      assert SameReceiver(t, SenderReads(t, s.toS[0]));
    }
  }

  lemma ReceiverFrameSends(c: Config, s: State, n: nat)
    ensures SameReceiver(s, DoSendChunk(c, s, n)) && SameReceiver(s, DoSendComplete(c, s))
  {
  }

  lemma ReceiverFrameEnds(c: Config, s: State, e: Event)
    requires e.SeeFlag? || e.TimeOut? || e.SeeSendLoss? || e.CheckPaused? || e.FinishSend? || e.SenderProgress? || e.PauseStatus? || e.PauseFlag? || e.CancelFlag? || e.CancelStatus?
    ensures SameReceiver(s, Step(c, s, e))
  {
  }

  lemma ShownOffer(c: Config, s: State)
    requires ShownReceiver(s)
    ensures ShownReceiver(DoTakeOffer(c, s)) && ShownReceiver(DoRefuseOffer(s)) && ShownReceiver(DoSeeLoss(s)) && ShownReceiver(DoBegin(c, s))
  {
  }

  lemma ShownLoop(c: Config, s: State)
    requires ShownReceiver(s)
    ensures ShownReceiver(DoTake(s)) && ShownReceiver(DoSeeCancel(s)) && ShownReceiver(DoCheck(c, s)) && ShownReceiver(DoRename(s))
  {
  }

  lemma FinishWrites(s: State)
    ensures var t := DoFinishReceive(s);
            || SameReceiver(s, t)
            || (exists error :: t.rcv == ReceiverDone(error) && t.rstatus == ReceiveStatus(error))
  {
    var t := DoFinishReceive(s);
    if s.rcv.Ended? { assert t.rcv == ReceiverDone(s.rcv.error) && t.rstatus == ReceiveStatus(s.rcv.error); }
    if s.rcv.InstantSend? { assert t.rcv == ReceiverDone(None) && t.rstatus == ReceiveStatus(None); }
  }

  lemma ShownFinish(s: State)
    requires ShownReceiver(s)
    ensures ShownReceiver(DoFinishReceive(s))
  {
    FinishWrites(s);
    forall error ensures ShownAs(error, ReceiveStatus(error)) { ReceiveStatusShows(error); }
  }

  lemma ProgressKeepsFinal(status: Status)
    ensures Progress(status) == if status.Pending? || status.Transferring? then Transferring else status
  {
  }

  lemma ShownProgress(s: State)
    requires ShownReceiver(s)
    ensures ShownReceiver(s.(rstatus := Progress(s.rstatus)))
  {
    ProgressKeepsFinal(s.rstatus);
  }

  lemma KeepShownReceiver(c: Config, s: State, e: Event)
    requires ShownReceiver(s)
    ensures ShownReceiver(Step(c, s, e))
  {
    match e
    case SenderTake => ReceiverFrameTake(c, s);
    case SendChunk(n) => ReceiverFrameSends(c, s, n);
    case SendComplete => ReceiverFrameSends(c, s, 0);
    case TakeOffer => ShownOffer(c, s);
    case RefuseOffer => ShownOffer(c, s);
    case SeeLoss => ShownOffer(c, s);
    case Begin => ShownOffer(c, s);
    case Take => ShownLoop(c, s);
    case SeeCancel => ShownLoop(c, s);
    case Check => ShownLoop(c, s);
    case Rename => ShownLoop(c, s);
    case FinishReceive => ShownFinish(s);
    case ReceiverProgress => ShownProgress(s);
    case UserCancel =>
    case RemoveOld =>
    case Crash(written) =>
    case Duplicate(i, j) =>
    case Cut(keepR, keepS) =>
    case _ => ReceiverFrameEnds(c, s, e);
  }

  /** In every run: no later event, a late progress report included, makes either end show another outcome than it had. */
  lemma {:induction false} RunShowsOutcome(c: Config, s: State, events: seq<Event>)
    requires Shown(s) && ShownReceiver(s)
    ensures Shown(Run(c, s, events)) && ShownReceiver(Run(c, s, events))
    decreases |events|
  {
    if events == [] {
    } else {
      KeepShown(c, s, events[0]);
      KeepShownReceiver(c, s, events[0]);
      RunShowsOutcome(c, Step(c, s, events[0]), events[1..]);
    }
  }

  // ---------- How sessions end ----------

  predicate HasCancel(queue: seq<Msg>) {
    exists i | 0 <= i < |queue| :: queue[i].Cancel?
  }

  predicate Error(s: State, e: RecvError) {
    s.rcv == Ended(Some(e)) || s.rcv == ReceiverDone(Some(e))
  }

  predicate Endings(s: State) {
    && (HasCancel(s.toR) ==> s.snd.PauseTold?)
    && (Error(s, PeerCancel(SenderPaused)) ==> s.snd.PauseTold?)
    && (s.rcv.ReceiverDone? ==> s.rstatus == ReceiveStatus(s.rcv.error))
    && (s.snd.PauseTold? ==> s.pause != NotCalled)
    && (s.rcv.NoReceiver? ==> s.snd.NoSender?)
    && (!s.disturbed ==>
          && !s.cut && !s.rflag && !s.rcv.Refused? && !s.rcv.Crashed? && !Error(s, LocalCancel) && !Error(s, Lost)
          && (s.snd.PauseTold? && (s.rcv.Waiting? || s.rcv.InLoop?) ==> HasCancel(s.toR)))
  }

  lemma HasCancelAppend(queue: seq<Msg>, more: seq<Msg>)
    ensures HasCancel(queue + more) <==> HasCancel(queue) || HasCancel(more)
  {
    var all := queue + more;
    if HasCancel(queue) { var i :| 0 <= i < |queue| && queue[i].Cancel?; assert all[i] == queue[i]; }
    if HasCancel(more) { var i :| 0 <= i < |more| && more[i].Cancel?; assert all[|queue| + i] == more[i]; }
  }

  lemma CancelHead(msg: Msg, rest: seq<Msg>)
    ensures HasCancel([msg] + rest) <==> msg.Cancel? || HasCancel(rest)
  {
    HasCancelAppend([msg], rest);
    if msg.Cancel? { assert [msg][0].Cancel?; }
  }

  lemma EndingsTake(c: Config, s: State)
    requires Data(c, s) && Endings(s)
    ensures Endings(DoTake(s))
  {
    if s.rcv.InLoop? && s.toR != [] {
      assert s.toR == [s.toR[0]] + s.toR[1..];
      CancelHead(s.toR[0], s.toR[1..]);
    }
  }

  lemma EndingsOffer(c: Config, s: State)
    requires Endings(s)
    ensures Endings(DoTakeOffer(c, s)) && Endings(DoRefuseOffer(s))
  {
    if s.toR != [] {
      assert s.toR == [s.toR[0]] + s.toR[1..];
      CancelHead(s.toR[0], s.toR[1..]);
    }
  }

  lemma EndingsSend(c: Config, s: State, n: nat)
    requires Endings(s)
    ensures Endings(DoSendChunk(c, s, n)) && Endings(DoSendComplete(c, s))
  {
    var s1, s2 := DoSendChunk(c, s, n), DoSendComplete(c, s);
    if s1.toR != s.toR { HasCancelAppend(s.toR, [s1.toR[|s.toR|]]); }
    HasCancelAppend(s.toR, [Complete(s.id)]);
  }

  lemma EndingsCheckPaused(c: Config, s: State)
    requires Pausing(s) && Endings(s)
    ensures Endings(DoCheckPaused(s))
  {
    var msg := Cancel(s.id, SenderPaused);
    HasCancelAppend(s.toR, [msg]);
    assert [msg][0].Cancel?;
  }

  lemma EndingsDuplicate(s: State, i: nat, j: nat)
    requires Endings(s)
    ensures Endings(DoDuplicate(s, i, j))
  {
    if i < j <= |s.toR| && s.toR[i].Chunk? {
      DuplicateAddsNoCancel(s.toR, i, j);
    }
  }

  lemma DuplicateAddsNoCancel(queue: seq<Msg>, i: nat, j: nat)
    requires i < j <= |queue| && !queue[i].Cancel?
    ensures HasCancel(queue[..j] + [queue[i]] + queue[j..]) <==> HasCancel(queue)
  {
    HasCancelAppend(queue[..j], queue[j..]);
    HasCancelAppend(queue[..j], [queue[i]]);
    HasCancelAppend(queue[..j] + [queue[i]], queue[j..]);
    assert queue == queue[..j] + queue[j..];
    CancelHead(queue[i], []);
    assert [queue[i]] + [] == [queue[i]];
  }

  lemma EndingsCut(s: State, keepR: nat, keepS: nat)
    requires Endings(s)
    ensures Endings(DoCut(s, keepR, keepS))
  {
    var k := Min(keepR, |s.toR|);
    assert s.toR == s.toR[..k] + s.toR[k..];
    HasCancelAppend(s.toR[..k], s.toR[k..]);
  }

  lemma EndingsLoop(s: State)
    requires Endings(s)
    ensures Endings(DoSeeLoss(s)) && Endings(DoSeeCancel(s))
  {
  }

  lemma EndingsCheck(c: Config, s: State)
    requires Endings(s)
    ensures Endings(DoCheck(c, s)) && Endings(DoRename(s))
  {
  }

  lemma EndingsFinish(s: State)
    requires Endings(s)
    ensures Endings(DoFinishReceive(s))
  {
  }

  lemma EndingsCrash(s: State, written: nat)
    requires Endings(s)
    ensures Endings(DoCrash(s, written))
  {
  }

  lemma EndingsSenderTake(c: Config, s: State)
    requires Endings(s)
    ensures Endings(DoSenderTake(c, s))
  {
    if s.toS != [] && SenderActive(s) { SentMeansVerified(s.(toS := s.toS[1..]), s.toS[0]); }
  }

  lemma EndingsRest(c: Config, s: State, e: Event)
    requires Endings(s) && (e.Begin? || e.SeeFlag? || e.FinishSend? || e.UserCancel? || e.RemoveOld? || e.ReceiverProgress?)
    ensures Endings(Step(c, s, e))
  {
  }

  lemma EndingsSmall(c: Config, s: State, e: Event)
    requires Endings(s) && (e.TimeOut? || e.SeeSendLoss? || e.SenderProgress? || e.PauseStatus? || e.PauseFlag? || e.CancelFlag? || e.CancelStatus?)
    ensures Endings(Step(c, s, e))
  {
  }

  lemma KeepEndings(c: Config, s: State, e: Event)
    requires Data(c, s) && Pausing(s) && Endings(s)
    ensures Endings(Step(c, s, e))
  {
    match e
    case Take => EndingsTake(c, s);
    case TakeOffer => EndingsOffer(c, s);
    case RefuseOffer => EndingsOffer(c, s);
    case SendChunk(n) => EndingsSend(c, s, n);
    case SendComplete => EndingsSend(c, s, 0);
    case CheckPaused => EndingsCheckPaused(c, s);
    case Duplicate(i, j) => EndingsDuplicate(s, i, j);
    case Cut(keepR, keepS) => EndingsCut(s, keepR, keepS);
    case Check => EndingsCheck(c, s);
    case Rename => EndingsCheck(c, s);
    case SeeLoss => EndingsLoop(s);
    case SeeCancel => EndingsLoop(s);
    case FinishReceive => EndingsFinish(s);
    case Crash(written) => EndingsCrash(s, written);
    case SenderTake => EndingsSenderTake(c, s);
    case Begin => EndingsRest(c, s, e);
    case SeeFlag => EndingsRest(c, s, e);
    case FinishSend => EndingsRest(c, s, e);
    case UserCancel => EndingsRest(c, s, e);
    case RemoveOld => EndingsRest(c, s, e);
    case ReceiverProgress => EndingsRest(c, s, e);
    case _ => EndingsSmall(c, s, e);
  }

  // ---------- Every run ----------

  /** All of it. */
  predicate Inv(c: Config, s: State) {
    Data(c, s) && Success(c, s) && Pausing(s) && Endings(s)
  }

  lemma IdleIsFine(c: Config, partial: Option<seq<byte>>, final: Option<seq<byte>>)
    ensures Inv(c, Idle(partial, final))
  {
  }

  lemma {:induction false} RunKeepsInv(c: Config, s: State, events: seq<Event>)
    requires Inv(c, s)
    ensures Inv(c, Run(c, s, events))
    decreases |events|
  {
    if events == [] {
    } else {
      var e := events[0];
      KeepData(c, s, e);
      KeepSuccess(c, s, e);
      KeepPausing(c, s, e);
      KeepEndings(c, s, e);
      RunKeepsInv(c, Step(c, s, e), events[1..]);
    }
  }

  lemma ReachableIsFine(c: Config, partial: Option<seq<byte>>, final: Option<seq<byte>>, events: seq<Event>)
    ensures Inv(c, Run(c, Idle(partial, final), events))
  {
    IdleIsFine(c, partial, final);
    RunKeepsInv(c, Idle(partial, final), events);
  }

  /** In every run from any disk: when the sender reports success, the receiver has held content with the offered hash. */
  lemma SenderSuccessJustified(c: Config, partial: Option<seq<byte>>, final: Option<seq<byte>>, events: seq<Event>)
    ensures var s := Run(c, Idle(partial, final), events);
            s.snd == Returned(Sent) || s.snd == SenderDone(Sent) ==> s.held.Some? && c.hash(s.held.value) == c.hash(c.src)
  {
    ReachableIsFine(c, partial, final, events);
  }

  /** Both ends start at the same offset, which is the length of the residue. */
  lemma StartOffsetsAgree(c: Config, s: State)
    requires Inv(c, s) && s.rcv.InLoop? && s.offset.None? && DoSenderTake(c, s).offset.Some?
    ensures DoSenderTake(c, s).offset.value == s.rcv.received == |s.partial.value|
  {
    KeepSenderTake(c, s);
  }

  // ---------- The residue stays a prefix ----------

  predicate PrefixOf(content: Option<seq<byte>>, src: seq<byte>) {
    content.Some? ==> content.value <= src
  }

  predicate Prefix(c: Config, s: State) {
    PrefixOf(s.partial, c.src) && s.origin <= c.src
  }

  lemma BuiltIsPrefix(c: Config, s: State, n: nat)
    requires Built(c, s, n) && s.origin <= c.src
    ensures s.partial.value == c.src[..n]
  {
    assert s.origin == c.src[..|s.origin|];
    assert c.src[..|s.origin|] + c.src[|s.origin|..n] == c.src[..n];
  }

  /** A crash in the middle of a write leaves a shorter extension. */
  lemma CrashKeepsPrefix(c: Config, s: State, written: nat)
    requires Data(c, s) && Prefix(c, s)
    ensures var s' := DoCrash(s, written); Prefix(c, s') && Grows(s.partial, s'.partial)
  {
    if s.rcv.InLoop? {
      var n := s.rcv.received;
      BuiltIsPrefix(c, s, n);
      if s.toR != [] && s.toR[0].Chunk? && s.toR[0].offset == n {
        var data := s.toR[0].data;
        var part := data[..Min(written, |data|)];
        WriteAtEnd(s.partial.value, part);
        assert c.src[..n] + part == c.src[..n + |part|];
      }
    }
  }

  /** What was there stays in front. */
  predicate Grows(before: Option<seq<byte>>, after: Option<seq<byte>>) {
    before.Some? ==> after.Some? && before.value <= after.value
  }

  /** A residue is given up only for a cancel by the receiving user, or because the whole source is at the final path. */
  predicate GivenUp(c: Config, s: State, e: Event) {
    || (e.FinishReceive? && s.rcv == Ended(Some(LocalCancel)))
    || (e.Rename? && Step(c, s, e).final == Some(c.src))
  }

  lemma TakeGrows(c: Config, s: State)
    requires Data(c, s) && Prefix(c, s)
    ensures var s' := DoTake(s); Prefix(c, s') && Grows(s.partial, s'.partial)
  {
    if s.rcv.InLoop? && s.toR != [] {
      BuiltIsPrefix(c, s, s.rcv.received);
      KeepTake(c, s);
      var s' := DoTake(s);
      if s.toR[0].Chunk? && s.toR[0].offset == s.rcv.received {
        WriteAtEnd(s.partial.value, s.toR[0].data);
        BuiltIsPrefix(c, s', s'.rcv.received);
      }
    }
  }

  lemma RenameGivesSource(c: Config, s: State)
    requires Data(c, s) && Prefix(c, s) && s.rcv.Replacing?
    ensures DoRename(s).final == Some(c.src) && DoRename(s).partial == None
  {
    BuiltIsPrefix(c, s, |c.src|);
    assert c.src[..|c.src|] == c.src;
  }

  lemma OfferKeepsPrefix(c: Config, s: State)
    requires Prefix(c, s)
    ensures var s' := DoTakeOffer(c, s); Prefix(c, s') && Grows(s.partial, s'.partial)
  {
  }

  lemma FinishKeepsPrefix(c: Config, s: State)
    requires Data(c, s) && Prefix(c, s)
    ensures var s' := DoFinishReceive(s); Prefix(c, s') && (Grows(s.partial, s'.partial) || s.rcv == Ended(Some(LocalCancel)))
  {
    PrefixNeverFails(c, s);
  }

  /** A residue that is a prefix of the source never fails the check. */
  lemma PrefixNeverFails(c: Config, s: State)
    requires Data(c, s) && Prefix(c, s)
    ensures !(s.rcv == Ended(Some(VerifyFailed))) && !(s.rcv == ReceiverDone(Some(VerifyFailed)))
  {
    assert s.origin + c.src[|s.origin|..] == c.src;
  }

  predicate SameResidue(s: State, s': State) {
    s'.partial == s.partial && s'.origin == s.origin
  }

  lemma ResidueFrameSender(c: Config, s: State, n: nat)
    ensures SameResidue(s, DoSenderTake(c, s)) && SameResidue(s, DoSendChunk(c, s, n)) && SameResidue(s, DoSendComplete(c, s))
  {
    if s.toS != [] && SenderActive(s) { SentMeansVerified(s.(toS := s.toS[1..]), s.toS[0]); }
  }

  lemma ResidueFrameEnds(c: Config, s: State)
    ensures SameResidue(s, DoSeeFlag(c, s)) && SameResidue(s, DoCheckPaused(s)) && SameResidue(s, DoFinishSend(s))
  {
  }

  lemma ResidueFrameOther(c: Config, s: State, i: nat, j: nat)
    ensures SameResidue(s, DoRefuseOffer(s)) && SameResidue(s, DoSeeCancel(s)) && SameResidue(s, DoSeeLoss(s))
    ensures SameResidue(s, DoCheck(c, s)) && SameResidue(s, DoDuplicate(s, i, j)) && SameResidue(s, DoCut(s, i, j))
  {
  }

  lemma ResidueFrameUser(c: Config, s: State, e: Event)
    requires e.TimeOut? || e.SeeSendLoss? || e.SenderProgress? || e.ReceiverProgress? || e.UserCancel? || e.RemoveOld?
          || e.PauseStatus? || e.PauseFlag? || e.CancelFlag? || e.CancelStatus?
    ensures SameResidue(s, Step(c, s, e))
  {
  }

  /** One step from a prefix leads to a prefix, and loses nothing but in the two cases named. */
  lemma StepKeepsPrefix(c: Config, s: State, e: Event)
    requires Data(c, s) && Prefix(c, s)
    ensures var s' := Step(c, s, e); Prefix(c, s') && (Grows(s.partial, s'.partial) || GivenUp(c, s, e))
  {
    match e
    case Take => TakeGrows(c, s);
    case TakeOffer => OfferKeepsPrefix(c, s);
    case Crash(written) => CrashKeepsPrefix(c, s, written);
    case FinishReceive => FinishKeepsPrefix(c, s);
    case Rename => if s.rcv.Replacing? { RenameGivesSource(c, s); }
    case SenderTake => ResidueFrameSender(c, s, 0);
    case SendChunk(n) => ResidueFrameSender(c, s, n);
    case SendComplete => ResidueFrameSender(c, s, 0);
    case SeeFlag => ResidueFrameEnds(c, s);
    case CheckPaused => ResidueFrameEnds(c, s);
    case FinishSend => ResidueFrameEnds(c, s);
    case Duplicate(i, j) => ResidueFrameOther(c, s, i, j);
    case Cut(keepR, keepS) => ResidueFrameOther(c, s, keepR, keepS);
    case RefuseOffer => ResidueFrameOther(c, s, 0, 0);
    case SeeCancel => ResidueFrameOther(c, s, 0, 0);
    case SeeLoss => ResidueFrameOther(c, s, 0, 0);
    case Check => ResidueFrameOther(c, s, 0, 0);
    case Begin =>
    case _ => ResidueFrameUser(c, s, e);
  }

  /** In every run that starts with no residue or a prefix of the source, the residue is always a prefix of it. */
  lemma {:induction false} RunKeepsPrefix(c: Config, s: State, events: seq<Event>)
    requires Inv(c, s) && Prefix(c, s)
    ensures Prefix(c, Run(c, s, events))
    decreases |events|
  {
    if events == [] {
    } else {
      var e := events[0];
      StepKeepsPrefix(c, s, e);
      RunKeepsInv(c, s, [e]);
      assert Run(c, s, [e]) == Step(c, s, e) by { assert [e][1..] == []; }
      RunKeepsPrefix(c, Step(c, s, e), events[1..]);
    }
  }

  // ---------- What reaches the final path ----------

  /** Over any run, from any residue: the final path holds what it held, nothing, or content with the offered hash. */
  lemma {:induction false} FinalOnlyGood(c: Config, s: State, events: seq<Event>)
    requires Inv(c, s)
    ensures var t := Run(c, s, events); t.final == s.final || t.final == None || Good(c, t.final)
    decreases |events|
  {
    if events == [] {
    } else {
      var s' := Step(c, s, events[0]);
      FinalStep(c, s, events[0]);
      RunKeepsInv(c, s, [events[0]]);
      assert Run(c, s, [events[0]]) == s' by { assert [events[0]][1..] == []; }
      FinalOnlyGood(c, s', events[1..]);
    }
  }

  lemma FinalFrameSender(c: Config, s: State, n: nat)
    ensures DoSenderTake(c, s).final == DoSendChunk(c, s, n).final == DoSendComplete(c, s).final == s.final
  {
    if s.toS != [] && SenderActive(s) { SentMeansVerified(s.(toS := s.toS[1..]), s.toS[0]); }
  }

  lemma FinalFrameOffer(c: Config, s: State)
    ensures DoTakeOffer(c, s).final == s.final && DoTake(s).final == s.final
  {
  }

  lemma FinalFrameEnds(c: Config, s: State)
    ensures DoCheck(c, s).final == s.final && DoFinishReceive(s).final == s.final
  {
  }

  lemma FinalFrameNetwork(s: State, i: nat, j: nat)
    ensures DoCrash(s, i).final == s.final && DoDuplicate(s, i, j).final == s.final
  {
  }

  lemma FinalStep(c: Config, s: State, e: Event)
    requires Success(c, s)
    ensures var s' := Step(c, s, e); s'.final == s.final || s'.final == None || Good(c, s'.final)
  {
    if !e.Rename? {
      FinalKept(c, s, e);
    }
  }

  lemma SourceFinalStep(c: Config, s: State, e: Event)
    requires Inv(c, s) && Prefix(c, s)
    ensures var s' := Step(c, s, e); s'.final == s.final || s'.final == None || s'.final == Some(c.src)
  {
    if e.Rename? {
      if s.rcv.Replacing? { RenameGivesSource(c, s); }
    } else {
      FinalKept(c, s, e);
    }
  }

  /** Only the rename puts something at the final path. */
  lemma FinalKept(c: Config, s: State, e: Event)
    requires !e.Rename?
    ensures var s' := Step(c, s, e); s'.final == s.final || s'.final == None
  {
    match e
    case SenderTake => FinalFrameSender(c, s, 0);
    case SendChunk(n) => FinalFrameSender(c, s, n);
    case SendComplete => FinalFrameSender(c, s, 0);
    case TakeOffer => FinalFrameOffer(c, s);
    case Take => FinalFrameOffer(c, s);
    case Check => FinalFrameEnds(c, s);
    case FinishReceive => FinalFrameEnds(c, s);
    case Crash(written) => FinalFrameNetwork(s, written, 0);
    case Duplicate(i, j) => FinalFrameNetwork(s, i, j);
    case _ =>
  }

  /**
   Over any run that starts with no residue or a prefix of the source: the final path holds what it held, nothing, or the
   source itself; and once a receive has completed it holds the source, or still what was found there with the offered hash.
   */
  lemma {:induction false} FinalIsSource(c: Config, s: State, events: seq<Event>)
    requires Inv(c, s) && Prefix(c, s)
    ensures var t := Run(c, s, events);
            && (t.final == s.final || t.final == None || t.final == Some(c.src))
            && (t.rcv == ReceiverDone(None) ==> t.final == Some(c.src) || (t.final == s.final && Good(c, s.final)))
    decreases |events|
  {
    if events == [] {
    } else {
      var e := events[0];
      SourceFinalStep(c, s, e);
      StepKeepsPrefix(c, s, e);
      RunKeepsInv(c, s, [e]);
      assert Run(c, s, [e]) == Step(c, s, e) by { assert [e][1..] == []; }
      FinalIsSource(c, Step(c, s, e), events[1..]);
    }
  }

  // ---------- Paused sends ----------

  predicate Told(s: State) {
    s.snd == Returned(ByFlag) || s.snd.PauseTold?
  }

  lemma ToldStep(c: Config, s: State, e: Event)
    requires Pausing(s) && Told(s) && !s.pause.CancelCalled?
    ensures var s' := Step(c, s, e); s'.id > s.id || (s'.id == s.id && Told(s'))
  {
    match e
    case Crash(written) => SenderFrameNetwork(s, written, 0, 0);
    case Duplicate(i, j) => SenderFrameNetwork(s, 0, i, j);
    case Cut(keepR, keepS) => SenderFrameNetwork(s, 0, keepR, keepS);
    case Check => SenderFrameCheck(c, s);
    case Rename => SenderFrameCheck(c, s);
    case FinishReceive => SenderFrameFinish(s);
    case TakeOffer => SenderFrameOffer(c, s);
    case RefuseOffer => SenderFrameOffer(c, s);
    case Take => SenderFrameLoop(s);
    case SeeCancel => SenderFrameLoop(s);
    case SeeLoss => SenderFrameLoop(s);
    case _ =>
  }
}
