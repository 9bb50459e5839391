/**
 The resumable transfer as a two-party protocol: sender task, receiver task, one FIFO channel
 each way and the receiver's disk, over any number of sessions. A run is a list of events;
 every choice (chunk sizes, interleaving, loss, duplication, crashes, user actions) is an event,
 and an event that is not possible changes nothing.
 */
module Transfer {
  import opened Bytes
  import opened Disk
  import opened Messages

  datatype Status = Pending | Transferring | Paused | Completed | Failed | Cancelled | Rejected

  /** How `send_file_quic` ended. */
  datatype SendEnd = Sent | ByFlag | ByPeer(rejected: bool) | TimedOut | ConnectionLost | BadVerify

  /** Where the sending task (`run_send`) is. */
  datatype Sender =
    | NoSender
    | AwaitAccept
    | Sending
    | AwaitVerify
    | Returned(end: SendEnd)   // before the pause check
    | Finishing(end: SendEnd)  // the check saw no pause
    | PauseTold                // the check saw a pause; the receiver has been told
    | SenderDone(end: SendEnd) // status and history written

  /** Where the receiving task (`handle_offer`, `receive_quic`, `finish_receive`) is. */
  datatype Receiver =
    | NoReceiver
    | Waiting
    | InLoop(received: nat)
    | Checking
    | Verified
    | Replacing                // the old final file is gone, the rename is next
    | InstantSend
    | Ended(error: Option<RecvError>)
    | ReceiverDone(error: Option<RecvError>)
    | Refused
    | Crashed

  /** How far the user's `file_pause` is, or that `file_cancel` has been called. */
  datatype UserCall = NotCalled | StatusSet | FlagSet | CancelCalled

  datatype Config = Config(src: seq<byte>, hash: Hasher, chunk: pos) {
    function TheOffer(id: nat): Offer {
      Offer(id, "", |src|, hash(src))
    }
  }

  datatype State = State(
    // the receiver's disk: residue and final file
    partial: Option<seq<byte>>, final: Option<seq<byte>>,
    // sender side
    snd: Sender, offset: Option<nat>, flag: bool, status: Status, records: nat, pause: UserCall,
    // receiver side
    rcv: Receiver, rflag: bool, rstatus: Status,
    // channels
    toR: seq<Msg>, toS: seq<Msg>, cut: bool,
    // for the statements: session number, residue at its start, content that passed a check, outside interference
    id: nat, origin: seq<byte>, held: Option<seq<byte>>, disturbed: bool)

  datatype Event =
    | Begin
    // receiver
    | TakeOffer | RefuseOffer | Take | UserCancel | SeeCancel | SeeLoss | Check | RemoveOld | Rename | FinishReceive
    | ReceiverProgress | Crash(written: nat)
    // sender
    | SenderTake | SendChunk(n: nat) | SendComplete | SeeFlag | TimeOut | SeeSendLoss | CheckPaused | FinishSend
    | SenderProgress | PauseStatus | PauseFlag | CancelFlag | CancelStatus
    // network
    | Duplicate(i: nat, j: nat) | Cut(keepR: nat, keepS: nat)

  /** `partial` after planning and opening. */
  function Planned(partial: Option<seq<byte>>, size: nat): seq<byte> {
    if partial.Some? && |partial.value| <= size then partial.value else []
  }

  function Idle(partial: Option<seq<byte>>, final: Option<seq<byte>>): State {
    State(partial, final, NoSender, None, false, Pending, 0, NotCalled, NoReceiver, false, Pending, [], [], false, 0, [], None, false)
  }

  predicate SessionOver(s: State) {
    && (s.snd.NoSender? || s.snd.PauseTold? || s.snd.SenderDone?)
    && (s.rcv.NoReceiver? || s.rcv.ReceiverDone? || s.rcv.Refused? || s.rcv.Crashed?)
  }

  /** The guard both progress handlers use: final and paused states are not overwritten. */
  function Progress(status: Status): Status {
    if status in {Completed, Failed, Cancelled, Rejected, Paused} then status else Transferring
  }

  function ReceiveStatus(error: Option<RecvError>): Status {
    match error
    case None => Completed
    case Some(PeerCancel(SenderPaused)) => Paused
    case Some(LocalCancel) => Cancelled
    case Some(PeerCancel(_)) => Cancelled
    case Some(_) => Failed
  }

  /** Kept after a pause or a lost connection, deleted after a cancel or a failed check. */
  predicate DeletesResidue(error: RecvError) {
    error.LocalCancel? || error.VerifyFailed? || (error.PeerCancel? && error.reason != SenderPaused)
  }

  function SendStatus(end: SendEnd): Status {
    match end
    case Sent => Completed
    case ByFlag => Cancelled
    case ByPeer(rejected) => if rejected then Failed else Cancelled
    case _ => Failed
  }

  predicate SenderActive(s: State) {
    s.snd.AwaitAccept? || s.snd.Sending? || s.snd.AwaitVerify?
  }

  /** The queue towards the sender; what is sent over a cut connection is gone. */
  function ToSender(s: State, msgs: seq<Msg>): seq<Msg> {
    if s.cut then s.toS else s.toS + msgs
  }

  function ReadAccept(s: State, msg: Msg): State {
    match OnAwaitAccept(s.id, msg)
    case Got(offset) => s.(snd := Sending, offset := Some(offset))
    case Stop(rejected) => s.(snd := Returned(ByPeer(rejected)))
    case Ignore => s
  }

  function ReadWhileSending(s: State, msg: Msg): State {
    match OnWhileSending(msg)
    case Stop(rejected) => s.(snd := Returned(ByPeer(rejected)))
    case _ => s
  }

  function ReadVerify(s: State, msg: Msg): State {
    match OnAwaitVerify(s.id, msg)
    case Got(ok) => s.(snd := Returned(if ok then Sent else BadVerify))
    case Stop(rejected) => s.(snd := Returned(ByPeer(rejected)))
    case Ignore => s
  }

  function SenderReads(s: State, msg: Msg): State {
    if s.snd.AwaitAccept? then ReadAccept(s, msg)
    else if s.snd.Sending? then ReadWhileSending(s, msg)
    else if s.snd.AwaitVerify? then ReadVerify(s, msg)
    else s
  }

  // ---------- Receiver events ----------

  /** Find a duplicate, or plan, answer and open. */
  function DoTakeOffer(c: Config, s: State): State {
    if !s.rcv.Waiting? || s.toR == [] || !s.toR[0].OfferMsg? then s
    else if s.partial.None? && s.final.Some? && |s.final.value| == |c.src| && c.hash(s.final.value) == c.hash(c.src) then
      // an identical file is there: nothing is written
      s.(rcv := InstantSend, toR := s.toR[1..], held := s.final, toS := ToSender(s, [Accept(s.id, |c.src|), Verify(s.id, true)]))
    else
      var content := Planned(s.partial, |c.src|);
      s.(rcv := InLoop(|content|), partial := Some(content), origin := content, rstatus := Transferring, toR := s.toR[1..],
         toS := ToSender(s, [Accept(s.id, |content|)]))
  }

  function DoRefuseOffer(s: State): State {
    if !s.rcv.Waiting? || s.toR == [] || !s.toR[0].OfferMsg? then s
    else s.(rcv := Refused, rstatus := Rejected, disturbed := true, toR := s.toR[1..], toS := ToSender(s, [Reject(s.id)]))
  }

  function DoTake(s: State): State {
    if !s.rcv.InLoop? || s.partial.None? || s.toR == [] then s
    else
      var s' := s.(toR := s.toR[1..], toS := ToSender(s, Replies(s.id, s.toR[0])));
      match OnMessage(s.id, s.rcv.received, s.partial.value, s.toR[0])
      case Receiving(received, content) => s'.(rcv := InLoop(received), partial := Some(content))
      case AllArrived(_, content) => s'.(rcv := Checking, partial := Some(content))
      case Broken(error, content) => s'.(rcv := Ended(Some(error)), partial := Some(content))
  }

  function DoSeeCancel(s: State): State {
    if !s.rcv.InLoop? || !s.rflag then s
    else s.(rcv := Ended(Some(LocalCancel)), toS := ToSender(s, [Cancel(s.id, ReceiverCancelled)]))
  }

  function DoSeeLoss(s: State): State {
    if !s.cut || s.toR != [] then s
    else if s.rcv.InLoop? then s.(rcv := Ended(Some(Lost)))
    else if s.rcv.Waiting? then s.(rcv := Refused, rstatus := Rejected)
    else s
  }

  function DoCheck(c: Config, s: State): State {
    if !s.rcv.Checking? || s.partial.None? then s
    else
      var ok := c.hash(s.partial.value) == c.hash(c.src);
      var s' := s.(toS := ToSender(s, [Verify(s.id, ok)]));
      if ok then s'.(rcv := Verified, held := s.partial) else s'.(rcv := Ended(Some(VerifyFailed)))
  }

  function DoRename(s: State): State {
    if !s.rcv.Replacing? then s
    else if s.partial.None? then s.(rcv := Ended(Some(NothingToRename)))
    else s.(rcv := Ended(None), final := s.partial, partial := None)
  }

  function DoFinishReceive(s: State): State {
    if s.rcv.InstantSend? then s.(rcv := ReceiverDone(None), rstatus := Completed)
    else if !s.rcv.Ended? then s
    else
      var s' := s.(rcv := ReceiverDone(s.rcv.error), rstatus := ReceiveStatus(s.rcv.error));
      if s.rcv.error.Some? && DeletesResidue(s.rcv.error.value) then s'.(partial := None) else s'
  }

  /** While the chunk at the head of the queue is being written, or at any other moment. */
  function DoCrash(s: State, written: nat): State {
    var s' := s.(rcv := Crashed, cut := true, disturbed := true);
    if s.rcv.InLoop? && s.partial.Some? && s.toR != [] && s.toR[0].Chunk? && s.toR[0].id == s.id && s.toR[0].offset == s.rcv.received then
      var data := s.toR[0].data;
      s'.(partial := Some(WriteAt(s.partial.value, s.rcv.received, data[..Min(written, |data|)])))
    else s'
  }

  // ---------- Sender events ----------

  function DoSenderTake(c: Config, s: State): State {
    if s.toS == [] || !SenderActive(s) then s
    else
      var s' := SenderReads(s.(toS := s.toS[1..]), s.toS[0]);
      if s'.offset.Some? then s'.(offset := Some(Min(s'.offset.value, |c.src|))) else s'
  }

  /** Any read size from 1 up to what the loop asks for. */
  function DoSendChunk(c: Config, s: State, n: nat): State {
    if !s.snd.Sending? || s.offset.None? || s.offset.value >= |c.src| || s.flag then s
    else if s.cut then s.(snd := Returned(ConnectionLost))
    else
      var from := s.offset.value;
      var size := Min(if n == 0 then 1 else n, Min(|c.src| - from, c.chunk));
      s.(offset := Some(from + size), toR := s.toR + [Chunk(s.id, from, c.src[from..from + size])])
  }

  function DoSendComplete(c: Config, s: State): State {
    if !s.snd.Sending? || s.offset.None? || s.offset.value < |c.src| then s
    else if s.cut then s.(snd := Returned(ConnectionLost))
    else s.(snd := AwaitVerify, toR := s.toR + [Complete(s.id)])
  }

  /** At the top of the sending loop, or while waiting. */
  function DoSeeFlag(c: Config, s: State): State {
    if s.flag && (s.snd.AwaitAccept? || s.snd.AwaitVerify? || (s.snd.Sending? && s.offset.Some? && s.offset.value < |c.src|))
    then s.(snd := Returned(ByFlag)) else s
  }

  function DoCheckPaused(s: State): State {
    if !s.snd.Returned? then s
    else if s.status == Paused then s.(snd := PauseTold, toR := if s.cut then s.toR else s.toR + [Cancel(s.id, SenderPaused)])
    else s.(snd := Finishing(s.snd.end))
  }

  function DoFinishSend(s: State): State {
    if !s.snd.Finishing? then s
    else s.(snd := SenderDone(s.snd.end), status := SendStatus(s.snd.end), records := s.records + 1)
  }

  // ---------- One step, a run ----------

  function DoBegin(c: Config, s: State): State {
    if !SessionOver(s) then s
    else State(s.partial, s.final, AwaitAccept, None, false, Pending, 0, NotCalled, Waiting, false, Pending,
               [OfferMsg(c.TheOffer(s.id + 1))], [], false, s.id + 1, [], None, false)
  }

  function DoDuplicate(s: State, i: nat, j: nat): State {
    if i < j <= |s.toR| && s.toR[i].Chunk? then s.(toR := s.toR[..j] + [s.toR[i]] + s.toR[j..]) else s
  }

  function DoCut(s: State, keepR: nat, keepS: nat): State {
    s.(cut := true, disturbed := true, toR := s.toR[..Min(keepR, |s.toR|)], toS := s.toS[..Min(keepS, |s.toS|)])
  }

  function Step(c: Config, s: State, e: Event): State {
    match e
    case Begin => DoBegin(c, s)
    case TakeOffer => DoTakeOffer(c, s)
    case RefuseOffer => DoRefuseOffer(s)
    case Take => DoTake(s)
    case UserCancel => if s.rcv.InLoop? then s.(rflag := true, disturbed := true) else s
    case SeeCancel => DoSeeCancel(s)
    case SeeLoss => DoSeeLoss(s)
    case Check => DoCheck(c, s)
    case RemoveOld => if s.rcv.Verified? then s.(rcv := Replacing, final := None) else s
    case Rename => DoRename(s)
    case FinishReceive => DoFinishReceive(s)
    case ReceiverProgress => s.(rstatus := Progress(s.rstatus))
    case Crash(written) => DoCrash(s, written)
    case SenderTake => DoSenderTake(c, s)
    case SendChunk(n) => DoSendChunk(c, s, n)
    case SendComplete => DoSendComplete(c, s)
    case SeeFlag => DoSeeFlag(c, s)
    case TimeOut => if s.snd.AwaitAccept? || s.snd.AwaitVerify? then s.(snd := Returned(TimedOut), disturbed := true) else s
    case SeeSendLoss => if s.cut && s.toS == [] && SenderActive(s) then s.(snd := Returned(ConnectionLost)) else s
    case CheckPaused => DoCheckPaused(s)
    case FinishSend => DoFinishSend(s)
    case SenderProgress => s.(status := Progress(s.status))
    case PauseStatus => if s.snd.NoSender? then s else s.(pause := if s.pause.NotCalled? then StatusSet else s.pause, status := Paused)
    case PauseFlag => if s.pause.NotCalled? then s else s.(pause := if s.pause.StatusSet? then FlagSet else s.pause, flag := true)
    case CancelFlag => if s.snd.NoSender? then s else s.(pause := CancelCalled, flag := true, disturbed := true)
    case CancelStatus => if s.pause.CancelCalled? then s.(status := Cancelled) else s
    case Duplicate(i, j) => DoDuplicate(s, i, j)
    case Cut(keepR, keepS) => DoCut(s, keepR, keepS)
  }

  function Run(c: Config, s: State, events: seq<Event>): State
    decreases |events|
  {
    if events == [] then s else Run(c, Step(c, s, events[0]), events[1..])
  }
}
