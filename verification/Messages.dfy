/** Messages of the QUIC channel (protocol.rs), and what each side does with the one it reads next. */
module Messages {
  import opened Bytes
  import opened Disk

  /** The whole-file hash, about which nothing is assumed. */
  type Hasher = seq<byte> -> nat

  /** No other content has the hash of `src`; assumed only where equality of contents is claimed. */
  ghost predicate NoCollision(hash: Hasher, src: seq<byte>) {
    forall x :: hash(x) == hash(src) ==> x == src
  }

  /** Chunk sizes; the callers pass constants of 64 KiB and more. */
  type pos = n: nat | n >= 1 witness 1

  datatype Reason = SenderPaused | Ack | ReceiverCancelled

  datatype Offer = Offer(id: nat, name: string, size: nat, hash: nat)

  datatype Msg =
    | OfferMsg(offer: Offer)
    | Accept(id: nat, offset: nat)
    | Reject(id: nat)
    | Chunk(id: nat, offset: nat, data: seq<byte>)
    | Complete(id: nat)
    | Verify(id: nat, ok: bool)
    | Cancel(id: nat, reason: Reason)
    | OtherMsg

  // ---------- Receiver (the loop of receive_quic) ----------

  datatype RecvError = LocalCancel | PeerCancel(reason: Reason) | OffsetGap | VerifyFailed | Lost | NothingToRename

  /** `received` counts from the resume offset; `content` is the residue. */
  datatype Reception =
    | Receiving(received: nat, content: seq<byte>)
    | AllArrived(received: nat, content: seq<byte>)
    | Broken(error: RecvError, content: seq<byte>)

  function OnMessage(id: nat, received: nat, content: seq<byte>, msg: Msg): Reception {
    match msg
    case Chunk(cid, offset, data) =>
      if cid != id || offset < received then Receiving(received, content)
      else if offset > received then Broken(OffsetGap, content)
      else Receiving(received + |data|, WriteAt(content, offset, data))
    case Complete(_) => AllArrived(received, content)
    case Cancel(_, reason) => Broken(PeerCancel(reason), content)
    case _ => Receiving(received, content)
  }

  /** A cancel is acknowledged before the loop ends. */
  function Replies(id: nat, msg: Msg): seq<Msg> {
    if msg.Cancel? then [Cancel(id, Ack)] else []
  }

  // ---------- What a loop meets ----------

  /** One arm of a waiting loop: a message, a broken connection, or a poll of the cancel flag. */
  datatype Arm = Incoming(msg: Msg) | ConnError | Tick(cancelled: bool)

  // ---------- Sender ----------

  datatype Answer<T> = Got(value: T) | Stop(rejected: bool) | Ignore

  function OnAwaitAccept(id: nat, msg: Msg): Answer<nat> {
    match msg
    case Accept(aid, offset) => if aid == id then Got(offset) else Ignore
    case Reject(_) => Stop(true)
    case Cancel(_, _) => Stop(false)
    case _ => Ignore
  }

  function OnWhileSending(msg: Msg): Answer<nat> {
    match msg
    case Reject(_) => Stop(true)
    case Cancel(_, _) => Stop(false)
    case _ => Ignore
  }

  function OnAwaitVerify(id: nat, msg: Msg): Answer<bool> {
    match msg
    case Verify(vid, ok) => if vid == id then Got(ok) else Ignore
    case Cancel(_, _) => Stop(false)
    case _ => Ignore
  }

  /** What a sender reports: where it got to, from where, and whether there was nothing to send. */
  datatype SendResult = SendResult(bytesSent: nat, resumeOffset: nat, quickSent: bool)

  /** Waiting for the answer: the accept of this transfer is taken, any rejection or cancel ends the wait, the rest is passed over. */
  lemma AcceptAnswers(id: nat, msg: Msg)
    ensures forall offset: nat :: OnAwaitAccept(id, msg) == Got(offset) <==> msg == Accept(id, offset)
    ensures OnAwaitAccept(id, msg) == Stop(true) <==> msg.Reject?
    ensures OnAwaitAccept(id, msg) == Stop(false) <==> msg.Cancel?
  {
  }

  /** While sending, only a rejection or a cancel counts. */
  lemma SendingAnswers(msg: Msg)
    ensures OnWhileSending(msg) == Stop(true) <==> msg.Reject?
    ensures OnWhileSending(msg) == Stop(false) <==> msg.Cancel?
    ensures !OnWhileSending(msg).Got?
  {
  }

  /** Waiting for the verdict: that of this transfer is taken, a cancel ends the wait, the rest is passed over. */
  lemma VerdictAnswers(id: nat, msg: Msg)
    ensures forall ok: bool :: OnAwaitVerify(id, msg) == Got(ok) <==> msg == Verify(id, ok)
    ensures OnAwaitVerify(id, msg) == Stop(false) <==> msg.Cancel?
    ensures OnAwaitVerify(id, msg) != Stop(true)
  {
  }
}
