/**
 The QUIC receiver (receiver.rs and the parts of daemon_listener.rs around it): choosing the
 path, planning, the receive loop on the disk, the check and the clean-up afterwards.
 */
module Receiver {
  import opened Bytes
  import opened Names
  import opened Disk
  import opened Messages
  import Transfer

  datatype Result = Ok(bytes: nat) | Err(error: RecvError)

  /** One round of the receive loop: the flag is looked at first. */
  datatype Turn = Turn(cancelled: bool, arm: Arm)

  datatype Plan = Plan(offset: nat, partial: Path)

  // ---------- The loop as a fold ----------

  function OnTurn(id: nat, received: nat, content: seq<byte>, turn: Turn): Reception {
    if turn.cancelled then Broken(LocalCancel, content)
    else
      match turn.arm
      case Incoming(msg) => OnMessage(id, received, content, msg)
      case ConnError => Broken(Lost, content)
      case Tick(cancelled) => if cancelled then Broken(LocalCancel, content) else Receiving(received, content)
  }

  function TurnReplies(id: nat, turn: Turn): seq<Msg> {
    if turn.cancelled || turn.arm == Tick(true) then [Cancel(id, ReceiverCancelled)]
    else if turn.arm.Incoming? then Replies(id, turn.arm.msg)
    else []
  }

  /** Still `Receiving` when the turns run out. */
  function AfterTurns(id: nat, received: nat, content: seq<byte>, turns: seq<Turn>): Reception
    decreases |turns|
  {
    if turns == [] then Receiving(received, content)
    else
      var next := OnTurn(id, received, content, turns[0]);
      if next.Receiving? then AfterTurns(id, next.received, next.content, turns[1..]) else next
  }

  function RepliesOver(id: nat, received: nat, content: seq<byte>, turns: seq<Turn>): seq<Msg>
    decreases |turns|
  {
    if turns == [] then []
    else
      var next := OnTurn(id, received, content, turns[0]);
      TurnReplies(id, turns[0]) + if next.Receiving? then RepliesOver(id, next.received, next.content, turns[1..]) else []
  }

  /** One round by its cause: what ends the loop, what moves it, and what is said. */
  lemma RoundByCause(id: nat, received: nat, content: seq<byte>, turn: Turn)
    ensures var r, heard := OnTurn(id, received, content, turn), !turn.cancelled && turn.arm.Incoming?;
            && (r == Broken(LocalCancel, content) <==> turn.cancelled || turn.arm == Tick(true))
            && (r == Broken(Lost, content) <==> !turn.cancelled && turn.arm.ConnError?)
            && (forall reason :: r == Broken(PeerCancel(reason), content) <==> heard && turn.arm.msg.Cancel? && turn.arm.msg.reason == reason)
            && (r == Broken(OffsetGap, content) <==>
                  heard && turn.arm.msg.Chunk? && turn.arm.msg.id == id && turn.arm.msg.offset > received)
            && (r == AllArrived(received, content) <==> heard && turn.arm.msg.Complete?)
            && (r.Receiving? && r != Receiving(received, content) ==>
                  heard && turn.arm.msg.Chunk? && turn.arm.msg.id == id && turn.arm.msg.offset == received)
            && (heard && turn.arm.msg.Chunk? && turn.arm.msg.id == id && turn.arm.msg.offset == received ==>
                  r == Receiving(received + |turn.arm.msg.data|, WriteAt(content, received, turn.arm.msg.data)))
    ensures var said, heard := TurnReplies(id, turn), !turn.cancelled && turn.arm.Incoming?;
            && (turn.cancelled || turn.arm == Tick(true) ==> said == [Cancel(id, ReceiverCancelled)])
            && (heard && turn.arm.msg.Cancel? ==> said == [Cancel(id, Ack)])
            && (said != [] ==> turn.cancelled || turn.arm == Tick(true) || (heard && turn.arm.msg.Cancel?))
  {
  }

  /** Nothing for this transfer to do: a poll of the unset flag, a message of another kind, a chunk of another transfer or of what is there. */
  predicate IdleTurn(id: nat, received: nat, turn: Turn) {
    && !turn.cancelled
    && match turn.arm
       case Tick(cancelled) => !cancelled
       case ConnError => false
       case Incoming(msg) =>
         if msg.Chunk? then msg.id != id || msg.offset < received else !msg.Complete? && !msg.Cancel?
  }

  /** Polls, messages of other kinds and chunks of other transfers. */
  predicate Foreign(id: nat, turn: Turn) {
    IdleTurn(id, 0, turn)
  }

  lemma IdleChangesNothing(id: nat, received: nat, content: seq<byte>, turn: Turn)
    requires IdleTurn(id, received, turn)
    ensures OnTurn(id, received, content, turn) == Receiving(received, content) && TurnReplies(id, turn) == []
  {
  }

  /** A round with nothing to do, anywhere, changes neither the outcome nor what is said. */
  lemma {:induction false} IdleRound(id: nat, received: nat, content: seq<byte>, a: seq<Turn>, idle: Turn, b: seq<Turn>)
    requires Foreign(id, idle)
    ensures AfterTurns(id, received, content, a + [idle] + b) == AfterTurns(id, received, content, a + b)
    ensures RepliesOver(id, received, content, a + [idle] + b) == RepliesOver(id, received, content, a + b)
    decreases |a|
  {
    var with := a + [idle] + b;
    if a == [] {
      assert with[0] == idle && with[1..] == b && a + b == b;
      IdleChangesNothing(id, received, content, idle);
    } else {
      assert with[0] == a[0] && with[1..] == a[1..] + [idle] + b && (a + b)[1..] == a[1..] + b;
      var next := OnTurn(id, received, content, a[0]);
      if next.Receiving? {
        IdleRound(id, next.received, next.content, a[1..], idle, b);
      }
    }
  }

  /** The rounds that matter. */
  function Telling(id: nat, turns: seq<Turn>): seq<Turn> {
    if turns == [] then []
    else (if Foreign(id, turns[0]) then [] else [turns[0]]) + Telling(id, turns[1..])
  }

  /** All rounds with nothing to do can be left out at once. */
  lemma {:induction false} OnlyTellingRoundsCount(id: nat, received: nat, content: seq<byte>, turns: seq<Turn>)
    ensures AfterTurns(id, received, content, turns) == AfterTurns(id, received, content, Telling(id, turns))
    ensures RepliesOver(id, received, content, turns) == RepliesOver(id, received, content, Telling(id, turns))
    decreases |turns|
  {
    if turns == [] {
    } else if Foreign(id, turns[0]) {
      IdleChangesNothing(id, received, content, turns[0]);
      OnlyTellingRoundsCount(id, received, content, turns[1..]);
      assert [] + Telling(id, turns[1..]) == Telling(id, turns[1..]);
    } else {
      var next, rest := OnTurn(id, received, content, turns[0]), Telling(id, turns[1..]);
      assert ([turns[0]] + rest)[1..] == rest;
      if next.Receiving? {
        OnlyTellingRoundsCount(id, next.received, next.content, turns[1..]);
      }
    }
  }

  /** A receiver that starts at the end of the residue only ever adds behind it. */
  lemma {:induction false} LoopOnlyAppends(id: nat, content: seq<byte>, turns: seq<Turn>)
    ensures var r := AfterTurns(id, |content|, content, turns);
            content <= r.content && (!r.Broken? ==> r.received == |r.content|)
    decreases |turns|
  {
    if turns == [] {
    } else {
      var next := OnTurn(id, |content|, content, turns[0]);
      if turns[0].arm.Incoming? && turns[0].arm.msg.Chunk? {
        WriteAtEnd(content, turns[0].arm.msg.data);
      }
      if next.Receiving? {
        LoopOnlyAppends(id, next.content, turns[1..]);
      }
    }
  }

  /** Every chunk of this transfer carries the bytes the source has at its offset. */
  predicate FromSource(src: seq<byte>, id: nat, turn: Turn) {
    turn.arm.Incoming? && turn.arm.msg.Chunk? && turn.arm.msg.id == id ==>
      var msg := turn.arm.msg; msg.offset + |msg.data| <= |src| && msg.data == src[msg.offset..msg.offset + |msg.data|]
  }

  /** Whatever is repeated, reordered or lost: the residue is the old one continued by the source. */
  lemma {:induction false} LoopContinuesSource(src: seq<byte>, id: nat, base: seq<byte>, content: seq<byte>, turns: seq<Turn>)
    requires |base| <= |content| <= |src| && content == base + src[|base|..|content|]
    requires forall i | 0 <= i < |turns| :: FromSource(src, id, turns[i])
    ensures var r := AfterTurns(id, |content|, content, turns);
            |base| <= |r.content| <= |src| && r.content == base + src[|base|..|r.content|]
    decreases |turns|
  {
    if turns == [] {
    } else {
      var next := OnTurn(id, |content|, content, turns[0]);
      TurnContinuesSource(src, id, base, content, turns[0]);
      if next.Receiving? {
        LoopContinuesSource(src, id, base, next.content, turns[1..]);
      }
    }
  }

  lemma TurnContinuesSource(src: seq<byte>, id: nat, base: seq<byte>, content: seq<byte>, turn: Turn)
    requires |base| <= |content| <= |src| && content == base + src[|base|..|content|] && FromSource(src, id, turn)
    ensures var r := OnTurn(id, |content|, content, turn);
            |base| <= |r.content| <= |src| && r.content == base + src[|base|..|r.content|] && (r.Receiving? ==> r.received == |r.content|)
  {
    if turn.arm.Incoming? && turn.arm.msg.Chunk? && turn.arm.msg.id == id && turn.arm.msg.offset == |content| {
      var data := turn.arm.msg.data;
      WriteAtEnd(content, data);
      assert src[|base|..|content|] + data == src[|base|..|content| + |data|];
      assert content + data == base + (src[|base|..|content|] + data);
    }
  }

  /** The turns running out is a lost connection. */
  function LoopReturns(end: Reception): Result {
    match end
    case AllArrived(received, _) => Ok(received)
    case Broken(error, _) => Err(error)
    case Receiving(_, _) => Err(Lost)
  }

  lemma LoopReturnsIs(end: Reception)
    ensures forall n: nat :: LoopReturns(end) == Ok(n) <==> end.AllArrived? && end.received == n
    ensures forall e :: LoopReturns(end) == Err(e) <==> (end.Broken? && end.error == e) || (end.Receiving? && e == Lost)
  {
  }

  /** One round of the loop; `end` is set when it is the last. */
  method TakeTurn(disk: Disk, partial: Path, id: nat, received: nat, turn: Turn)
    returns (end: Option<Result>, more: nat, replies: seq<Msg>)
    requires partial in disk.files
    modifies disk
    ensures var next := OnTurn(id, received, old(disk.files)[partial], turn);
            && disk.files == old(disk.files)[partial := next.content]
            && (if next.Receiving? then end == None && more == next.received else end == Some(LoopReturns(next)))
    ensures replies == TurnReplies(id, turn)
  {
    assert disk.files == disk.files[partial := disk.files[partial]];
    if turn.cancelled {
      return Some(Err(LocalCancel)), received, [Cancel(id, ReceiverCancelled)];
    }
    match turn.arm {
      case Incoming(Chunk(cid, offset, data)) =>
        if cid == id {
          if offset != received {
            if offset < received {
              return None, received, [];
            }
            return Some(Err(OffsetGap)), received, [];
          }
          disk.WriteChunk(partial, data, offset);
          return None, received + |data|, [];
        }
      case Incoming(Complete(_)) =>
        return Some(Ok(received)), received, [];
      case Incoming(Cancel(_, reason)) =>
        return Some(Err(PeerCancel(reason))), received, [Cancel(id, Ack)];
      case Incoming(_) =>
      case ConnError =>
        return Some(Err(Lost)), received, [];
      case Tick(cancelled) =>
        if cancelled {
          return Some(Err(LocalCancel)), received, [Cancel(id, ReceiverCancelled)];
        }
    }
    return None, received, [];
  }

  /** What has been said and what is still to come, one round later. */
  lemma NextTurn(id: nat, received: nat, content: seq<byte>, turns: seq<Turn>, k: nat, said: seq<Msg>)
    requires k < |turns|
    ensures var next := OnTurn(id, received, content, turns[k]);
            && AfterTurns(id, received, content, turns[k..])
               == (if next.Receiving? then AfterTurns(id, next.received, next.content, turns[k + 1..]) else next)
            && said + RepliesOver(id, received, content, turns[k..])
               == (said + TurnReplies(id, turns[k])) + if next.Receiving? then RepliesOver(id, next.received, next.content, turns[k + 1..]) else []
  {
    assert turns[k..][0] == turns[k] && turns[k..][1..] == turns[k + 1..];
  }

  method ReceiveLoop(disk: Disk, partial: Path, id: nat, from: nat, turns: seq<Turn>) returns (result: Result, replies: seq<Msg>)
    requires partial in disk.files
    modifies disk
    ensures var end := AfterTurns(id, from, old(disk.files)[partial], turns);
            result == LoopReturns(end) && disk.files == old(disk.files)[partial := end.content]
    ensures replies == RepliesOver(id, from, old(disk.files)[partial], turns)
  {
    var received: nat := from;
    ghost var files, content := disk.files, disk.files[partial];
    ghost var end, said := AfterTurns(id, from, content, turns), RepliesOver(id, from, content, turns);
    assert turns[0..] == turns && files == files[partial := content];
    replies := [];
    for k := 0 to |turns|
      invariant partial in disk.files && disk.files[partial] == content && disk.files == files[partial := content]
      invariant end == AfterTurns(id, received, content, turns[k..])
      invariant said == replies + RepliesOver(id, received, content, turns[k..])
    {
      NextTurn(id, received, content, turns, k, replies);
      var last, more, answer := TakeTurn(disk, partial, id, received, turns[k]);
      content := disk.files[partial];
      replies := replies + answer;
      if last.Some? {
        return last.value, replies;
      }
      received := more;
    }
    return Err(Lost), replies;
  }

  // ---------- One receive ----------

  /** The disk and the offset with which the loop starts. */
  function Started(files: Files, size: nat, plan: Plan, save: Path): (Files, nat) {
    var partial := PartialFor(save);
    if partial == plan.partial then (Opened(files, partial), plan.offset)
    else (Opened(Validated(files, partial, size), partial), LengthOf(Validated(files, partial, size), partial))
  }

  function StartedFiles(files: Files, size: nat, plan: Plan, save: Path): (f: Files)
    ensures PartialFor(save) in f
  {
    Started(files, size, plan, save).0
  }

  /** Whatever was planned for another path, the loop starts at the end of the residue beside the save path, and only that is touched. */
  lemma StartsAtResidueEnd(files: Files, size: nat, plan: Plan, save: Path)
    requires plan.partial == PartialFor(save) ==> plan.offset == LengthOf(files, PartialFor(save)) <= size
    ensures var (after, offset) := Started(files, size, plan, save);
            && PartialFor(save) in after && after == files[PartialFor(save) := after[PartialFor(save)]]
            && offset == |after[PartialFor(save)]| <= size
            && (PartialFor(save) in files && |files[PartialFor(save)]| <= size ==> after[PartialFor(save)] == files[PartialFor(save)])
  {
  }

  function LoopResult(files: Files, offer: Offer, plan: Plan, save: Path, turns: seq<Turn>): Reception {
    AfterTurns(offer.id, Started(files, offer.size, plan, save).1, StartedFiles(files, offer.size, plan, save)[PartialFor(save)], turns)
  }

  /** Check, answer and rename. */
  function Settled(hash: Hasher, files: Files, offer: Offer, save: Path, end: Reception): (Result, Files) {
    var partial := PartialFor(save);
    var written := files[partial := end.content];
    if !end.AllArrived? then (LoopReturns(end), written)
    else if hash(end.content) != offer.hash then (Err(VerifyFailed), written)
    else (Ok(end.received), Finalized(written, partial, save))
  }

  function Answers(hash: Hasher, offer: Offer, end: Reception): seq<Msg> {
    if end.AllArrived? then [Verify(offer.id, hash(end.content) == offer.hash)] else []
  }

  method ReceiveQuic(disk: Disk, hash: Hasher, offer: Offer, plan: Plan, save: Path, turns: seq<Turn>)
    returns (result: Result, replies: seq<Msg>)
    modifies disk
    ensures var end := LoopResult(old(disk.files), offer, plan, save, turns);
            && (result, disk.files) == Settled(hash, StartedFiles(old(disk.files), offer.size, plan, save), offer, save, end)
            && replies == RepliesOver(offer.id, Started(old(disk.files), offer.size, plan, save).1,
                            StartedFiles(old(disk.files), offer.size, plan, save)[PartialFor(save)], turns) + Answers(hash, offer, end)
  {
    var partial := PartialFor(save);
    var received: nat := plan.offset;
    if partial != plan.partial {
      received := disk.ValidateResume(partial, offer.size);
    }
    disk.OpenPartial(partial);
    var loop;
    loop, replies := ReceiveLoop(disk, partial, offer.id, received, turns);
    if loop.Err? {
      return loop, replies;
    }
    var ok := hash(disk.files[partial]) == offer.hash;
    replies := replies + [Verify(offer.id, ok)];
    if !ok {
      return Err(VerifyFailed), replies;
    }
    var renamed := disk.Finalize(partial, save);
    return loop, replies;
  }

  // ---------- Planning and clean-up ----------

  method PlanReceive(disk: Disk, size: nat, save: Path) returns (plan: Plan)
    modifies disk
    ensures disk.files == Validated(old(disk.files), PartialFor(save), size)
    ensures plan == Plan(LengthOf(disk.files, PartialFor(save)), PartialFor(save)) && plan.offset <= size
  {
    var offset := disk.ValidateResume(PartialFor(save), size);
    return Plan(offset, PartialFor(save));
  }

  function Cleaned(files: Files, result: Result, save: Path): Files {
    if result.Err? && Transfer.DeletesResidue(result.error) then files - {PartialFor(save)} else files
  }

  function StatusOf(result: Result): Transfer.Status {
    Transfer.ReceiveStatus(if result.Ok? then None else Some(result.error))
  }

  /** Status and fate of the residue by cause. */
  lemma EndsByCause(files: Files, result: Result, save: Path)
    ensures StatusOf(result) == Transfer.Completed <==> result.Ok?
    ensures StatusOf(result) == Transfer.Paused <==> result == Err(PeerCancel(SenderPaused))
    ensures StatusOf(result) == Transfer.Cancelled <==> result in {Err(LocalCancel), Err(PeerCancel(Ack)), Err(PeerCancel(ReceiverCancelled))}
    ensures StatusOf(result) == Transfer.Failed <==> result in {Err(OffsetGap), Err(VerifyFailed), Err(Lost), Err(NothingToRename)}
    ensures Cleaned(files, result, save)
         == if StatusOf(result) == Transfer.Cancelled || result == Err(VerifyFailed) then files - {PartialFor(save)} else files
  {
  }

  /** The residue stays for a pause or a lost connection, and goes after a cancel or a failed check. */
  method FinishReceive(disk: Disk, result: Result, save: Path) returns (status: Transfer.Status)
    modifies disk
    ensures disk.files == Cleaned(old(disk.files), result, save) && status == StatusOf(result)
  {
    if result.Ok? {
      return Transfer.Completed;
    }
    if result.error == PeerCancel(SenderPaused) {
      return Transfer.Paused;
    }
    var cancelled := result.error.LocalCancel? || result.error.PeerCancel?;
    status := if cancelled then Transfer.Cancelled else Transfer.Failed;
    if cancelled || result.error.VerifyFailed? {
      if PartialFor(save) in disk.files {
        disk.files := disk.files - {PartialFor(save)};
      }
    }
  }

  // ---------- Choosing the path ----------

  method FindDuplicate(disk: Disk, hash: Hasher, dir: string, offer: Offer) returns (existing: Option<Path>)
    ensures existing.Some? <==>
              && Path(dir, offer.name) in disk.files && PartialFor(Path(dir, offer.name)) !in disk.files
              && |disk.files[Path(dir, offer.name)]| == offer.size && hash(disk.files[Path(dir, offer.name)]) == offer.hash
    ensures existing.Some? ==> existing.value == Path(dir, offer.name)
  {
    var target := Path(dir, offer.name);
    if target !in disk.files {
      return None;
    }
    if PartialFor(target) in disk.files {
      return None;
    }
    if |disk.files[target]| != offer.size {
      return None;
    }
    return if hash(disk.files[target]) == offer.hash then Some(target) else None;
  }

  /** The chosen path is kept when it is free, when a residue lies beside it, or when it already holds the offered content. */
  predicate KeepsChoice(files: Files, hash: Hasher, path: Path, offer: Offer) {
    path !in files || PartialFor(path) in files || hash(files[path]) == offer.hash
  }

  ghost predicate Resolved(files: Files, hash: Hasher, path: Path, offer: Offer, save: Path) {
    if KeepsChoice(files, hash, path, offer) then save == path else FreePath(files, path.dir, path.name, save)
  }

  method ResolveConflict(disk: Disk, hash: Hasher, path: Path, offer: Offer) returns (save: Path)
    ensures Resolved(disk.files, hash, path, offer, save)
    ensures save == path <==> path !in disk.files || PartialFor(path) in disk.files || hash(disk.files[path]) == offer.hash
    ensures save != path ==> save !in disk.files && save.dir == path.dir
  {
    if path !in disk.files || PartialFor(path) in disk.files {
      return path;
    }
    if hash(disk.files[path]) == offer.hash {
      return path;
    }
    save := ResolveSavePath(disk.files, path.dir, path.name);
  }

  // ---------- A whole offer ----------

  datatype Decision = AutoAccept | UserAccepts(path: Path) | NotAccepted

  datatype Handling =
    | Filtered
    | InstantSent(existing: Path)
    | Declined(default: Path)
    | Received(default: Path, save: Path, result: Result, status: Transfer.Status)

  function PlanFor(files: Files, save: Path): Plan {
    Plan(LengthOf(files, PartialFor(save)), PartialFor(save))
  }

  /** Plan, receive and clean up at `save`. */
  function Executed(hash: Hasher, files: Files, offer: Offer, save: Path, turns: seq<Turn>): (Result, Files) {
    var planned := Validated(files, PartialFor(save), offer.size);
    var plan := PlanFor(planned, save);
    var (result, settled) := Settled(hash, StartedFiles(planned, offer.size, plan, save), offer, save, LoopResult(planned, offer, plan, save, turns));
    (result, Cleaned(settled, result, save))
  }

  /** Everything said to the sender: where it is to continue, answers during the loop, the verdict. */
  function Conversation(hash: Hasher, files: Files, offer: Offer, save: Path, turns: seq<Turn>): seq<Msg> {
    var planned := Validated(files, PartialFor(save), offer.size);
    var plan := PlanFor(planned, save);
    [Accept(offer.id, plan.offset)]
    + (RepliesOver(offer.id, plan.offset, StartedFiles(planned, offer.size, plan, save)[PartialFor(save)], turns)
       + Answers(hash, offer, LoopResult(planned, offer, plan, save, turns)))
  }

  method Execute(disk: Disk, hash: Hasher, offer: Offer, save: Path, turns: seq<Turn>)
    returns (result: Result, status: Transfer.Status, replies: seq<Msg>)
    modifies disk
    ensures (result, disk.files) == Executed(hash, old(disk.files), offer, save, turns) && status == StatusOf(result)
    ensures replies == Conversation(hash, old(disk.files), offer, save, turns)
  {
    var plan := PlanReceive(disk, offer.size, save);
    var more;
    result, more := ReceiveQuic(disk, hash, offer, plan, save, turns);
    replies := [Accept(offer.id, plan.offset)] + more;
    status := FinishReceive(disk, result, save);
  }

  /** What happened to the disk when the transfer was received at `save`. */
  ghost predicate Carried(hash: Hasher, planned: Files, offer: Offer, turns: seq<Turn>, handling: Handling, replies: seq<Msg>, after: Files)
    requires handling.Received?
  {
    && (handling.result, after) == Executed(hash, planned, offer, handling.save, turns)
    && handling.status == StatusOf(handling.result)
    && replies == Conversation(hash, planned, offer, handling.save, turns)
  }

  /** The three ways an offer that is not turned away at once can go. */
  ghost predicate Decided(hash: Hasher, files: Files, dir: string, offer: Offer, decision: Decision, turns: seq<Turn>,
                          handling: Handling, replies: seq<Msg>, after: Files)
  {
    && !handling.Filtered? && !handling.InstantSent? && FreePath(files, dir, offer.name, handling.default)
    && var planned := Validated(files, PartialFor(handling.default), offer.size);
       match decision {
         case NotAccepted => handling.Declined? && replies == [Reject(offer.id)] && after == planned
         case AutoAccept =>
           handling.Received? && handling.save == handling.default && Carried(hash, planned, offer, turns, handling, replies, after)
         case UserAccepts(path) =>
           handling.Received? && Resolved(planned, hash, path, offer, handling.save) && Carried(hash, planned, offer, turns, handling, replies, after)
       }
  }

  lemma {:induction false} LoopSaysNoVerdict(id: nat, received: nat, content: seq<byte>, turns: seq<Turn>)
    ensures forall msg | msg in RepliesOver(id, received, content, turns) :: msg.Cancel?
    ensures var end := AfterTurns(id, received, content, turns); end.Broken? ==> !end.error.VerifyFailed? && !end.error.NothingToRename?
    decreases |turns|
  {
    if turns == [] {
    } else {
      var next := OnTurn(id, received, content, turns[0]);
      if next.Receiving? {
        LoopSaysNoVerdict(id, next.received, next.content, turns[1..]);
      }
    }
  }

  /**
   The conversation begins with the accept of the residue's length; a positive verdict is part of it exactly when the receive
   succeeds, a negative one exactly when the check failed; before it only cancels are said.
   */
  lemma ConversationTells(hash: Hasher, files: Files, offer: Offer, save: Path, turns: seq<Turn>)
    ensures var replies := Conversation(hash, files, offer, save, turns);
            var (result, after) := Executed(hash, files, offer, save, turns);
            && replies[0] == Accept(offer.id, |Resumed(files, PartialFor(save), offer.size)|)
            && (Verify(offer.id, true) in replies <==> result.Ok?)
            && (Verify(offer.id, false) in replies <==> result == Err(VerifyFailed))
            && (forall k | 0 < k < |replies| :: replies[k].Cancel? || (replies[k].Verify? && k == |replies| - 1))
  {
    var planned := Validated(files, PartialFor(save), offer.size);
    var plan := PlanFor(planned, save);
    var said := RepliesOver(offer.id, plan.offset, StartedFiles(planned, offer.size, plan, save)[PartialFor(save)], turns);
    LoopSaysNoVerdict(offer.id, plan.offset, StartedFiles(planned, offer.size, plan, save)[PartialFor(save)], turns);
    assert forall k | 0 <= k < |said| :: said[k] in said;
    ghost var end := LoopResult(planned, offer, plan, save, turns);
    if end.AllArrived? {
      var replies := Conversation(hash, files, offer, save, turns);
      assert replies[|replies| - 1] == Verify(offer.id, hash(end.content) == offer.hash);
    }
  }

  /** A positive verdict is said only with content of the offered hash at the save path. */
  lemma VerdictMeansHeld(hash: Hasher, files: Files, offer: Offer, save: Path, turns: seq<Turn>)
    ensures Verify(offer.id, true) in Conversation(hash, files, offer, save, turns) ==>
              var after := Executed(hash, files, offer, save, turns).1; save in after && hash(after[save]) == offer.hash
  {
    var planned := Validated(files, PartialFor(save), offer.size);
    var plan := PlanFor(planned, save);
    LoopSaysNoVerdict(offer.id, plan.offset, StartedFiles(planned, offer.size, plan, save)[PartialFor(save)], turns);
    assert |PartialFor(save).name| == |save.name| + 8;
  }

  method HandleOffer(disk: Disk, hash: Hasher, dir: string, offer: Offer, allowed: bool, decision: Decision, turns: seq<Turn>)
    returns (handling: Handling, replies: seq<Msg>)
    modifies disk
    ensures handling.Filtered? <==> !allowed
    ensures handling.InstantSent? <==>
              && allowed && Path(dir, offer.name) in old(disk.files) && PartialFor(Path(dir, offer.name)) !in old(disk.files)
              && |old(disk.files)[Path(dir, offer.name)]| == offer.size && hash(old(disk.files)[Path(dir, offer.name)]) == offer.hash
    ensures handling.Filtered? ==> replies == [Reject(offer.id)] && disk.files == old(disk.files)
    ensures handling.InstantSent? ==>
              && handling == InstantSent(Path(dir, offer.name)) && disk.files == old(disk.files)
              && replies == [Accept(offer.id, offer.size), Verify(offer.id, true)]
    ensures !handling.Filtered? && !handling.InstantSent? ==>
              Decided(hash, old(disk.files), dir, offer, decision, turns, handling, replies, disk.files)
    ensures handling.Declined? <==> allowed && !handling.InstantSent? && decision == NotAccepted
    ensures handling.Declined? ==>
              replies == [Reject(offer.id)] && disk.files == Validated(old(disk.files), PartialFor(handling.default), offer.size)
    ensures handling.Received? ==> handling.status == StatusOf(handling.result) && |replies| > 0 && replies[0].Accept? && replies[0].id == offer.id
    ensures Verify(offer.id, true) in replies <==> handling.InstantSent? || (handling.Received? && handling.result.Ok?)
    ensures Verify(offer.id, true) in replies ==> exists p | p in disk.files :: hash(disk.files[p]) == offer.hash
  {
    if !allowed {
      return Filtered, [Reject(offer.id)];
    }
    var existing := FindDuplicate(disk, hash, dir, offer);
    if existing.Some? {
      return InstantSent(existing.value), [Accept(offer.id, offer.size), Verify(offer.id, true)];
    }
    var default := ResolveSavePath(disk.files, dir, offer.name);
    var plan := PlanReceive(disk, offer.size, default);
    var save := default;
    match decision {
      case NotAccepted =>
        return Declined(default), [Reject(offer.id)];
      case UserAccepts(path) =>
        save := ResolveConflict(disk, hash, path, offer);
      case AutoAccept =>
    }
    VerdictMeansHeld(hash, disk.files, offer, save, turns);
    ConversationTells(hash, disk.files, offer, save, turns);
    var result, status;
    result, status, replies := Execute(disk, hash, offer, save, turns);
    return Received(default, save, result, status), replies;
  }
}
