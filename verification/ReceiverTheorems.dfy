/**
 What a received offer does to the disk: nothing is lost except in one named case, the residue
 only grows, success means content of the offered hash, and the loop is the protocol's receiver.
 */
module ReceiverTheorems {
  import opened Bytes
  import opened Names
  import opened Disk
  import opened Messages
  import opened Receiver
  import opened Sender
  import Transfer
  import TransferOutcomes

  predicate Kept(before: Files, after: Files, q: Path) {
    q in before ==> q in after && after[q] == before[q]
  }

  lemma PartialDiffers(p: Path)
    ensures PartialFor(p) != p
  {
    assert |PartialFor(p).name| == |p.name| + 8;
  }

  /** Only the save path and the residue beside it can change. */
  lemma ExecuteLeavesOthers(hash: Hasher, files: Files, offer: Offer, save: Path, turns: seq<Turn>, q: Path)
    requires q != save && q != PartialFor(save)
    ensures var after := Executed(hash, files, offer, save, turns).1;
            (q in after <==> q in files) && Kept(files, after, q)
  {
  }

  /** The save path changes exactly on success, and then holds content of the offered hash and has no residue beside it. */
  lemma ExecuteFinal(hash: Hasher, files: Files, offer: Offer, save: Path, turns: seq<Turn>)
    ensures var (result, after) := Executed(hash, files, offer, save, turns);
            if result.Ok? then save in after && hash(after[save]) == offer.hash && PartialFor(save) !in after
            else (save in after <==> save in files) && Kept(files, after, save)
  {
    PartialDiffers(save);
  }

  /** A residue that survives is the planned one with bytes added behind; it goes exactly on success, after a cancel or a failed check. */
  lemma ResidueOnlyGrows(hash: Hasher, files: Files, offer: Offer, save: Path, turns: seq<Turn>)
    ensures var (result, after) := Executed(hash, files, offer, save, turns);
            var planned := Validated(files, PartialFor(save), offer.size);
            if result.Ok? || StatusOf(result) == Transfer.Cancelled || result == Err(VerifyFailed) then PartialFor(save) !in after
            else PartialFor(save) in after && (PartialFor(save) in planned ==> planned[PartialFor(save)] <= after[PartialFor(save)])
  {
    PartialDiffers(save);
    var partial := PartialFor(save);
    var planned := Validated(files, partial, offer.size);
    var plan := PlanFor(planned, save);
    LoopOnlyAppends(offer.id, StartedFiles(planned, offer.size, plan, save)[partial], turns);
  }

  /**
   Chunks of the source in any order and number, over any residue: what is left, or renamed, is the residue continued by
   the source.
   */
  lemma ResidueContinuesSource(hash: Hasher, src: seq<byte>, files: Files, offer: Offer, save: Path, turns: seq<Turn>)
    requires offer.size == |src| && forall i | 0 <= i < |turns| :: FromSource(src, offer.id, turns[i])
    ensures var (result, after) := Executed(hash, files, offer, save, turns);
            var base := Resumed(files, PartialFor(save), offer.size);
            var place := if result.Ok? then save else PartialFor(save);
            (result.Ok? || result in {Err(Lost), Err(OffsetGap), Err(PeerCancel(SenderPaused))}) ==>
              place in after && |base| <= |after[place]| <= |src| && after[place] == base + src[|base|..|after[place]|]
  {
    PartialDiffers(save);
    var base := Resumed(files, PartialFor(save), offer.size);
    assert base == base + src[|base|..|base|];
    LoopContinuesSource(src, offer.id, base, base, turns);
  }

  // ---------- No lost content ----------

  predicate Loses(hash: Hasher, offer: Offer, before: Files, after: Files, residues: set<Path>, q: Path) {
    q in before && q !in residues && hash(before[q]) != offer.hash && !Kept(before, after, q)
  }

  /** At the proposed path nothing is lost, with or without residues. */
  lemma AutomaticLosesNothing(hash: Hasher, files: Files, dir: string, offer: Offer, turns: seq<Turn>, handling: Handling, replies: seq<Msg>, after: Files, q: Path)
    requires Decided(hash, files, dir, offer, AutoAccept, turns, handling, replies, after)
    ensures !Loses(hash, offer, files, after, {PartialFor(handling.save)}, q)
  {
    var planned := Validated(files, PartialFor(handling.default), offer.size);
    if q != handling.save && q != PartialFor(handling.save) {
      ExecuteLeavesOthers(hash, planned, offer, handling.save, turns, q);
    }
  }

  /** At a path of the user's choice without a residue beside it nothing is lost, whatever arrives. */
  lemma NothingLostWithoutResidue(hash: Hasher, files: Files, dir: string, offer: Offer, path: Path, turns: seq<Turn>, handling: Handling,
                                  replies: seq<Msg>, after: Files, q: Path)
    requires Decided(hash, files, dir, offer, UserAccepts(path), turns, handling, replies, after)
    requires PartialFor(path) !in Validated(files, PartialFor(handling.default), offer.size)
    ensures !Loses(hash, offer, files, after, Residues(handling), q)
  {
    LosesInRun(hash, files, dir, offer, path, turns, handling, replies, after);
  }

  function Residues(handling: Handling): set<Path>
    requires handling.Received?
  {
    {PartialFor(handling.default), PartialFor(handling.save)}
  }

  /** In one run a file of other content is lost in exactly one case: it lies at the chosen path, a residue lies beside it, and the transfer succeeds. */
  lemma LosesInRun(hash: Hasher, files: Files, dir: string, offer: Offer, path: Path, turns: seq<Turn>, handling: Handling, replies: seq<Msg>, after: Files)
    requires Decided(hash, files, dir, offer, UserAccepts(path), turns, handling, replies, after)
    ensures (exists q :: Loses(hash, offer, files, after, Residues(handling), q))
       <==> path in files && path != PartialFor(handling.default) && hash(files[path]) != offer.hash && handling.result.Ok?
            && PartialFor(path) in Validated(files, PartialFor(handling.default), offer.size)
  {
    var save := handling.save;
    var planned := Validated(files, PartialFor(handling.default), offer.size);
    ExecuteFinal(hash, planned, offer, save, turns);
    PartialDiffers(save);
    if q :| Loses(hash, offer, files, after, Residues(handling), q) {
      if q != save {
        ExecuteLeavesOthers(hash, planned, offer, save, turns, q);
      }
      assert q == save;
      assert q in planned && planned[q] == files[q];
    }
    if path in files && path != PartialFor(handling.default) && hash(files[path]) != offer.hash && handling.result.Ok? && PartialFor(path) in planned {
      assert save == path;
      assert Loses(hash, offer, files, after, Residues(handling), path);
    }
  }

  /** Continuing `base` can give content of hash `h`. */
  ghost predicate Completable(hash: Hasher, base: seq<byte>, h: nat) {
    exists more :: hash(base + more) == h
  }

  /** Some sequence of arrivals makes the receive succeed exactly when the residue can be continued to the offered hash. */
  lemma SucceedsExactly(hash: Hasher, files: Files, offer: Offer, save: Path)
    ensures (exists turns :: Executed(hash, files, offer, save, turns).0.Ok?) <==> Completable(hash, Resumed(files, PartialFor(save), offer.size), offer.hash)
  {
    var base := Resumed(files, PartialFor(save), offer.size);
    if turns :| Executed(hash, files, offer, save, turns).0.Ok? {
      LoopOnlyAppends(offer.id, base, turns);
      var content := AfterTurns(offer.id, |base|, base, turns).content;
      assert content == base + content[|base|..];
    }
    if more :| hash(base + more) == offer.hash {
      ArrivesWhole(offer.id, base, more);
      ExecutedFromBase(hash, files, offer, save, Remainder(offer.id, base, more), |base + more|, base + more);
    }
  }

  /** All the rest in one chunk, and completion. */
  function Remainder(id: nat, base: seq<byte>, more: seq<byte>): seq<Turn> {
    [Turn(false, Incoming(Chunk(id, |base|, more)))] + [Turn(false, Incoming(Messages.Complete(id)))]
  }

  lemma ArrivesWhole(id: nat, base: seq<byte>, more: seq<byte>)
    ensures AfterTurns(id, |base|, base, Remainder(id, base, more)) == AllArrived(|base + more|, base + more)
    ensures RepliesOver(id, |base|, base, Remainder(id, base, more)) == []
  {
    var turns := Remainder(id, base, more);
    WriteAtEnd(base, more);
    assert turns[1..] == [Turn(false, Incoming(Messages.Complete(id)))];
    assert OnTurn(id, |base|, base, turns[0]) == Receiving(|base + more|, base + more);
    assert AfterTurns(id, |base + more|, base + more, turns[1..]) == AllArrived(|base + more|, base + more);
    assert RepliesOver(id, |base + more|, base + more, turns[1..]) == [];
  }

  /** Some conversation after the user chose `path` loses a file of other content. */
  ghost predicate CanLose(hash: Hasher, files: Files, dir: string, offer: Offer, path: Path) {
    exists turns, handling, replies, after, q ::
      Decided(hash, files, dir, offer, UserAccepts(path), turns, handling, replies, after) && Loses(hash, offer, files, after, Residues(handling), q)
  }

  /**
   A file of other content lies at the chosen path, and beside it, after planning at the proposed path, a residue that can
   be continued to the offered hash.
   */
  ghost predicate AtRisk(hash: Hasher, files: Files, offer: Offer, default: Path, path: Path) {
    var planned := Validated(files, PartialFor(default), offer.size);
    && path in files && path != PartialFor(default) && hash(files[path]) != offer.hash && PartialFor(path) in planned
    && Completable(hash, Resumed(planned, PartialFor(path), offer.size), offer.hash)
  }

  lemma RiskLoses(hash: Hasher, files: Files, dir: string, offer: Offer, default: Path, path: Path)
    requires FreePath(files, dir, offer.name, default) && AtRisk(hash, files, offer, default, path)
    ensures CanLose(hash, files, dir, offer, path)
  {
    var planned := Validated(files, PartialFor(default), offer.size);
    SucceedsExactly(hash, planned, offer, path);
    var turns :| Executed(hash, planned, offer, path, turns).0.Ok?;
    var (result, after) := Executed(hash, planned, offer, path, turns);
    var handling, replies := Received(default, path, result, StatusOf(result)), Conversation(hash, planned, offer, path, turns);
    assert Decided(hash, files, dir, offer, UserAccepts(path), turns, handling, replies, after);
    LosesInRun(hash, files, dir, offer, path, turns, handling, replies, after);
    var q :| Loses(hash, offer, files, after, Residues(handling), q);
  }

  /** Before anything arrives it is settled whether a file of other content can be lost at the user's path. */
  lemma LosesExactly(hash: Hasher, files: Files, dir: string, offer: Offer, default: Path, path: Path)
    requires FreePath(files, dir, offer.name, default)
    ensures CanLose(hash, files, dir, offer, path) <==> AtRisk(hash, files, offer, default, path)
  {
    if CanLose(hash, files, dir, offer, path) {
      var turns, handling, replies, after, q :|
        Decided(hash, files, dir, offer, UserAccepts(path), turns, handling, replies, after) && Loses(hash, offer, files, after, Residues(handling), q);
      FreePathUnique(files, dir, offer.name, default, handling.default);
      LosesInRun(hash, files, dir, offer, path, turns, handling, replies, after);
      var planned := Validated(files, PartialFor(default), offer.size);
      assert Executed(hash, planned, offer, path, turns).0.Ok?;
      SucceedsExactly(hash, planned, offer, path);
    }
    if AtRisk(hash, files, offer, default, path) {
      RiskLoses(hash, files, dir, offer, default, path);
    }
  }

  /** The case does occur: a complete residue beside a file of other content. */
  lemma ResidueCostsAFile(hash: Hasher, p: Path, content: seq<byte>, other: seq<byte>, id: nat)
    requires hash(other) != hash(content)
    ensures var files: Files := map[p := other, PartialFor(p) := content];
            var offer := Offer(id, p.name, |content|, hash(content));
            && KeepsChoice(files, hash, p, offer)
            && Executed(hash, files, offer, p, [Turn(false, Incoming(Complete(id)))]) == (Ok(|content|), map[p := content])
  {
    PartialDiffers(p);
    var files: Files := map[p := other, PartialFor(p) := content];
    var offer := Offer(id, p.name, |content|, hash(content));
    var turn := Turn(false, Incoming(Complete(id)));
    assert OnTurn(id, |content|, content, turn) == AllArrived(|content|, content);
    assert AfterTurns(id, |content|, content, [turn]) == AllArrived(|content|, content);
    assert files[PartialFor(p) := content] == files;
    assert Finalized(files, PartialFor(p), p) == map[p := content];
  }

  // ---------- The loop is the protocol's receiver ----------

  function Deliveries(msgs: seq<Msg>): seq<Turn> {
    seq(|msgs|, i requires 0 <= i < |msgs| => Turn(false, Incoming(msgs[i])))
  }

  function ReceiverAt(end: Reception): Transfer.Receiver {
    match end
    case Receiving(received, _) => Transfer.InLoop(received)
    case AllArrived(_, _) => Transfer.Checking
    case Broken(error, _) => Transfer.Ended(Some(error))
  }

  lemma TakeIsTurn(c: Transfer.Config, s: Transfer.State)
    requires s.rcv.InLoop? && s.partial.Some? && s.toR != []
    ensures var t := Transfer.DoTake(s);
            var end := OnTurn(s.id, s.rcv.received, s.partial.value, Turn(false, Incoming(s.toR[0])));
            t.rcv == ReceiverAt(end) && t.partial == Some(end.content) && t.id == s.id && t.toR == s.toR[1..]
  {
  }

  /** Taking every queued message in the state machine is the loop over the same messages. */
  lemma {:induction false} MachineRunsLoop(c: Transfer.Config, s: Transfer.State, n: nat)
    requires s.rcv.InLoop? && s.partial.Some? && n == |s.toR|
    ensures var t := Transfer.Run(c, s, TransferOutcomes.Takes(n));
            var end := AfterTurns(s.id, s.rcv.received, s.partial.value, Deliveries(s.toR));
            t.rcv == ReceiverAt(end) && t.partial == Some(end.content)
    decreases n
  {
    if n == 0 {
    } else {
      TakeIsTurn(c, s);
      var turns := Deliveries(s.toR);
      assert turns[0] == Turn(false, Incoming(s.toR[0])) && turns[1..] == Deliveries(s.toR[1..]);
      assert TransferOutcomes.Takes(n)[1..] == TransferOutcomes.Takes(n - 1);
      var s' := Transfer.DoTake(s);
      if s'.rcv.InLoop? {
        MachineRunsLoop(c, s', n - 1);
      } else {
        TransferOutcomes.TakesOutside(c, s', n - 1);
      }
    }
  }

  // ---------- Both ends together ----------

  /** `base` continued by the source up to `have`. */
  function Continued(src: seq<byte>, base: seq<byte>, have: nat): seq<byte>
    requires |base| <= have <= |src|
  {
    base + src[|base|..have]
  }

  lemma TileArrives(src: seq<byte>, id: nat, limit: nat, chunks: seq<Msg>, base: seq<byte>, have: nat)
    requires |base| <= have && Tiles(src, id, limit, chunks, have, |src|) && chunks != []
    ensures have + |chunks[0].data| <= |src|
    ensures OnTurn(id, have, Continued(src, base, have), Turn(false, Incoming(chunks[0])))
         == Receiving(have + |chunks[0].data|, Continued(src, base, have + |chunks[0].data|))
  {
    var data := chunks[0].data;
    WriteAtEnd(Continued(src, base, have), data);
    assert src[|base|..have] + data == src[|base|..have + |data|];
    assert base + src[|base|..have] + data == base + (src[|base|..have] + data);
  }

  lemma DeliveriesStep(msgs: seq<Msg>)
    requires msgs != []
    ensures Deliveries(msgs)[0] == Turn(false, Incoming(msgs[0])) && Deliveries(msgs)[1..] == Deliveries(msgs[1..])
  {
  }

  lemma {:induction false} TilesArrive(src: seq<byte>, id: nat, limit: nat, chunks: seq<Msg>, base: seq<byte>, have: nat)
    requires |base| <= have <= |src| && Tiles(src, id, limit, chunks, have, |src|)
    ensures AfterTurns(id, have, Continued(src, base, have), Deliveries(chunks + [Messages.Complete(id)]))
         == AllArrived(|src|, Continued(src, base, |src|))
    decreases |chunks|
  {
    var all := chunks + [Messages.Complete(id)];
    DeliveriesStep(all);
    if chunks == [] {
      assert all[0] == Messages.Complete(id);
    } else {
      assert all[0] == chunks[0] && all[1..] == chunks[1..] + [Messages.Complete(id)];
      TileArrives(src, id, limit, chunks, base, have);
      TilesArrive(src, id, limit, chunks[1..], base, have + |chunks[0].data|);
    }
  }

  /** The residue continued by the source. */
  function Whole(files: Files, save: Path, src: seq<byte>): seq<byte>
    requires |Resumed(files, PartialFor(save), |src|)| <= |src|
  {
    Resumed(files, PartialFor(save), |src|) + src[|Resumed(files, PartialFor(save), |src|)|..]
  }

  lemma LoopOfConversation(hash: Hasher, src: seq<byte>, files: Files, id: nat, name: string, save: Path, chunk: pos, sent: seq<Msg>)
    requires Sender.Complete(src, hash, id, name, chunk, |Resumed(files, PartialFor(save), |src|)|, sent)
    ensures var base := Resumed(files, PartialFor(save), |src|);
            && AfterTurns(id, |base|, base, Deliveries(sent[1..])) == AllArrived(|src|, Whole(files, save, src))
            && RepliesOver(id, |base|, base, Deliveries(sent[1..])) == []
  {
    var base := Resumed(files, PartialFor(save), |src|);
    var chunks := sent[1..|sent| - 1];
    assert sent[1..] == chunks + [Messages.Complete(id)];
    assert Continued(src, base, |base|) == base;
    assert Continued(src, base, |src|) == Whole(files, save, src);
    TilesArrive(src, id, chunk, chunks, base, |base|);
    TilesReplies(src, id, chunk, chunks, |base|, base);
  }

  /** The disk and what was said, once all of `whole` has arrived. */
  predicate Finished(hash: Hasher, files: Files, offer: Offer, save: Path, turns: seq<Turn>, received: nat, whole: seq<byte>) {
    var (result, after) := Executed(hash, files, offer, save, turns);
    && Conversation(hash, files, offer, save, turns)
       == [Accept(offer.id, |Resumed(files, PartialFor(save), offer.size)|), Verify(offer.id, hash(whole) == offer.hash)]
    && (if hash(whole) == offer.hash then result == Ok(received) && save in after && after[save] == whole else result == Err(VerifyFailed))
    && PartialFor(save) !in after
  }

  lemma ExecutedFromBase(hash: Hasher, files: Files, offer: Offer, save: Path, turns: seq<Turn>, received: nat, whole: seq<byte>)
    requires var base := Resumed(files, PartialFor(save), offer.size);
             AfterTurns(offer.id, |base|, base, turns) == AllArrived(received, whole) && RepliesOver(offer.id, |base|, base, turns) == []
    ensures Finished(hash, files, offer, save, turns, received, whole)
  {
    PartialDiffers(save);
  }

  /**
   A whole transfer: the sender's complete conversation from the offset the receiver answers with, delivered in order. The
   receiver ends with the residue continued by the source, in place when its hash is the offered one and gone when not.
   */
  lemma EndToEnd(hash: Hasher, src: seq<byte>, files: Files, id: nat, name: string, save: Path, chunk: pos, sent: seq<Msg>)
    requires Sender.Complete(src, hash, id, name, chunk, |Resumed(files, PartialFor(save), |src|)|, sent)
    ensures Finished(hash, files, Offer(id, name, |src|, hash(src)), save, Deliveries(sent[1..]), |src|, Whole(files, save, src))
  {
    LoopOfConversation(hash, src, files, id, name, save, chunk, sent);
    ExecutedFromBase(hash, files, Offer(id, name, |src|, hash(src)), save, Deliveries(sent[1..]), |src|, Whole(files, save, src));
  }

  /** The same with idle polls, messages of other kinds and chunks of other transfers anywhere between. */
  lemma EndToEndWithPauses(hash: Hasher, src: seq<byte>, files: Files, id: nat, name: string, save: Path, chunk: pos, sent: seq<Msg>, turns: seq<Turn>)
    requires Sender.Complete(src, hash, id, name, chunk, |Resumed(files, PartialFor(save), |src|)|, sent)
    requires Telling(id, turns) == Deliveries(sent[1..])
    ensures Finished(hash, files, Offer(id, name, |src|, hash(src)), save, turns, |src|, Whole(files, save, src))
  {
    var base := Resumed(files, PartialFor(save), |src|);
    LoopOfConversation(hash, src, files, id, name, save, chunk, sent);
    OnlyTellingRoundsCount(id, |base|, base, turns);
    ExecutedFromBase(hash, files, Offer(id, name, |src|, hash(src)), save, turns, |src|, Whole(files, save, src));
  }

  /** From no residue, or one that is a prefix, the source itself is put in place. */
  lemma EndToEndFromPrefix(hash: Hasher, src: seq<byte>, files: Files, id: nat, name: string, save: Path, chunk: pos, sent: seq<Msg>)
    requires Sender.Complete(src, hash, id, name, chunk, |Resumed(files, PartialFor(save), |src|)|, sent) && Resumed(files, PartialFor(save), |src|) <= src
    ensures var (result, after) := Executed(hash, files, Offer(id, name, |src|, hash(src)), save, Deliveries(sent[1..]));
            result == Ok(|src|) && save in after && after[save] == src
  {
    EndToEnd(hash, src, files, id, name, save, chunk, sent);
    assert Whole(files, save, src) == src;
  }

  /** During an undisturbed transfer the receiver says nothing. */
  lemma {:induction false} TilesReplies(src: seq<byte>, id: nat, limit: nat, chunks: seq<Msg>, have: nat, content: seq<byte>)
    requires Tiles(src, id, limit, chunks, have, |src|)
    ensures RepliesOver(id, have, content, Deliveries(chunks + [Messages.Complete(id)])) == []
    decreases |chunks|
  {
    var all := chunks + [Messages.Complete(id)];
    var turns := Deliveries(all);
    DeliveriesStep(all);
    if chunks == [] {
    } else {
      assert all[0] == chunks[0] && all[1..] == chunks[1..] + [Messages.Complete(id)];
      var next := OnTurn(id, have, content, turns[0]);
      TilesReplies(src, id, limit, chunks[1..], have + |chunks[0].data|, next.content);
    }
  }

  // ---------- Several receivers on one residue ----------

  /**
   Receive loops on the same residue at once, as when a transfer is sent again while an earlier receiver still waits on
   its dead connection: the residue, and how far each loop has counted.
   */
  datatype Loops = Loops(content: seq<byte>, received: seq<nat>)

  /** A loop opens the residue and starts at its end, or one of them meets a turn; a loop that ends only stops counting. */
  datatype Move = Opens | Meets(i: nat, id: nat, turn: Turn)

  function Moved(l: Loops, move: Move): Loops {
    match move
    case Opens => l.(received := l.received + [|l.content|])
    case Meets(i, id, turn) =>
      if i >= |l.received| then l
      else
        var r := OnTurn(id, l.received[i], l.content, turn);
        if r.Receiving? then Loops(r.content, l.received[i := r.received]) else l.(content := r.content)
  }

  function AllMoved(l: Loops, moves: seq<Move>): Loops
    decreases |moves|
  {
    if moves == [] then l else AllMoved(Moved(l, moves[0]), moves[1..])
  }

  predicate SourceMove(src: seq<byte>, move: Move) {
    move.Meets? ==> FromSource(src, move.id, move.turn)
  }

  /** The residue is a prefix of the source, and no loop has counted beyond it. */
  predicate Agreeing(src: seq<byte>, l: Loops) {
    l.content <= src && forall i | 0 <= i < |l.received| :: l.received[i] <= |l.content|
  }

  /** Writing the source over the source. */
  lemma SourceOverSource(src: seq<byte>, content: seq<byte>, offset: nat, data: seq<byte>)
    requires content <= src && offset <= |content| && offset + |data| <= |src| && data == src[offset..offset + |data|]
    ensures var r := WriteAt(content, offset, data); content <= r <= src && offset + |data| <= |r|
  {
    var r := WriteAt(content, offset, data);
    if data != [] {
      assert content[..offset] + data == src[..offset + |data|];
      assert forall k | 0 <= k < |r| :: r[k] == src[k];
    }
  }

  lemma MoveAgrees(src: seq<byte>, l: Loops, move: Move)
    requires Agreeing(src, l) && SourceMove(src, move)
    ensures Agreeing(src, Moved(l, move)) && l.content <= Moved(l, move).content
  {
    if move.Meets? && move.i < |l.received| && !move.turn.cancelled && move.turn.arm.Incoming? {
      var msg := move.turn.arm.msg;
      if msg.Chunk? && msg.id == move.id && msg.offset == l.received[move.i] {
        SourceOverSource(src, l.content, msg.offset, msg.data);
      }
    }
  }

  /** However many loops write at once: while nobody deletes it, the residue stays a prefix of the source and never shrinks. */
  lemma {:induction false} LoopsKeepPrefix(src: seq<byte>, l: Loops, moves: seq<Move>)
    requires Agreeing(src, l) && forall k | 0 <= k < |moves| :: SourceMove(src, moves[k])
    ensures Agreeing(src, AllMoved(l, moves)) && l.content <= AllMoved(l, moves).content
    decreases |moves|
  {
    if moves == [] {
    } else {
      MoveAgrees(src, l, moves[0]);
      LoopsKeepPrefix(src, Moved(l, moves[0]), moves[1..]);
    }
  }
}
