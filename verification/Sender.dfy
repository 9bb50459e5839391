/**
 The QUIC sender (sender.rs): wait for the answer, send the source from the agreed offset in
 blocks while listening, announce completion, wait for the verdict. What the sender meets is
 given as lists; a list that runs out stands for the timeout, or in the sending loop for a lost connection.
 */
module Sender {
  import opened Bytes
  import opened Messages
  import Transfer

  datatype Waited<T> = Answered(value: T) | Gave(end: Transfer.SendEnd)

  /** One round of the sending loop: the flag, how much the read returned, what was heard before the block went out. */
  datatype Round = Round(cancelled: bool, size: nat, heard: seq<Arm>, delivered: bool)

  // ---------- Waiting ----------

  function OnArm<T>(arm: Arm, answer: Answer<T>): Option<Waited<T>> {
    match arm
    case Tick(cancelled) => if cancelled then Some(Gave(Transfer.ByFlag)) else None
    case ConnError => Some(Gave(Transfer.ConnectionLost))
    case Incoming(_) =>
      match answer
      case Got(value) => Some(Answered(value))
      case Stop(rejected) => Some(Gave(Transfer.ByPeer(rejected)))
      case Ignore => None
  }

  function AcceptArm(id: nat, arm: Arm): Option<Waited<nat>> {
    OnArm(arm, if arm.Incoming? then OnAwaitAccept(id, arm.msg) else Ignore)
  }

  function VerifyArm(id: nat, arm: Arm): Option<Waited<bool>> {
    OnArm(arm, if arm.Incoming? then OnAwaitVerify(id, arm.msg) else Ignore)
  }

  /** The first arm that ends the wait decides it. */
  ghost predicate Decides<T>(step: Arm -> Option<Waited<T>>, arms: seq<Arm>, r: Waited<T>) {
    if exists i | 0 <= i < |arms| :: step(arms[i]).Some?
    then exists i | 0 <= i < |arms| :: step(arms[i]) == Some(r) && forall j | 0 <= j < i :: step(arms[j]).None?
    else r == Gave(Transfer.TimedOut)
  }

  ghost predicate AcceptIs(id: nat, arms: seq<Arm>, r: Waited<nat>) {
    Decides(arm => AcceptArm(id, arm), arms, r)
  }

  ghost predicate VerdictIs(id: nat, arms: seq<Arm>, r: Waited<bool>) {
    Decides(arm => VerifyArm(id, arm), arms, r)
  }

  method WaitForAccept(id: nat, arms: seq<Arm>) returns (r: Waited<nat>)
    ensures AcceptIs(id, arms, r) && r != Gave(Transfer.Sent)
  {
    for k := 0 to |arms|
      invariant forall j | 0 <= j < k :: AcceptArm(id, arms[j]).None?
    {
      match arms[k] {
        case Incoming(Accept(aid, offset)) =>
          if aid == id {
            return Answered(offset);
          }
        case Incoming(Reject(_)) =>
          return Gave(Transfer.ByPeer(true));
        case Incoming(Cancel(_, _)) =>
          return Gave(Transfer.ByPeer(false));
        case Incoming(_) =>
        case ConnError =>
          return Gave(Transfer.ConnectionLost);
        case Tick(cancelled) =>
          if cancelled {
            return Gave(Transfer.ByFlag);
          }
      }
    }
    return Gave(Transfer.TimedOut);
  }

  method WaitForVerify(id: nat, arms: seq<Arm>) returns (r: Waited<bool>)
    ensures VerdictIs(id, arms, r) && r != Gave(Transfer.Sent)
  {
    for k := 0 to |arms|
      invariant forall j | 0 <= j < k :: VerifyArm(id, arms[j]).None?
    {
      match arms[k] {
        case Incoming(Verify(vid, ok)) =>
          if vid == id {
            return Answered(ok);
          }
        case Incoming(Cancel(_, _)) =>
          return Gave(Transfer.ByPeer(false));
        case Incoming(_) =>
        case ConnError =>
          return Gave(Transfer.ConnectionLost);
        case Tick(cancelled) =>
          if cancelled {
            return Gave(Transfer.ByFlag);
          }
      }
    }
    return Gave(Transfer.TimedOut);
  }

  /** The outcome of a wait is determined. */
  lemma DecidesOnce<T>(step: Arm -> Option<Waited<T>>, arms: seq<Arm>, r: Waited<T>, r': Waited<T>)
    requires Decides(step, arms, r) && Decides(step, arms, r')
    ensures r == r'
  {
    if exists i | 0 <= i < |arms| :: step(arms[i]).Some? {
      var i :| 0 <= i < |arms| && step(arms[i]) == Some(r) && forall j | 0 <= j < i :: step(arms[j]).None?;
      var i' :| 0 <= i' < |arms| && step(arms[i']) == Some(r') && forall j | 0 <= j < i' :: step(arms[j]).None?;
      assert i == i';
    }
  }

  /** Nothing to read is the timeout; otherwise the first arm decides, or the rest does. */
  lemma DecidesInOrder<T>(step: Arm -> Option<Waited<T>>, arm: Arm, rest: seq<Arm>, r: Waited<T>)
    ensures Decides(step, [], r) <==> r == Gave(Transfer.TimedOut)
    ensures Decides(step, [arm] + rest, r) <==> if step(arm).Some? then r == step(arm).value else Decides(step, rest, r)
  {
    var arms := [arm] + rest;
    assert arms[0] == arm && forall i | 0 <= i < |rest| :: arms[i + 1] == rest[i];
    assert forall i | 0 < i < |arms| :: arms[i] == rest[i - 1];
  }

  /** What ends the wait for the answer: the accept of this transfer, a rejection or a cancel of any, the flag, the connection. */
  lemma AcceptArms(id: nat, arm: Arm)
    ensures forall offset: nat :: AcceptArm(id, arm) == Some(Answered(offset)) <==> arm == Incoming(Accept(id, offset))
    ensures forall e :: AcceptArm(id, arm) == Some(Gave(e)) <==>
              || (e == Transfer.ByFlag && arm == Tick(true)) || (e == Transfer.ConnectionLost && arm == ConnError)
              || (e == Transfer.ByPeer(true) && arm.Incoming? && arm.msg.Reject?)
              || (e == Transfer.ByPeer(false) && arm.Incoming? && arm.msg.Cancel?)
  {
    if arm.Incoming? {
      AcceptAnswers(id, arm.msg);
    }
  }

  /** What ends the wait for the verdict: that of this transfer, a cancel of any, the flag, the connection; a rejection does not. */
  lemma VerifyArms(id: nat, arm: Arm)
    ensures forall ok :: VerifyArm(id, arm) == Some(Answered(ok)) <==> arm == Incoming(Verify(id, ok))
    ensures forall e :: VerifyArm(id, arm) == Some(Gave(e)) <==>
              || (e == Transfer.ByFlag && arm == Tick(true)) || (e == Transfer.ConnectionLost && arm == ConnError)
              || (e == Transfer.ByPeer(false) && arm.Incoming? && arm.msg.Cancel?)
  {
    if arm.Incoming? {
      VerdictAnswers(id, arm.msg);
    }
  }

  // ---------- Sending ----------

  /** `chunks` carries exactly `src[from..to]`, in order and without gap, in blocks of at most `limit`. */
  predicate Tiles(src: seq<byte>, id: nat, limit: nat, chunks: seq<Msg>, from: nat, to: nat)
    decreases |chunks|
  {
    if chunks == [] then from == to <= |src|
    else
      var msg := chunks[0];
      && msg.Chunk? && msg.id == id && msg.offset == from && 0 < |msg.data| <= limit && from + |msg.data| <= |src|
      && msg.data == src[from..from + |msg.data|] && Tiles(src, id, limit, chunks[1..], from + |msg.data|, to)
  }

  /** While a block waits to go out, a cancel or a refusal stops the sender at once. */
  method Listen(heard: seq<Arm>) returns (stop: Option<Transfer.SendEnd>)
    ensures stop != Some(Transfer.Sent)
    ensures stop == None ==> forall i | 0 <= i < |heard| :: Harmless(heard[i])
    ensures stop != None ==> exists i | 0 <= i < |heard| :: !Harmless(heard[i]) && stop == StopFor(heard[i]) && forall j | 0 <= j < i :: Harmless(heard[j])
  {
    for k := 0 to |heard|
      invariant forall i | 0 <= i < k :: Harmless(heard[i])
    {
      match heard[k] {
        case Incoming(Cancel(_, _)) => return Some(Transfer.ByPeer(false));
        case Incoming(Reject(_)) => return Some(Transfer.ByPeer(true));
        case Incoming(_) =>
        case ConnError => return Some(Transfer.ConnectionLost);
        case Tick(_) =>
      }
    }
    return None;
  }

  predicate Harmless(arm: Arm) {
    !arm.ConnError? && (arm.Incoming? ==> OnWhileSending(arm.msg).Ignore?)
  }

  function StopFor(arm: Arm): Option<Transfer.SendEnd> {
    if arm.ConnError? then Some(Transfer.ConnectionLost)
    else if arm.Incoming? && OnWhileSending(arm.msg).Stop? then Some(Transfer.ByPeer(OnWhileSending(arm.msg).rejected))
    else None
  }

  /** What stops the sending loop, and with which end. */
  lemma ArmsThatStop(arm: Arm)
    ensures StopFor(arm) == Some(Transfer.ByPeer(true)) <==> arm.Incoming? && arm.msg.Reject?
    ensures StopFor(arm) == Some(Transfer.ByPeer(false)) <==> arm.Incoming? && arm.msg.Cancel?
    ensures StopFor(arm) == Some(Transfer.ConnectionLost) <==> arm == ConnError
    ensures StopFor(arm) == None <==> Harmless(arm)
    ensures Harmless(arm) <==> arm.Tick? || (arm.Incoming? && !arm.msg.Reject? && !arm.msg.Cancel?)
  {
    if arm.Incoming? {
      SendingAnswers(arm.msg);
    }
  }

  /** The block of a round goes out. */
  predicate Passes(round: Round) {
    !round.cancelled && round.delivered && forall i | 0 <= i < |round.heard| :: Harmless(round.heard[i])
  }

  /** The first cause for which a round ends the loop: the flag, what was heard, the connection. */
  ghost predicate EndedBy(round: Round, end: Transfer.SendEnd) {
    if round.cancelled then end == Transfer.ByFlag
    else if exists i | 0 <= i < |round.heard| :: !Harmless(round.heard[i]) then
      exists i | 0 <= i < |round.heard| :: !Harmless(round.heard[i]) && StopFor(round.heard[i]) == Some(end)
                                           && forall j | 0 <= j < i :: Harmless(round.heard[j])
    else !round.delivered && end == Transfer.ConnectionLost
  }

  /** A block goes out exactly when the flag is unset, the connection takes it, and nothing heard is a cancel, a rejection or an error. */
  lemma PassesExactly(round: Round)
    ensures Passes(round) <==> && !round.cancelled && round.delivered
                               && forall arm :: arm in round.heard ==> arm.Tick? || (arm.Incoming? && !arm.msg.Reject? && !arm.msg.Cancel?)
  {
    forall arm | arm in round.heard ensures Harmless(arm) <==> arm.Tick? || (arm.Incoming? && !arm.msg.Reject? && !arm.msg.Cancel?) {
      ArmsThatStop(arm);
    }
    assert forall i | 0 <= i < |round.heard| :: round.heard[i] in round.heard;
  }

  /** A set flag comes before all else, and what was heard before the connection. */
  lemma FlagComesFirst(round: Round, end: Transfer.SendEnd)
    ensures EndedBy(round, end) ==> !Passes(round)
    ensures round.cancelled ==> (EndedBy(round, end) <==> end == Transfer.ByFlag)
    ensures !round.cancelled && (forall i | 0 <= i < |round.heard| :: Harmless(round.heard[i])) ==>
              (EndedBy(round, end) <==> !round.delivered && end == Transfer.ConnectionLost)
  {
  }

  /** Of what was heard, the first arm that stops gives the reason. */
  lemma FirstHeardDecides(round: Round, end: Transfer.SendEnd, i: nat)
    requires !round.cancelled && i < |round.heard| && !Harmless(round.heard[i])
    requires forall j | 0 <= j < i :: Harmless(round.heard[j])
    ensures EndedBy(round, end) <==>
              || (round.heard[i] == ConnError && end == Transfer.ConnectionLost)
              || (round.heard[i].Incoming? && round.heard[i].msg.Reject? && end == Transfer.ByPeer(true))
              || (round.heard[i].Incoming? && round.heard[i].msg.Cancel? && end == Transfer.ByPeer(false))
  {
    ArmsThatStop(round.heard[i]);
    assert EndedBy(round, end) <==> StopFor(round.heard[i]) == Some(end);
  }

  /** A block is as long as the read, the limit and the rest of the source allow. */
  predicate Fills(src: seq<byte>, limit: nat, round: Round, msg: Msg) {
    msg.Chunk? && msg.offset < |src| && 0 < |msg.data| == Min(round.size, Min(|src| - msg.offset, limit))
  }

  /**
   The blocks are the source from `start`, one for each round, every one of a round that passes. The loop is through at the end of
   the source or where a read returned nothing; otherwise the next round gives the reason, or there is none.
   */
  ghost predicate BlocksGo(src: seq<byte>, id: nat, limit: nat, start: nat, rounds: seq<Round>, chunks: seq<Msg>, to: nat, r: Waited<nat>) {
    var n := |chunks|;
    && n <= |rounds| && Tiles(src, id, limit, chunks, start, to)
    && (forall i | 0 <= i < n :: Passes(rounds[i]) && Fills(src, limit, rounds[i], chunks[i]))
    && (to == |src| ==> r == Answered(|src|))
    && (to < |src| ==>
          if n == |rounds| then r == Gave(Transfer.ConnectionLost)
          else if !rounds[n].cancelled && rounds[n].size == 0 then r == Answered(to)
          else r.Gave? && EndedBy(rounds[n], r.end))
  }

  /** Nothing in the schedule stops the sending loop. */
  predicate Clear(rounds: seq<Round>, n: int) {
    |rounds| >= n && forall i | 0 <= i < |rounds| :: Passes(rounds[i]) && rounds[i].size > 0
  }

  /** The reason a round gives for ending the loop, if any. */
  function EndOf(round: Round): Option<Transfer.SendEnd> {
    if round.cancelled then Some(Transfer.ByFlag)
    else if FirstStop(round.heard).Some? then FirstStop(round.heard)
    else if !round.delivered then Some(Transfer.ConnectionLost)
    else None
  }

  function FirstStop(heard: seq<Arm>): Option<Transfer.SendEnd> {
    if heard == [] then None
    else if StopFor(heard[0]).Some? then StopFor(heard[0])
    else FirstStop(heard[1..])
  }

  lemma {:induction false} FirstStopIs(heard: seq<Arm>)
    ensures FirstStop(heard) == None <==> forall i | 0 <= i < |heard| :: Harmless(heard[i])
    ensures FirstStop(heard) != None ==>
              exists i | 0 <= i < |heard| :: !Harmless(heard[i]) && StopFor(heard[i]) == FirstStop(heard) && forall j | 0 <= j < i :: Harmless(heard[j])
    decreases |heard|
  {
    if heard == [] {
    } else {
      ArmsThatStop(heard[0]);
      FirstStopIs(heard[1..]);
      var tail := heard[1..];
      assert forall i | 0 < i < |heard| :: heard[i] == tail[i - 1];
      if StopFor(heard[0]).None? && FirstStop(heard) != None {
        var i :| 0 <= i < |tail| && !Harmless(tail[i]) && StopFor(tail[i]) == FirstStop(tail) && forall j | 0 <= j < i :: Harmless(tail[j]);
        assert heard[i + 1] == tail[i];
      }
    }
  }

  lemma EndOfExactly(round: Round, end: Transfer.SendEnd)
    ensures EndOf(round) == None <==> Passes(round)
    ensures EndOf(round) == Some(end) <==> EndedBy(round, end)
  {
    FirstStopIs(round.heard);
    if FirstStop(round.heard) != None && !round.cancelled {
      var i :| 0 <= i < |round.heard| && !Harmless(round.heard[i]) && StopFor(round.heard[i]) == FirstStop(round.heard)
               && forall j | 0 <= j < i :: Harmless(round.heard[j]);
      FirstHeardDecides(round, end, i);
      ArmsThatStop(round.heard[i]);
    }
  }

  /** Round by round: the blocks from `from` on, where they end, and why. */
  function Blocks(src: seq<byte>, id: nat, limit: pos, from: nat, rounds: seq<Round>): (seq<Msg>, nat, Waited<nat>)
    decreases |rounds|
  {
    if from >= |src| then ([], from, Answered(from))
    else if rounds == [] then ([], from, Gave(Transfer.ConnectionLost))
    else
      var n := Min(rounds[0].size, Min(|src| - from, limit));
      if n == 0 && !rounds[0].cancelled then ([], from, Answered(from))
      else if EndOf(rounds[0]).Some? then ([], from, Gave(EndOf(rounds[0]).value))
      else
        var (chunks, to, r) := Blocks(src, id, limit, from + n, rounds[1..]);
        ([Chunk(id, from, src[from..from + n])] + chunks, to, r)
  }

  /** The first round, then the rest. */
  lemma BlocksGoOn(src: seq<byte>, id: nat, limit: pos, from: nat, rounds: seq<Round>, msg: Msg, chunks: seq<Msg>, to: nat, r: Waited<nat>)
    requires from < |src| && rounds != [] && Passes(rounds[0]) && msg.Chunk? && msg.id == id && msg.offset == from
    requires Fills(src, limit, rounds[0], msg) && msg.data == src[from..from + |msg.data|]
    requires BlocksGo(src, id, limit, from + |msg.data|, rounds[1..], chunks, to, r)
    ensures BlocksGo(src, id, limit, from, rounds, [msg] + chunks, to, r)
  {
    var all := [msg] + chunks;
    assert all[1..] == chunks;
    assert forall i | 0 < i < |all| :: all[i] == chunks[i - 1] && rounds[i] == rounds[1..][i - 1];
    if |chunks| < |rounds[1..]| { assert rounds[|all|] == rounds[1..][|chunks|]; }
  }

  lemma BlocksEnd(src: seq<byte>, id: nat, limit: pos, from: nat, rounds: seq<Round>)
    requires from <= |src| && (from == |src| || rounds == [] || EndOf(rounds[0]).Some? || rounds[0].size == 0)
    ensures var (chunks, to, r) := Blocks(src, id, limit, from, rounds);
            chunks == [] && to == from && BlocksGo(src, id, limit, from, rounds, [], from, r) && r != Gave(Transfer.Sent)
  {
    if from < |src| && rounds != [] && EndOf(rounds[0]).Some? {
      EndOfExactly(rounds[0], EndOf(rounds[0]).value);
    }
  }

  lemma BlocksUnfold(src: seq<byte>, id: nat, limit: pos, from: nat, rounds: seq<Round>, n: nat, rest: (seq<Msg>, nat, Waited<nat>))
    requires from < |src| && rounds != [] && n == Min(rounds[0].size, Min(|src| - from, limit)) && from + n <= |src|
    requires EndOf(rounds[0]).None? && rounds[0].size > 0 && rest == Blocks(src, id, limit, from + n, rounds[1..])
    ensures n > 0 && Passes(rounds[0]) && Blocks(src, id, limit, from, rounds) == ([Chunk(id, from, src[from..from + n])] + rest.0, rest.1, rest.2)
  {
    EndOfExactly(rounds[0], Transfer.Sent);
  }

  lemma {:induction false} BlocksAreRight(src: seq<byte>, id: nat, limit: pos, from: nat, rounds: seq<Round>)
    requires from <= |src|
    ensures var all := Blocks(src, id, limit, from, rounds);
            from <= all.1 <= |src| && BlocksGo(src, id, limit, from, rounds, all.0, all.1, all.2) && all.2 != Gave(Transfer.Sent)
    decreases |rounds|
  {
    if from == |src| || rounds == [] || EndOf(rounds[0]).Some? || rounds[0].size == 0 {
      BlocksEnd(src, id, limit, from, rounds);
    } else {
      var n := Min(rounds[0].size, Min(|src| - from, limit));
      var rest := Blocks(src, id, limit, from + n, rounds[1..]);
      BlocksUnfold(src, id, limit, from, rounds, n, rest);
      BlocksAreRight(src, id, limit, from + n, rounds[1..]);
      BlocksGoOn(src, id, limit, from, rounds, Chunk(id, from, src[from..from + n]), rest.0, rest.1, rest.2);
    }
  }

  /** Where no block went out. */
  lemma EmptyIsEnd(src: seq<byte>, id: nat, limit: pos, from: nat, rounds: seq<Round>, to: nat, r: Waited<nat>)
    requires BlocksGo(src, id, limit, from, rounds, [], to, r) && from <= |src|
    ensures Blocks(src, id, limit, from, rounds) == ([], to, r)
  {
    if from < |src| && rounds != [] && r.Gave? {
      EndOfExactly(rounds[0], r.end);
    }
  }

  lemma BlocksTail(src: seq<byte>, id: nat, limit: pos, from: nat, rounds: seq<Round>, chunks: seq<Msg>, to: nat, r: Waited<nat>)
    requires BlocksGo(src, id, limit, from, rounds, chunks, to, r) && chunks != []
    ensures rounds != [] && chunks[0].Chunk? && BlocksGo(src, id, limit, from + |chunks[0].data|, rounds[1..], chunks[1..], to, r)
  {
    assert forall i | 0 <= i < |chunks| - 1 :: chunks[1..][i] == chunks[i + 1] && rounds[1..][i] == rounds[i + 1];
    if |chunks| < |rounds| { assert rounds[1..][|chunks| - 1] == rounds[|chunks|]; }
  }

  /** The description admits one outcome only. */
  lemma {:induction false} BlocksAreUnique(src: seq<byte>, id: nat, limit: pos, from: nat, rounds: seq<Round>, chunks: seq<Msg>, to: nat, r: Waited<nat>)
    requires BlocksGo(src, id, limit, from, rounds, chunks, to, r) && from <= |src|
    ensures (chunks, to, r) == Blocks(src, id, limit, from, rounds)
    decreases |chunks|
  {
    if chunks == [] {
      EmptyIsEnd(src, id, limit, from, rounds, to, r);
    } else {
      var msg := chunks[0];
      BlocksTail(src, id, limit, from, rounds, chunks, to, r);
      BlocksAreUnique(src, id, limit, from + |msg.data|, rounds[1..], chunks[1..], to, r);
      assert Passes(rounds[0]) && Fills(src, limit, rounds[0], msg);
      EndOfExactly(rounds[0], Transfer.Sent);
      BlocksUnfold(src, id, limit, from, rounds, |msg.data|, (chunks[1..], to, r));
      assert msg == Chunk(id, from, src[from..from + |msg.data|]) && chunks == [msg] + chunks[1..];
    }
  }

  /** The description and the round-by-round form say the same. */
  lemma BlocksExactly(src: seq<byte>, id: nat, limit: pos, from: nat, rounds: seq<Round>, chunks: seq<Msg>, to: nat, r: Waited<nat>)
    requires from <= |src|
    ensures BlocksGo(src, id, limit, from, rounds, chunks, to, r) <==> (chunks, to, r) == Blocks(src, id, limit, from, rounds)
  {
    BlocksAreRight(src, id, limit, from, rounds);
    if BlocksGo(src, id, limit, from, rounds, chunks, to, r) {
      BlocksAreUnique(src, id, limit, from, rounds, chunks, to, r);
    }
  }

  lemma {:induction false} TilesAppend(src: seq<byte>, id: nat, limit: nat, chunks: seq<Msg>, from: nat, to: nat, msg: Msg)
    requires Tiles(src, id, limit, chunks, from, to)
    requires msg.Chunk? && Tiles(src, id, limit, [msg], to, to + |msg.data|)
    ensures Tiles(src, id, limit, chunks + [msg], from, to + |msg.data|)
    decreases |chunks|
  {
    if chunks == [] {
      assert chunks + [msg] == [msg];
    } else {
      assert (chunks + [msg])[1..] == chunks[1..] + [msg];
      TilesAppend(src, id, limit, chunks[1..], from + |chunks[0].data|, to, msg);
    }
  }

  method SendBlocks(src: seq<byte>, id: nat, chunk: pos, start: nat, rounds: seq<Round>)
    returns (chunks: seq<Msg>, offset: nat, r: Waited<nat>)
    requires start <= |src|
    ensures start <= offset <= |src| && BlocksGo(src, id, chunk, start, rounds, chunks, offset, r) && r != Gave(Transfer.Sent)
    ensures Clear(rounds, |src| - start) ==> r == Answered(|src|)
  {
    offset, chunks := start, [];
    var k := 0;
    while offset < |src|
      invariant start <= offset <= |src| && Tiles(src, id, chunk, chunks, start, offset)
      invariant k == |chunks| <= |rounds| && k <= offset - start
      invariant forall i | 0 <= i < k :: Passes(rounds[i]) && Fills(src, chunk, rounds[i], chunks[i])
      decreases |src| - offset
    {
      if k == |rounds| {
        return chunks, offset, Gave(Transfer.ConnectionLost);
      }
      var round := rounds[k];
      if round.cancelled {
        return chunks, offset, Gave(Transfer.ByFlag);
      }
      var wanted := Min(|src| - offset, chunk);
      var n := Min(round.size, wanted);
      if n == 0 {
        return chunks, offset, Answered(offset);
      }
      var msg := Chunk(id, offset, src[offset..offset + n]);
      var stop := Listen(round.heard);
      if stop.Some? {
        return chunks, offset, Gave(stop.value);
      }
      if !round.delivered {
        return chunks, offset, Gave(Transfer.ConnectionLost);
      }
      TilesAppend(src, id, chunk, chunks, start, offset, msg);
      chunks, offset, k := chunks + [msg], offset + n, k + 1;
    }
    return chunks, offset, Answered(offset);
  }

  /** A conversation: offer, the source between the two offsets, completion. */
  predicate Conversed(src: seq<byte>, hash: Hasher, id: nat, name: string, chunk: pos, from: nat, to: nat, sent: seq<Msg>) {
    && |sent| >= 2 && from <= to <= |src|
    && sent[0] == OfferMsg(Offer(id, name, |src|, hash(src)))
    && sent[|sent| - 1] == Messages.Complete(id)
    && Tiles(src, id, chunk, sent[1..|sent| - 1], from, to)
  }

  /** A complete one reaches the end of the source. */
  predicate Complete(src: seq<byte>, hash: Hasher, id: nat, name: string, chunk: pos, from: nat, sent: seq<Msg>) {
    Conversed(src, hash, id, name, chunk, from, |src|, sent)
  }

  /**
   Whatever a send meets, its end and everything it said. Success means a positive verdict after the whole rest of the source
   was sent, from the accepted offset capped by the size (or up to where a read returned nothing).
   */
  method SendFileQuic(src: seq<byte>, hash: Hasher, id: nat, name: string, chunk: pos,
                      accepts: seq<Arm>, rounds: seq<Round>, verdicts: seq<Arm>, offerOut: bool, completeOut: bool)
    returns (end: Transfer.SendEnd, result: SendResult, sent: seq<Msg>)
    ensures end == Transfer.Sent ==>
              && VerdictIs(id, verdicts, Answered(true))
              && Conversed(src, hash, id, name, chunk, result.resumeOffset, result.bytesSent, sent)
              && |sent| - 2 <= |rounds| && (forall i | 0 <= i < |sent| - 2 :: Passes(rounds[i]))
              && (result.bytesSent == |src| || (|sent| - 2 < |rounds| && rounds[|sent| - 2].size == 0))
              && exists offset: nat :: AcceptIs(id, accepts, Answered(offset))
                                       && result == SendResult(result.bytesSent, Min(offset, |src|), offset >= |src|)
    ensures !offerOut ==> end == Transfer.ConnectionLost && sent == []
    ensures forall e :: offerOut && AcceptIs(id, accepts, Gave(e)) ==> end == e && sent == [OfferMsg(Offer(id, name, |src|, hash(src)))]
    ensures forall offset: nat :: offerOut && AcceptIs(id, accepts, Answered(offset)) ==>
              var (chunks, to, blocks) := Blocks(src, id, chunk, Min(offset, |src|), rounds);
              var said := [OfferMsg(Offer(id, name, |src|, hash(src)))] + chunks;
              if blocks.Gave? then end == blocks.end && sent == said
              else if !completeOut then end == Transfer.ConnectionLost && sent == said
              else && sent == said + [Messages.Complete(id)]
                   && (forall e :: VerdictIs(id, verdicts, Gave(e)) ==> end == e)
                   && (forall ok :: VerdictIs(id, verdicts, Answered(ok)) ==> end == if ok then Transfer.Sent else Transfer.BadVerify)
    ensures (offerOut && completeOut && Clear(rounds, |src|) && VerdictIs(id, verdicts, Answered(true))
             && exists offset: nat :: AcceptIs(id, accepts, Answered(offset))) ==> end == Transfer.Sent
  {
    result := SendResult(0, 0, false);
    var offer := OfferMsg(Offer(id, name, |src|, hash(src)));
    if !offerOut {
      return Transfer.ConnectionLost, result, [];
    }
    var accept := WaitForAccept(id, accepts);
    forall other | AcceptIs(id, accepts, other) ensures other == accept { DecidesOnce(arm => AcceptArm(id, arm), accepts, accept, other); }
    if accept.Gave? {
      return accept.end, result, [offer];
    }
    var resume := if accept.value > |src| then |src| else accept.value;
    var chunks, to, blocks := SendBlocks(src, id, chunk, resume, rounds);
    BlocksAreUnique(src, id, chunk, resume, rounds, chunks, to, blocks);
    if blocks.Gave? {
      return blocks.end, result, [offer] + chunks;
    }
    if !completeOut {
      return Transfer.ConnectionLost, result, [offer] + chunks;
    }
    sent := [offer] + chunks + [Messages.Complete(id)];
    assert sent[1..|sent| - 1] == chunks;
    var verdict := WaitForVerify(id, verdicts);
    forall other | VerdictIs(id, verdicts, other) ensures other == verdict { DecidesOnce(arm => VerifyArm(id, arm), verdicts, verdict, other); }
    if verdict.Gave? {
      return verdict.end, result, sent;
    }
    if !verdict.value {
      return Transfer.BadVerify, result, sent;
    }
    result := SendResult(blocks.value, resume, resume >= |src|);
    return Transfer.Sent, result, sent;
  }
}
