/**
 The raw TCP channel (tcp_channel.rs, `receive_tcp`, `send_file_tcp`): a line of handshake, the
 file's bytes, a trailer of 32 bytes, over a stream that hands out any number of bytes per read.
 */
module Tcp {
  import opened Bytes
  import opened Names
  import opened Disk
  import opened Messages
  import opened Receiver
  import Transfer

  type Digest = d: seq<byte> | |d| == 32 witness seq(32, i => 0)

  type Digester = seq<byte> -> Digest

  const NEWLINE: byte := 10
  const BUFFER_SIZE := 0x40000

  /** What will still arrive before the peer closes. */
  class Stream {
    var incoming: seq<byte>

    /** Any positive number of the next bytes, as many as fit; none exactly at the end or without room. */
    method ReadInto(buffer: array<byte>, from: nat, to: nat) returns (n: nat)
      requires from <= to <= buffer.Length
      modifies this, buffer
      ensures n <= to - from && n <= |old(incoming)| && (n == 0 <==> from == to || old(incoming) == [])
      ensures incoming == old(incoming)[n..] && buffer[from..from + n] == old(incoming)[..n]
      ensures buffer[..from] == old(buffer[..from])
    {
      if from == to || incoming == [] {
        return 0;
      }
      n :| 1 <= n <= |incoming| && n <= to - from;
      forall i | from <= i < from + n {
        buffer[i] := incoming[i - from];
      }
      incoming := incoming[n..];
    }
  }

  // ---------- Reading pieces ----------

  /** `line` is what stands before the first newline. */
  predicate FirstLine(incoming: seq<byte>, line: seq<byte>) {
    NEWLINE !in line && line + [NEWLINE] <= incoming
  }

  /** Byte by byte up to the newline, which is consumed. */
  method ReadHandshake(stream: Stream) returns (line: Option<seq<byte>>)
    modifies stream
    ensures line.Some? <==> NEWLINE in old(stream.incoming)
    ensures line.Some? ==> FirstLine(old(stream.incoming), line.value) && stream.incoming == old(stream.incoming)[|line.value| + 1..]
  {
    var one := new byte[1];
    var buf := [];
    ghost var all := stream.incoming;
    while true
      invariant all == buf + stream.incoming && NEWLINE !in buf
      decreases |stream.incoming|
    {
      ghost var rest := stream.incoming;
      var n := stream.ReadInto(one, 0, 1);
      if n == 0 {
        return None;
      }
      assert one[0] == one[0..1][0] == rest[0];
      if one[0] == NEWLINE {
        assert buf + [NEWLINE] == all[..|buf| + 1];
        return Some(buf);
      }
      buf := buf + [one[0]];
    }
  }

  /** The next `n` bytes, or nothing when the stream ends before. */
  method ReadExactN(stream: Stream, n: nat) returns (out: Option<seq<byte>>)
    modifies stream
    ensures if n <= |old(stream.incoming)| then out == Some(old(stream.incoming)[..n]) && stream.incoming == old(stream.incoming)[n..]
            else out == None && stream.incoming == []
  {
    var buffer := new byte[n];
    var read := 0;
    ghost var all := stream.incoming;
    while read < n
      invariant read <= n && read <= |all| && buffer[..read] == all[..read] && stream.incoming == all[read..]
      decreases n - read
    {
      ghost var before := buffer[..read];
      var k := stream.ReadInto(buffer, read, n);
      if k == 0 {
        return None;
      }
      assert buffer[..read + k] == before + buffer[read..read + k];
      assert all[..read + k] == all[..read] + all[read..][..k];
      read := read + k;
    }
    assert buffer[..] == buffer[..n];
    return Some(buffer[..]);
  }

  // ---------- Receiving ----------

  /** The bytes read so far, written from the start of the residue. */
  function Overwritten(base: seq<byte>, data: seq<byte>): seq<byte> {
    WriteAt(base, 0, data)
  }

  /** Writing in place over the front. */
  lemma OverFront(base: seq<byte>, data: seq<byte>)
    ensures WriteAt(base, 0, data) == data + if |data| < |base| then base[|data|..] else []
  {
  }

  lemma WriteGoesOn(base: seq<byte>, data: seq<byte>, more: seq<byte>)
    ensures WriteAt(WriteAt(base, 0, data), |data|, more) == WriteAt(base, 0, data + more)
  {
    OverFront(base, data);
    OverFront(base, data + more);
    var tail := if |data| < |base| then base[|data|..] else [];
    var rest := if |more| < |tail| then tail[|more|..] else [];
    assert (data + tail)[..|data|] == data;
    if more == [] {
      assert data + more == data;
    } else {
      assert WriteAt(data + tail, |data|, more) == data + more + rest;
    }
  }

  /** Result and disk of one receive, from what the stream holds; no read size enters. */
  function Arrived(digest: Digester, files: Files, size: nat, save: Path, incoming: seq<byte>): (Result, Files) {
    var partial := PartialFor(save);
    var base := Resumed(files, partial, size);
    var need := size - |base|;
    if |incoming| < need + 32 then (Err(Lost), files[partial := Overwritten(base, incoming[..Min(need, |incoming|)])])
    else Checked(digest, files, size, save, Overwritten(base, incoming[..need]), incoming[need..need + 32])
  }

  /** The trailer decides about what stands in the residue. */
  function Checked(digest: Digester, files: Files, size: nat, save: Path, content: seq<byte>, trailer: seq<byte>): (Result, Files) {
    if digest(content) == trailer then (Ok(size), (files - {PartialFor(save)})[save := content])
    else (Err(VerifyFailed), files[PartialFor(save) := content])
  }

  /** The same, or a cancel after some of the file's bytes. */
  ghost predicate Outcome(digest: Digester, files: Files, size: nat, save: Path, incoming: seq<byte>, mayCancel: bool, result: Result, after: Files) {
    || (result, after) == Arrived(digest, files, size, save, incoming)
    || (mayCancel && result == Err(LocalCancel) && exists m: nat :: CancelledAt(files, size, save, incoming, m, after))
  }

  predicate CancelledAt(files: Files, size: nat, save: Path, incoming: seq<byte>, m: nat, after: Files) {
    var base := Resumed(files, PartialFor(save), size);
    m <= size - |base| && m <= |incoming| && after == files[PartialFor(save) := Overwritten(base, incoming[..m])]
  }

  /**
   The reading loop; `cancelAfter` is the number of reads after which the cancel flag is seen set, if it is.
   The fresh file handle writes from the start of the residue, wherever that ends.
   */
  method ReceiveBody(stream: Stream, disk: Disk, partial: Path, offset: nat, size: nat, cancelAfter: Option<nat>)
    returns (received: nat, failed: Option<RecvError>, rounds: nat)
    requires partial in disk.files && offset <= size
    modifies stream, disk
    ensures offset <= received <= size && received - offset <= |old(stream.incoming)|
    ensures disk.files == old(disk.files)[partial := Overwritten(old(disk.files)[partial], old(stream.incoming)[..received - offset])]
    ensures stream.incoming == old(stream.incoming)[received - offset..]
    ensures match failed
            case None => received == size
            case Some(Lost) => received < size && received - offset == |old(stream.incoming)|
            case Some(error) => error == LocalCancel
    ensures failed == Some(LocalCancel) <==> received < size && cancelAfter == Some(rounds)
    ensures rounds <= received - offset <= rounds * BUFFER_SIZE && (cancelAfter.Some? ==> rounds <= cancelAfter.value)
  {
    ghost var all, files, base := stream.incoming, disk.files, disk.files[partial];
    assert Overwritten(base, all[..0]) == base;
    assert files == files[partial := base];
    var buffer := new byte[BUFFER_SIZE];
    var position, remaining := 0, size - offset;
    received, rounds := offset, 0;
    while remaining > 0
      invariant remaining >= 0 && received + remaining == size && position == received - offset && position <= |all|
      invariant stream.incoming == all[position..] && partial in disk.files
      invariant disk.files == files[partial := Overwritten(base, all[..position])]
      invariant rounds <= position <= rounds * BUFFER_SIZE && (cancelAfter.Some? ==> rounds <= cancelAfter.value)
      decreases remaining
    {
      if cancelAfter == Some(rounds) {
        return received, Some(LocalCancel), rounds;
      }
      var n := stream.ReadInto(buffer, 0, Min(remaining, BUFFER_SIZE));
      if n == 0 {
        return received, Some(Lost), rounds;
      }
      WriteGoesOn(base, all[..position], buffer[0..n]);
      assert all[..position + n] == all[..position] + buffer[0..n];
      disk.WriteChunk(partial, buffer[0..n], position);
      received, position, remaining, rounds := received + n, position + n, remaining - n, rounds + 1;
    }
    return received, None, rounds;
  }

  method ReceiveTcp(stream: Stream, disk: Disk, digest: Digester, size: nat, save: Path, cancelAfter: Option<nat>) returns (result: Result)
    modifies stream, disk
    ensures Outcome(digest, old(disk.files), size, save, old(stream.incoming), cancelAfter.Some?, result, disk.files)
    ensures cancelAfter.Some? ==>
              var need, arrived := size - |Resumed(old(disk.files), PartialFor(save), size)|, |old(stream.incoming)|;
              && (result == Err(LocalCancel) ==> cancelAfter.value < need && cancelAfter.value <= arrived)
              && (cancelAfter.value * BUFFER_SIZE < need && cancelAfter.value * BUFFER_SIZE <= arrived ==> result == Err(LocalCancel))
    ensures result.Ok? ==> stream.incoming == old(stream.incoming)[size - |Resumed(old(disk.files), PartialFor(save), size)| + 32..]
  {
    var partial := PartialFor(save);
    ghost var all, files, base := stream.incoming, disk.files, Resumed(disk.files, partial, size);
    var offset := disk.ValidateResume(partial, size);
    disk.OpenPartial(partial);
    assert disk.files == files[partial := base];
    var received, failed, rounds := ReceiveBody(stream, disk, partial, offset, size, cancelAfter);
    ghost var got := Overwritten(base, all[..received - offset]);
    assert disk.files == files[partial := got];
    if failed == Some(LocalCancel) {
      assert CancelledAt(files, size, save, all, received - offset, disk.files);
      return Err(LocalCancel);
    }
    if failed.Some? {
      return Err(failed.value);
    }
    result := CheckTrailer(stream, disk, digest, files, partial, save, received);
    if |all| >= size - offset + 32 {
      assert all[size - offset..][..32] == all[size - offset..size - offset + 32];
    }
  }

  /** The last 32 bytes decide. */
  method CheckTrailer(stream: Stream, disk: Disk, digest: Digester, ghost files: Files, partial: Path, save: Path, received: nat)
    returns (result: Result)
    requires partial == PartialFor(save) && partial in disk.files && disk.files == files[partial := disk.files[partial]]
    modifies stream, disk
    ensures if |old(stream.incoming)| < 32 then result == Err(Lost) && disk.files == old(disk.files)
            else (result, disk.files) == Checked(digest, files, received, save, old(disk.files)[partial], old(stream.incoming)[..32])
                 && stream.incoming == old(stream.incoming)[32..]
  {
    ghost var content := disk.files[partial];
    var trailer := ReadExactN(stream, 32);
    if trailer.None? {
      return Err(Lost);
    }
    if digest(disk.files[partial]) != trailer.value {
      return Err(VerifyFailed);
    }
    assert partial != save by { assert |partial.name| == |save.name| + 8; }
    assert files[partial := content] - {partial} == files - {partial};
    var renamed := disk.Finalize(partial, save);
    return Ok(received);
  }

  // ---------- Sending ----------

  /** How the wait for the peer's answer line ends. */
  datatype Response = Accepted(offset: nat) | Rejected | Malformed | Closed | CancelledWaiting

  /** What follows the handshake for an accepted offset: nothing if the peer has it all, else the source up to `to` and the trailer. */
  function Body(digest: Digester, src: seq<byte>, resume: nat, to: nat): seq<byte>
    requires resume <= to <= |src|
  {
    if resume >= |src| then [] else src[resume..to] + digest(src)
  }

  /** The whole wire of a send that is not disturbed. */
  function Sent(digest: Digester, src: seq<byte>, line: seq<byte>, resume: nat): seq<byte>
    requires resume <= |src|
  {
    line + [NEWLINE] + Body(digest, src, resume, |src|)
  }

  /**
   What a send puts on the wire and reports. Blocks go out up to the end of the file or to a read that returns nothing, in
   round `emptyAt` if at all; then the trailer follows. After a cancel the wire ends somewhere in the file.
   */
  predicate SentBy(digest: Digester, src: seq<byte>, line: seq<byte>, response: Response, mayCancel: bool, mayEnd: bool,
                   result: Option<SendResult>, wire: seq<byte>)
  {
    if !response.Accepted? then result == None && wire == line + [NEWLINE]
    else
      var resume := Min(response.offset, |src|);
      match result
      case None => mayCancel && resume < |src| && wire <= Sent(digest, src, line, resume)
      case Some(report) =>
        && resume <= report.bytesSent <= |src| && (mayEnd || report.bytesSent == |src|)
        && report == SendResult(report.bytesSent, resume, resume >= |src|)
        && wire == line + [NEWLINE] + Body(digest, src, resume, report.bytesSent)
  }

  method SendFileTcp(digest: Digester, src: seq<byte>, line: seq<byte>, response: Response, cancelAfter: Option<nat>, emptyAt: Option<nat>)
    returns (result: Option<SendResult>, wire: seq<byte>)
    ensures SentBy(digest, src, line, response, cancelAfter.Some?, emptyAt.Some?, result, wire)
    ensures !response.Accepted? ==> result == None && wire == line + [NEWLINE]
    ensures response.Accepted? && cancelAfter.Some? ==>
              && (result == None ==> cancelAfter.value < |src| - Min(response.offset, |src|) && (emptyAt.Some? ==> cancelAfter.value <= emptyAt.value))
              && (cancelAfter.value * BUFFER_SIZE < |src| - Min(response.offset, |src|) && (emptyAt.Some? ==> cancelAfter.value <= emptyAt.value) ==> result == None)
  {
    wire := line + [NEWLINE];
    if !response.Accepted? {
      return None, wire;
    }
    var resume := Min(response.offset, |src|);
    if resume >= |src| {
      return Some(SendResult(|src|, resume, true)), wire;
    }
    var data, to, cancelled, rounds := SendBlocks(src, resume, cancelAfter, emptyAt);
    wire := wire + data;
    if cancelled {
      assert src[resume..] == src[resume..to] + src[to..];
      return None, wire;
    }
    return Some(SendResult(to, resume, false)), wire + digest(src);
  }

  /** The sending loop: blocks of any size up to the buffer's, one after the other; the flag is looked at before each read. */
  method SendBlocks(src: seq<byte>, resume: nat, cancelAfter: Option<nat>, emptyAt: Option<nat>)
    returns (data: seq<byte>, offset: nat, cancelled: bool, rounds: nat)
    requires resume < |src|
    ensures resume <= offset <= |src| && data == src[resume..offset]
    ensures cancelled <==> offset < |src| && cancelAfter == Some(rounds)
    ensures !cancelled && offset < |src| ==> emptyAt == Some(rounds)
    ensures rounds <= offset - resume <= rounds * BUFFER_SIZE
    ensures (cancelAfter.Some? ==> rounds <= cancelAfter.value) && (emptyAt.Some? ==> rounds <= emptyAt.value)
  {
    offset, data, rounds := resume, [], 0;
    while offset < |src|
      invariant resume <= offset <= |src| && data == src[resume..offset]
      invariant rounds <= offset - resume <= rounds * BUFFER_SIZE
      invariant (cancelAfter.Some? ==> rounds <= cancelAfter.value) && (emptyAt.Some? ==> rounds <= emptyAt.value)
    {
      if cancelAfter == Some(rounds) {
        return data, offset, true, rounds;
      }
      if emptyAt == Some(rounds) {
        return data, offset, false, rounds;
      }
      var n :| 1 <= n <= |src| - offset && n <= BUFFER_SIZE;
      assert src[resume..offset + n] == src[resume..offset] + src[offset..offset + n];
      data, offset, rounds := data + src[offset..offset + n], offset + n, rounds + 1;
    }
    return data, offset, false, rounds;
  }

  // ---------- Both ends ----------

  /** Reading the handshake off the wire gives the line that was sent (JSON text holds no newline) and leaves the rest. */
  lemma HandshakeSplits(line: seq<byte>, rest: seq<byte>, read: seq<byte>)
    requires NEWLINE !in line && FirstLine(line + [NEWLINE] + rest, read)
    ensures read == line && (line + [NEWLINE] + rest)[|read| + 1..] == rest
  {
    var all := line + [NEWLINE] + rest;
    var taken := read + [NEWLINE];
    assert taken == all[..|taken|] && taken[|read|] == NEWLINE;
    assert all[..|line|] == line;
    assert forall i | 0 <= i < |line| :: all[i] == line[i];
    assert forall i | 0 <= i < |read| :: all[i] == read[i];
    assert all[|line|] == NEWLINE && all[|read|] == NEWLINE;
    assert |read| == |line|;
    assert read == taken[..|read|] == line;
  }

  /** From no residue, a non-empty file always arrives, for every read schedule on both sides. */
  lemma FreshArrives(digest: Digester, src: seq<byte>, files: Files, save: Path, result: Result, after: Files)
    requires src != [] && Resumed(files, PartialFor(save), |src|) == []
    requires Outcome(digest, files, |src|, save, src + digest(src), false, result, after)
    ensures result == Ok(|src|) && save in after && after[save] == src && PartialFor(save) !in after
  {
    var incoming := src + digest(src);
    assert incoming[..|src|] == src && incoming[|src|..|src| + 32] == digest(src);
    assert Overwritten([], src) == src;
    assert |PartialFor(save).name| == |save.name| + 8;
  }

  /**
   Over TCP a residue, of whatever content, is never continued: with what the sender sends for its length, the source
   arrives exactly when there was no residue and the file is not empty.
   */
  lemma ArrivesExactly(digest: Digester, src: seq<byte>, files: Files, save: Path, line: seq<byte>, incoming: seq<byte>, result: Result, after: Files)
    requires line + [NEWLINE] + incoming == Sent(digest, src, line, |Resumed(files, PartialFor(save), |src|)|)
    requires Outcome(digest, files, |src|, save, incoming, false, result, after)
    ensures (result.Ok? && after[save] == src) <==> Resumed(files, PartialFor(save), |src|) == [] && src != []
  {
    var r := |Resumed(files, PartialFor(save), |src|)|;
    SameBody(line, incoming, Body(digest, src, r, |src|));
    if r == 0 && src != [] {
      assert src[0..|src|] == src;
      FreshArrives(digest, src, files, save, result, after);
    }
    if 0 < r < |src| {
      assert |Overwritten(Resumed(files, PartialFor(save), |src|), incoming[..|src| - r])| < |src|;
    }
  }

  lemma SameBody(line: seq<byte>, a: seq<byte>, b: seq<byte>)
    requires line + [NEWLINE] + a == line + [NEWLINE] + b
    ensures a == b
  {
    assert a == (line + [NEWLINE] + a)[|line| + 1..];
    assert b == (line + [NEWLINE] + b)[|line| + 1..];
  }

  /**
   For a complete residue, told to the sender as the offset to go on from, the sender reports success at once, whatever its
   user or its file do; the receiver fails on what was sent, and after its clean-up the disk is the same: so is the next
   attempt.
   */
  lemma FullResidueStuck(digest: Digester, src: seq<byte>, files: Files, save: Path, line: seq<byte>, mayCancel: bool, mayEnd: bool,
                         report: Option<SendResult>, incoming: seq<byte>, result: Result, after: Files)
    requires PartialFor(save) in files && |files[PartialFor(save)]| == |src|
    requires SentBy(digest, src, line, Accepted(|files[PartialFor(save)]|), mayCancel, mayEnd, report, line + [NEWLINE] + incoming)
    requires Outcome(digest, files, |src|, save, incoming, false, result, after)
    ensures report == Some(SendResult(|src|, |src|, true))
    ensures result == Err(Lost) && StatusOf(result) == Transfer.Failed && Cleaned(after, result, save) == files
  {
    SameBody(line, incoming, []);
    var content := files[PartialFor(save)];
    assert Overwritten(content, []) == content;
    assert files[PartialFor(save) := content] == files;
  }

  /** Without a cancel or an empty read the sender puts out what the receiver's theorems take for granted. */
  lemma UndisturbedSend(digest: Digester, src: seq<byte>, line: seq<byte>, offset: nat, result: Option<SendResult>, wire: seq<byte>)
    requires SentBy(digest, src, line, Accepted(offset), false, false, result, wire)
    ensures wire == Sent(digest, src, line, Min(offset, |src|))
    ensures result == Some(SendResult(|src|, Min(offset, |src|), offset >= |src|))
  {
  }

  /** Once the trailer is missing, nothing reaches the final path. */
  lemma EarlyEndNeverFinal(digest: Digester, files: Files, size: nat, save: Path, incoming: seq<byte>, mayCancel: bool, result: Result, after: Files)
    requires Outcome(digest, files, size, save, incoming, mayCancel, result, after)
    requires |incoming| < size - |Resumed(files, PartialFor(save), size)| + 32
    ensures result.Err? && (save in after <==> save in files) && (save in files ==> after[save] == files[save])
  {
    assert |PartialFor(save).name| == |save.name| + 8;
  }

  // ---------- Attempts in a row ----------

  /** One undisturbed attempt at a save path with its clean-up. */
  function Attempt(digest: Digester, src: seq<byte>, files: Files, save: Path): (Result, Files) {
    var accepted := |Resumed(files, PartialFor(save), |src|)|;
    var (result, after) := Arrived(digest, files, |src|, save, Body(digest, src, accepted, |src|));
    (result, Cleaned(after, result, save))
  }

  function AfterAttempts(digest: Digester, src: seq<byte>, files: Files, save: Path, n: nat): Files {
    if n == 0 then files else Attempt(digest, src, AfterAttempts(digest, src, files, save, n - 1), save).1
  }

  predicate Arrives(digest: Digester, src: seq<byte>, files: Files, save: Path) {
    var (result, after) := Attempt(digest, src, files, save);
    result.Ok? && save in after && after[save] == src
  }

  /** The first attempt: as above, also after the clean-up. */
  lemma ArrivesAtOnce(digest: Digester, src: seq<byte>, files: Files, save: Path)
    ensures Arrives(digest, src, files, save) <==> Resumed(files, PartialFor(save), |src|) == [] && src != []
  {
    var r := |Resumed(files, PartialFor(save), |src|)|;
    var body := Body(digest, src, r, |src|);
    var (result, after) := Arrived(digest, files, |src|, save, body);
    ArrivesExactly(digest, src, files, save, [], body, result, after);
  }

  predicate Short(src: seq<byte>, files: Files, save: Path) {
    |Resumed(files, PartialFor(save), |src|)| < |src|
  }

  /** A residue shorter than the file is gone after the attempt, renamed or thrown away; a complete one stays. */
  predicate Leaves(src: seq<byte>, files: Files, after: Files, save: Path) {
    if Short(src, files, save) then PartialFor(save) !in after else !Short(src, after, save)
  }

  lemma AttemptClears(digest: Digester, src: seq<byte>, files: Files, save: Path)
    ensures Leaves(src, files, Attempt(digest, src, files, save).1, save)
  {
    assert |PartialFor(save).name| == |save.name| + 8;
  }

  lemma LeavesTwice(src: seq<byte>, files: Files, before: Files, after: Files, save: Path)
    requires Leaves(src, files, before, save) && Leaves(src, before, after, save)
    ensures Leaves(src, files, after, save)
  {
    AbsentIsShort(src, before, save);
    AbsentIsShort(src, files, save);
  }

  lemma {:induction false} ClearedStays(digest: Digester, src: seq<byte>, files: Files, save: Path, n: nat)
    requires n > 0
    ensures Leaves(src, files, AfterAttempts(digest, src, files, save, n), save)
    decreases n
  {
    var before := AfterAttempts(digest, src, files, save, n - 1);
    var after := AfterAttempts(digest, src, files, save, n);
    assert after == Attempt(digest, src, before, save).1;
    AttemptClears(digest, src, before, save);
    if n == 1 {
      assert before == files;
    } else {
      ClearedStays(digest, src, files, save, n - 1);
      LeavesTwice(src, files, before, after, save);
    }
  }

  lemma AbsentIsShort(src: seq<byte>, files: Files, save: Path)
    ensures PartialFor(save) !in files && src != [] ==> Short(src, files, save)
    ensures src == [] ==> !Short(src, files, save)
  {
  }

  /**
   A stale residue heals exactly when it is shorter than the file: every attempt after the first then arrives, whatever the
   residue held, and otherwise none ever does.
   */
  lemma HealsExactly(digest: Digester, src: seq<byte>, files: Files, save: Path, n: nat)
    requires n > 0
    ensures Arrives(digest, src, AfterAttempts(digest, src, files, save, n), save) <==> Short(src, files, save)
  {
    var before := AfterAttempts(digest, src, files, save, n);
    ClearedStays(digest, src, files, save, n);
    ArrivesAtOnce(digest, src, before, save);
    AbsentIsShort(src, before, save);
    AbsentIsShort(src, files, save);
  }
}
