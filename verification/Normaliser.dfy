/**
 The encoder's output path (mf_encoder.rs): parameter sets (SPS/PPS) are cached and written
 again before every IDR picture, every other unit is passed through.
 `Push` and `PushAll` say what one unit and a list of units do to the three buffers;
 the class below does it with the scanners' loops.
 */
module Normaliser {
  import opened Bytes
  import opened NalStream

  // Unit types of Table 7-1 of ITU-T H.264.
  const IDR := 5
  const SPS := 7
  const PPS := 8

  function NalType(nal: Nal): int
    requires nal != []
  {
    nal[0] as int % 32
  }

  predicate IsIdr(nal: Nal) { nal != [] && NalType(nal) == IDR }

  predicate IsParameter(nal: Nal) { nal != [] && NalType(nal) in {SPS, PPS} }

  /** The header bytes of an IDR picture: type 5 under each value of the three bits above it. */
  const IDR_HEADERS: set<byte> := {0x05, 0x25, 0x45, 0x65, 0x85, 0xA5, 0xC5, 0xE5}

  const SPS_HEADERS: set<byte> := {0x07, 0x27, 0x47, 0x67, 0x87, 0xA7, 0xC7, 0xE7}

  const PPS_HEADERS: set<byte> := {0x08, 0x28, 0x48, 0x68, 0x88, 0xA8, 0xC8, 0xE8}

  /** The first byte decides what a unit is, and only its lower five bits matter. */
  lemma HeaderDecides(nal: Nal)
    ensures IsIdr(nal) <==> nal != [] && nal[0] in IDR_HEADERS
    ensures IsParameter(nal) <==> nal != [] && (nal[0] in SPS_HEADERS || nal[0] in PPS_HEADERS)
  {
  }

  /** The three buffers handed down by mutable reference. */
  datatype Sink = Sink(cache: seq<byte>, out: seq<byte>, idr: bool)

  /** The window search that keeps the cache free of repetitions. */
  predicate Known(nal: Nal, cache: seq<byte>) {
    Occurs(CODE4 + nal, cache)
  }

  /** One unit; the callers never hand over an empty one. */
  function Push(s: Sink, nal: Nal): Sink {
    if nal == [] then s
    else if IsParameter(nal) then
      if Known(nal, s.cache) then s else s.(cache := s.cache + CODE4 + nal)
    else if IsIdr(nal) then
      Sink(s.cache, s.out + s.cache + CODE4 + nal, true)
    else
      s.(out := s.out + CODE4 + nal)
  }

  function PushAll(s: Sink, nals: seq<Nal>): Sink
    decreases |nals|
  {
    if nals == [] then s else PushAll(Push(s, nals[0]), nals[1..])
  }

  /** The format test on the first four bytes, then the matching splitter. */
  function Units(data: seq<byte>): seq<Nal> {
    if Code4At(data, 0) then SplitAnnexB(data) else SplitAvcc(data)
  }

  /** One encoder call drains any number of samples. */
  function PushSamples(s: Sink, samples: seq<seq<byte>>): Sink
    decreases |samples|
  {
    if samples == [] then s else PushSamples(PushAll(s, Units(samples[0])), samples[1..])
  }

  datatype Frame = Frame(ptsMs: nat, keyframe: bool, data: seq<byte>)

  datatype EncodeResult = WrongSize | MediaFailed | InputRefused | NoOutput | Encoded(frame: Frame)

  /** What draining the transform yields: samples, and whether a media call then fails. */
  datatype Delivery = Delivery(samples: seq<seq<byte>>, failed: bool)

  /** `width * height * 3 / 2` in wrapping 32-bit arithmetic. */
  function ExpectedSize(width: nat, height: nat): nat {
    width * height % 0x1_0000_0000 * 3 % 0x1_0000_0000 / 2
  }

  lemma CodesInSuffix(data: seq<byte>, i: nat)
    requires i <= |data|
    ensures Code3At(data[i..], 0) == Code3At(data, i) && Code4At(data[i..], 0) == Code4At(data, i)
    ensures i < |data| ==> data[i..][1..] == data[i + 1..]
  {
  }

  lemma ScanSkips(data: seq<byte>, i: nat)
    requires i < |data| && !StartCodeAt(data, i)
    ensures SplitAnnexB(data[i..]) == SplitAnnexB(data[i + 1..])
  {
    CodesInSuffix(data, i);
  }

  lemma ScanCuts(data: seq<byte>, i: nat, start: nat, end: nat)
    requires i < |data| && StartCodeAt(data, i) && start == (if Code4At(data, i) then i + 4 else i + 3)
    requires start <= end <= |data| && NalLength(data[start..]) == end - start
    ensures SplitAnnexB(data[i..]) == if end == start then [] else [data[start..end]] + SplitAnnexB(data[end..])
  {
    CodesInSuffix(data, i);
    var tail := data[i..];
    var body := tail[CodeLength(tail)..];
    assert body == data[start..];
    assert body[..end - start] == data[start..end] && body[end - start..] == data[end..];
  }

  lemma RecordCuts(data: seq<byte>, i: nat, len: nat)
    requires i + 4 <= |data| && len == ReadLength(data[i], data[i + 1], data[i + 2], data[i + 3])
    ensures SplitAvcc(data[i..])
         == if i + 4 + len > |data| then []
            else (if len == 0 then [] else [data[i + 4..i + 4 + len]]) + SplitAvcc(data[i + 4 + len..])
  {
    var tail := data[i..];
    assert tail[0] == data[i] && tail[1] == data[i + 1] && tail[2] == data[i + 2] && tail[3] == data[i + 3];
    if i + 4 + len <= |data| {
      assert tail[4..4 + len] == data[i + 4..i + 4 + len] && tail[4 + len..] == data[i + 4 + len..];
    }
  }

  lemma PushOne(s: Sink, nal: Nal, rest: seq<Nal>)
    requires nal != []
    ensures PushAll(s, [nal] + rest) == PushAll(Push(s, nal), rest)
  {
    assert ([nal] + rest)[1..] == rest;
  }

  lemma NoRecord(data: seq<byte>, i: nat)
    requires i <= |data| < i + 4
    ensures SplitAvcc(data[i..]) == []
  {
  }

  /** One record, one dispatch; an empty one is passed over. */
  lemma RecordStep(s: Sink, data: seq<byte>, i: nat, len: nat)
    requires i + 4 <= |data| && len == ReadLength(data[i], data[i + 1], data[i + 2], data[i + 3]) && i + 4 + len <= |data|
    ensures PushAll(s, SplitAvcc(data[i..]))
         == PushAll(if len == 0 then s else Push(s, data[i + 4..i + 4 + len]), SplitAvcc(data[i + 4 + len..]))
  {
    RecordCuts(data, i, len);
    var rest := SplitAvcc(data[i + 4 + len..]);
    if len == 0 {
      assert [] + rest == rest;
    } else {
      PushOne(s, data[i + 4..i + 4 + len], rest);
    }
  }

  /** One unit of a start-code stream, one dispatch. */
  lemma CutStep(s: Sink, data: seq<byte>, i: nat, start: nat, end: nat)
    requires i < |data| && StartCodeAt(data, i) && start == (if Code4At(data, i) then i + 4 else i + 3)
    requires start < end <= |data| && NalLength(data[start..]) == end - start
    ensures PushAll(s, SplitAnnexB(data[i..])) == PushAll(Push(s, data[start..end]), SplitAnnexB(data[end..]))
  {
    ScanCuts(data, i, start, end);
    PushOne(s, data[start..end], SplitAnnexB(data[end..]));
  }

  /** The inner scan for the next start code. */
  method UnitEnd(data: seq<byte>, start: nat) returns (j: nat)
    requires start <= |data|
    ensures start <= j <= |data|
    ensures j - start == NalLength(data[start..])
  {
    j := start;
    while j < |data| && !StartCodeAt(data, j)
      invariant start <= j <= |data|
      invariant NalLength(data[start..]) == j - start + NalLength(data[j..])
    {
      CodesInSuffix(data, j);
      j := j + 1;
    }
    CodesInSuffix(data, j);
  }

  class Encoder {
    const width: nat
    const height: nat
    var spsPps: seq<byte>
    // Buffers of the current call.
    var out: seq<byte>
    var sawIdr: bool

    constructor (width: nat, height: nat)
      ensures this.width == width && this.height == height && spsPps == []
    {
      this.width, this.height := width, height;
      spsPps, out, sawIdr := [], [], false;
    }

    ghost function View(): Sink
      reads this
    {
      Sink(spsPps, out, sawIdr)
    }

    method PushNal(nal: Nal)
      requires nal != []
      modifies this
      ensures View() == Push(old(View()), nal)
    {
      var nalType := nal[0] as int % 32;
      if nalType == SPS || nalType == PPS {
        var needle := CODE4 + nal;
        if !Occurs(needle, spsPps) {
          spsPps := spsPps + needle;
          assert spsPps == old(spsPps) + CODE4 + nal;
        }
      } else if nalType == IDR {
        sawIdr := true;
        out := out + spsPps;
        out := out + CODE4;
        out := out + nal;
      } else {
        out := out + CODE4;
        out := out + nal;
      }
    }

    method ConvertAnnexB(data: seq<byte>)
      modifies this
      ensures View() == PushAll(old(View()), SplitAnnexB(data))
    {
      ghost var goal := PushAll(View(), SplitAnnexB(data));
      var i := 0;
      assert data[0..] == data;
      while i < |data|
        invariant 0 <= i <= |data|
        invariant PushAll(View(), SplitAnnexB(data[i..])) == goal
      {
        if !StartCodeAt(data, i) {
          ScanSkips(data, i);
          i := i + 1;
          continue;
        }
        var nalStart := if Code4At(data, i) then i + 4 else i + 3;
        var j := UnitEnd(data, nalStart);
        if j == nalStart {
          ScanCuts(data, i, nalStart, j);
          return;
        }
        CutStep(View(), data, i, nalStart, j);
        PushNal(data[nalStart..j]);
        i := j;
      }
      assert data[i..] == [];
    }

    /** One round of the length-prefixed loop; `next` is past the record, or the end of the data when the record is cut short. */
    method ConvertRecord(data: seq<byte>, i: nat) returns (next: nat)
      requires i + 4 <= |data|
      modifies this
      ensures i < next <= |data|
      ensures PushAll(View(), SplitAvcc(data[next..])) == PushAll(old(View()), SplitAvcc(data[i..]))
    {
      var len := ReadLength(data[i], data[i + 1], data[i + 2], data[i + 3]);
      if i + 4 + len > |data| {
        RecordCuts(data, i, len);
        NoRecord(data, |data|);
        return |data|;
      }
      RecordStep(View(), data, i, len);
      var nal := data[i + 4..i + 4 + len];
      assert nal == [] <==> len == 0;
      if nal != [] {
        PushNal(nal);
      }
      return i + 4 + len;
    }

    method ConvertAvcc(data: seq<byte>)
      modifies this
      ensures View() == PushAll(old(View()), SplitAvcc(data))
    {
      ghost var goal := PushAll(View(), SplitAvcc(data));
      var i := 0;
      assert data[0..] == data;
      while i + 4 <= |data|
        invariant 0 <= i <= |data|
        invariant PushAll(View(), SplitAvcc(data[i..])) == goal
      {
        i := ConvertRecord(data, i);
      }
      NoRecord(data, i);
    }

    method Convert(data: seq<byte>)
      modifies this
      ensures View() == PushAll(old(View()), Units(data))
    {
      if Code4At(data, 0) {
        ConvertAnnexB(data);
      } else {
        ConvertAvcc(data);
      }
    }

    /** `ok` tells that draining ended because the transform wants more input. */
    method DrainOutput(delivery: Delivery) returns (ok: bool)
      modifies this
      ensures View() == PushSamples(old(View()), delivery.samples) && ok == !delivery.failed
    {
      var samples := delivery.samples;
      var k := 0;
      assert samples[0..] == samples;
      while k < |samples|
        invariant 0 <= k <= |samples|
        invariant PushSamples(View(), samples[k..]) == PushSamples(old(View()), samples)
      {
        assert samples[k..][1..] == samples[k + 1..];
        if samples[k] != [] {
          Convert(samples[k]);
        }
        k := k + 1;
      }
      assert samples[k..] == [];
      return !delivery.failed;
    }

    /**
     One encoder call. `ready` tells whether the input sample could be made, `accepted` and `retryAccepted` are the
     transform's answers to it, `early` and `late` what it delivers before a retry and after the input.
     */
    method Encode(nv12: seq<byte>, ptsMs: nat, ready: bool, accepted: bool, early: Delivery, retryAccepted: bool, late: Delivery)
        returns (r: EncodeResult)
      modifies this
      ensures r == WrongSize <==> |nv12| != ExpectedSize(width, height)
      ensures r == WrongSize || !ready ==> spsPps == old(spsPps)
      ensures |nv12| == ExpectedSize(width, height) && !ready ==> r == MediaFailed
      ensures |nv12| == ExpectedSize(width, height) && ready ==>
                var first := PushSamples(Sink(old(spsPps), [], false), if accepted then [] else early.samples);
                var all := PushSamples(first, late.samples);
                if !accepted && early.failed then r == MediaFailed && spsPps == first.cache
                else if !accepted && !retryAccepted then r == InputRefused && spsPps == first.cache
                else spsPps == all.cache
                     && r == if late.failed then MediaFailed else if all.out == [] then NoOutput else Encoded(Frame(ptsMs, all.idr, all.out))
    {
      if |nv12| != width * height % 0x1_0000_0000 * 3 % 0x1_0000_0000 / 2 {
        return WrongSize;
      }
      out, sawIdr := [], false;
      if !ready {
        return MediaFailed;
      }
      if !accepted {
        var drained := DrainOutput(early);
        if !drained {
          return MediaFailed;
        }
        if !retryAccepted {
          return InputRefused;
        }
      }
      var drained := DrainOutput(late);
      if !drained {
        return MediaFailed;
      }
      if out == [] {
        return NoOutput;
      }
      return Encoded(Frame(ptsMs, sawIdr, out));
    }

    /** Discards what the transform still holds, but learns its parameter sets. */
    method Drain(delivery: Delivery) returns (ok: bool)
      modifies this
      ensures spsPps == PushSamples(Sink(old(spsPps), [], false), delivery.samples).cache && ok == !delivery.failed
    {
      out, sawIdr := [], false;
      ok := DrainOutput(delivery);
    }

    method Reset()
      modifies this
      ensures spsPps == [] && out == old(out) && sawIdr == old(sawIdr)
    {
      spsPps := [];
    }
  }
}
