/**
 What the normaliser promises: format independence, nothing lost or repeated, parameter sets
 before every IDR, a cache without repetitions, streaming, and when a second pass is harmless.
 */
module NormaliserTheorems {
  import opened Bytes
  import opened NalStream
  import opened Normaliser

  // ---------- Runs split anywhere ----------

  lemma {:induction false} PushAllConcat(s: Sink, a: seq<Nal>, b: seq<Nal>)
    ensures PushAll(s, a + b) == PushAll(PushAll(s, a), b)
    decreases |a|
  {
    if a == [] {
      assert a + b == b;
    } else {
      assert (a + b)[1..] == a[1..] + b;
      PushAllConcat(Push(s, a[0]), a[1..], b);
    }
  }

  // ---------- Format agreement ----------

  /** A length-prefixed buffer is taken for a start-code stream exactly when its first unit has length 1. */
  lemma MisreadExactly(nals: seq<Nal>)
    requires Fits(nals)
    ensures Code4At(PrintAvcc(nals), 0) <==> nals != [] && |nals[0]| == 1
  {
    if nals != [] {
      var len, rest := LengthBytes(|nals[0]|), nals[0] + PrintAvcc(nals[1..]);
      assert PrintAvcc(nals) == len + rest;
      LengthFieldIsCode(|nals[0]|);
      CodeInFront(len, rest);
    }
  }

  lemma CodeInFront(len: seq<byte>, rest: seq<byte>)
    requires |len| == 4
    ensures Code4At(len + rest, 0) <==> len == CODE4
  {
    var data := len + rest;
    assert data[0] == len[0] && data[1] == len[1] && data[2] == len[2] && data[3] == len[3];
  }

  /** Real units start with a non-zero header byte (unit types 1 to 12 of Table 7-1). */
  ghost predicate AllHeaded(nals: seq<Nal>) {
    forall i | 0 <= i < |nals| :: nals[i] != [] && nals[i][0] != 0
  }

  ghost predicate AllSingle(nals: seq<Nal>) {
    forall i | 0 <= i < |nals| :: |nals[i]| == 1
  }

  lemma {:induction false} CutEndsAtCode(data: seq<byte>)
    ensures NalLength(data) < |data| ==> data[NalLength(data)] == 0
  {
    if data == [] || StartCodeAt(data, 0) {
    } else {
      CutEndsAtCode(data[1..]);
    }
  }

  /** A length field read as a 3-byte start code never gives the unit behind it. */
  lemma LengthFieldAsCode(nal: Nal, rest: seq<byte>)
    requires nal != [] && nal[0] != 0 && 1 < |nal| < 0x1_0000_0000
    requires Code3At(LengthBytes(|nal|) + nal + rest, 0)
    ensures var split := SplitAnnexB(LengthBytes(|nal|) + nal + rest); split == [] || split[0] != nal
  {
    var data := LengthBytes(|nal|) + nal + rest;
    var body := data[3..];
    var n := NalLength(body);
    CutEndsAtCode(body);
    assert body == [data[3]] + nal + rest;
    assert forall i | 0 <= i < |nal| :: body[i + 1] == nal[i];
    if n == |nal| && body[..n] == nal {
      assert forall i | 0 <= i < |nal| :: nal[i] == body[i];
      ConstantRun(nal, body);
      assert false;
    }
  }

  lemma ConstantRun(nal: Nal, body: seq<byte>)
    requires |nal| < |body|
    requires forall i | 0 <= i < |nal| :: nal[i] == body[i]
    requires forall i | 0 <= i < |nal| :: body[i + 1] == nal[i]
    ensures forall i | 0 <= i < |nal| :: nal[i] == nal[0]
  {
    var k := 1;
    while k < |nal|
      invariant nal != [] ==> 1 <= k <= |nal|
      invariant forall i | 0 <= i < k && i < |nal| :: nal[i] == nal[0]
    {
      assert nal[k] == body[k] == body[(k - 1) + 1] == nal[k - 1];
      k := k + 1;
    }
  }

  lemma SingleHead(one: Nal, tail: seq<byte>)
    requires |one| == 1 && one[0] != 0
    ensures var split := SplitAnnexB(CODE4 + one + tail);
            if tail == [] || StartCodeAt(tail, 0) then split == [one] + SplitAnnexB(tail)
            else split != [] && |split[0]| > 1
  {
    var body, data := one + tail, CODE4 + one + tail;
    assert data[4..] == body && body[1..] == tail && body[..1] == one;
    assert NalLength(body) == 1 + NalLength(tail);
  }

  lemma AllSingleCons(nals: seq<Nal>)
    requires nals != []
    ensures AllSingle(nals) <==> |nals[0]| == 1 && AllSingle(nals[1..])
  {
    var rest := nals[1..];
    if |nals[0]| == 1 && AllSingle(rest) {
      forall i | 0 <= i < |nals| ensures |nals[i]| == 1 { if i > 0 { assert |rest[i - 1]| == 1; } }
    }
    if AllSingle(nals) {
      forall i | 0 <= i < |rest| ensures |rest[i]| == 1 { assert |nals[i + 1]| == 1; }
    }
  }

  lemma SinglePrinted(nals: seq<Nal>)
    requires Fits(nals) && nals != [] && |nals[0]| == 1
    ensures PrintAvcc(nals) == CODE4 + nals[0] + PrintAvcc(nals[1..])
  {
    assert LengthBytes(1) == CODE4;
    assert LengthBytes(|nals[0]|) == CODE4;
  }

  lemma WrongHead(nals: seq<Nal>)
    requires Fits(nals) && AllHeaded(nals) && nals != [] && |nals[0]| != 1
    requires StartCodeAt(PrintAvcc(nals), 0)
    ensures SplitAnnexB(PrintAvcc(nals)) != nals
  {
    MisreadExactly(nals);
    LengthFieldAsCode(nals[0], PrintAvcc(nals[1..]));
  }

  lemma AllHeadedTail(nals: seq<Nal>)
    requires nals != [] && AllHeaded(nals)
    ensures AllHeaded(nals[1..])
  {
    var rest := nals[1..];
    forall i | 0 <= i < |rest| ensures rest[i] != [] && rest[i][0] != 0 { assert nals[i + 1] == rest[i]; }
  }

  lemma {:induction false} MisreadHarm(nals: seq<Nal>)
    requires Fits(nals) && AllHeaded(nals) && nals != [] && |nals[0]| == 1
    ensures SplitAnnexB(PrintAvcc(nals)) == nals <==> AllSingle(nals)
  {
    var one, rest := nals[0], nals[1..];
    var tail := PrintAvcc(rest);
    SinglePrinted(nals);
    SingleHead(one, tail);
    AllSingleCons(nals);
    MisreadExactly(rest);
    var split := SplitAnnexB(CODE4 + one + tail);
    assert nals == [one] + rest;
    if rest == [] {
    } else if StartCodeAt(tail, 0) {
      AllHeadedTail(nals);
      if |rest[0]| == 1 { MisreadHarm(rest); } else { WrongHead(rest); }
      assert split == nals <==> SplitAnnexB(tail) == rest by {
        assert split[1..] == SplitAnnexB(tail) && nals[1..] == rest;
      }
    } else {
      assert split[0] != nals[0];
    }
  }

  /**
   The format test is harmless exactly when it is right, or when every unit has length 1: in all other cases a
   length-prefixed buffer starting with a length-1 unit is taken apart wrongly.
   */
  lemma DetectionExactly(nals: seq<Nal>)
    requires Fits(nals) && AllHeaded(nals)
    ensures Units(PrintAvcc(nals)) == nals <==> nals == [] || |nals[0]| != 1 || AllSingle(nals)
  {
    MisreadExactly(nals);
    if nals != [] && |nals[0]| == 1 {
      MisreadHarm(nals);
    } else {
      AvccSplitsAfter(nals, []);
      assert PrintAvcc(nals) + [] == PrintAvcc(nals);
      NonEmptyOfHeaded(nals);
      assert NonEmpty(nals) + SplitAvcc([]) == nals;
    }
  }

  lemma {:induction false} NonEmptyOfHeaded(nals: seq<Nal>)
    requires AllHeaded(nals)
    ensures NonEmpty(nals) == nals
  {
    if nals == [] {
    } else {
      AllHeadedTail(nals);
      NonEmptyOfHeaded(nals[1..]);
    }
  }

  lemma NonEmptyOfSound(nals: seq<Nal>)
    requires AllSound(nals)
    ensures NonEmpty(nals) == nals
  {
    if nals != [] {
      AllSoundCons(nals);
    }
  }

  /** Both carriers of the same units give the same buffers, those of dispatching the units one by one. */
  lemma FormatAgreement(s: Sink, units: seq<Unit>)
    requires units != [] ==> units[0].long && |units[0].nal| != 1
    requires AllSound(Nals(units)) && TailsSafe(units) && Fits(Nals(units))
    ensures PushAll(s, Units(PrintAvcc(Nals(units)))) == PushAll(s, Nals(units))
    ensures PushAll(s, Units(PrintUnits(units))) == PushAll(s, Nals(units))
  {
    var nals := Nals(units);
    MisreadExactly(nals);
    AvccSplitsAfter(nals, []);
    assert PrintAvcc(nals) + [] == PrintAvcc(nals);
    NonEmptyOfSound(nals);
    assert NonEmpty(nals) + SplitAvcc([]) == nals;
    PrintUnitsStart(units);
    AnnexBRoundTrip(units);
  }

  // ---------- Truncation and streaming ----------

  /** The bytes of one record cut short: fewer than four, or fewer than the length says. */
  predicate Incomplete(rest: seq<byte>) {
    !StartsWithRecord(rest)
  }

  /** A record cut short at the end changes nothing. */
  lemma TruncatedTailIgnored(s: Sink, nals: seq<Nal>, rest: seq<byte>)
    requires Fits(nals) && Incomplete(rest) && (nals != [] ==> |nals[0]| != 1)
    ensures PushAll(s, Units(PrintAvcc(nals) + rest)) == PushAll(s, Units(PrintAvcc(nals)))
  {
    var data := PrintAvcc(nals);
    MisreadExactly(nals);
    AvccSplitsAfter(nals, rest);
    AvccSplitsAfter(nals, []);
    assert data + [] == data;
    if nals == [] {
      assert data + rest == rest;
      assert Units(rest) == [] by {
        if Code4At(rest, 0) { assert |rest| == 4 && rest[4..] == []; }
      }
    } else {
      assert !Code4At(data + rest, 0);
    }
  }

  /** Two buffers in turn, or both as one. */
  lemma StreamingAgrees(s: Sink, a: seq<Nal>, b: seq<Nal>)
    requires Fits(a) && Fits(b)
    requires (a != [] ==> |a[0]| != 1) && (b != [] ==> |b[0]| != 1)
    ensures PushAll(PushAll(s, Units(PrintAvcc(a))), Units(PrintAvcc(b))) == PushAll(s, Units(PrintAvcc(a) + PrintAvcc(b)))
  {
    MisreadExactly(a);
    MisreadExactly(b);
    AvccSplitsAfter(a, PrintAvcc(b));
    AvccSplitsAfter(a, []);
    assert PrintAvcc(a) + [] == PrintAvcc(a);
    assert a == [] ==> PrintAvcc(a) + PrintAvcc(b) == PrintAvcc(b);
    PushAllConcat(s, Units(PrintAvcc(a)), Units(PrintAvcc(b)));
    assert SplitAvcc([]) == [];
    assert NonEmpty(a) + [] == NonEmpty(a);
  }

  // ---------- The cache and the output as lists of units ----------

  function Learn(params: seq<Nal>, nal: Nal): seq<Nal> {
    if IsParameter(nal) && !Known(nal, Print(params)) then params + [nal] else params
  }

  function LearnAll(params: seq<Nal>, nals: seq<Nal>): seq<Nal>
    decreases |nals|
  {
    if nals == [] then params else LearnAll(Learn(params, nals[0]), nals[1..])
  }

  /** What one unit adds to the output while `params` are cached. */
  function EmitOne(params: seq<Nal>, nal: Nal): seq<Nal> {
    if nal == [] || IsParameter(nal) then [] else if IsIdr(nal) then params + [nal] else [nal]
  }

  function Emit(params: seq<Nal>, nals: seq<Nal>): seq<Nal>
    decreases |nals|
  {
    if nals == [] then [] else EmitOne(params, nals[0]) + Emit(Learn(params, nals[0]), nals[1..])
  }

  ghost predicate HasIdr(nals: seq<Nal>) {
    exists i | 0 <= i < |nals| :: IsIdr(nals[i])
  }

  lemma PrintOne(nal: Nal)
    ensures Print([nal]) == CODE4 + nal
  {
    assert [nal][1..] == [];
    assert CODE4 + nal + [] == CODE4 + nal;
  }

  lemma HasIdrCons(nals: seq<Nal>)
    requires nals != []
    ensures HasIdr(nals) <==> IsIdr(nals[0]) || HasIdr(nals[1..])
  {
    if HasIdr(nals[1..]) {
      var i :| 0 <= i < |nals[1..]| && IsIdr(nals[1..][i]);
      assert IsIdr(nals[i + 1]);
    }
    if HasIdr(nals) {
      var i :| 0 <= i < |nals| && IsIdr(nals[i]);
      if i > 0 { assert IsIdr(nals[1..][i - 1]); }
    }
  }

  lemma PushIsPrint(s: Sink, params: seq<Nal>, nal: Nal)
    requires s.cache == Print(params)
    ensures Push(s, nal) == Sink(Print(Learn(params, nal)), s.out + Print(EmitOne(params, nal)), s.idr || IsIdr(nal))
  {
    PrintOne(nal);
    PrintConcat(params, [nal]);
    assert s.out + [] == s.out;
    assert s.cache + CODE4 + nal == s.cache + (CODE4 + nal);
    assert s.out + CODE4 + nal == s.out + (CODE4 + nal);
    assert s.out + s.cache + CODE4 + nal == s.out + (s.cache + (CODE4 + nal));
  }

  /** The byte buffers are at all times the printed lists. */
  lemma {:induction false} BytesAreLists(s: Sink, params: seq<Nal>, nals: seq<Nal>)
    requires s.cache == Print(params)
    ensures PushAll(s, nals)
         == Sink(Print(LearnAll(params, nals)), s.out + Print(Emit(params, nals)), s.idr || HasIdr(nals))
    decreases |nals|
  {
    if nals == [] {
      assert s.out + [] == s.out;
    } else {
      var one, rest := EmitOne(params, nals[0]), Emit(Learn(params, nals[0]), nals[1..]);
      PushIsPrint(s, params, nals[0]);
      BytesAreLists(Push(s, nals[0]), Learn(params, nals[0]), nals[1..]);
      PrintConcat(one, rest);
      HasIdrCons(nals);
      assert s.out + Print(one) + Print(rest) == s.out + (Print(one) + Print(rest));
    }
  }

  // ---------- The cache over any run ----------

  ghost predicate AllParameters(nals: seq<Nal>) {
    forall i | 0 <= i < |nals| :: IsParameter(nals[i])
  }

  ghost predicate Distinct(nals: seq<Nal>) {
    forall i, j | 0 <= i < j < |nals| :: nals[i] != nals[j]
  }

  /** The cache parses back into parameter sets, none stored twice. */
  ghost predicate GoodCache(cache: seq<byte>) {
    var params := SplitAnnexB(cache);
    Print(params) == cache && AllParameters(params) && Distinct(params)
  }

  /** Every stored set is found by the window search. */
  lemma {:induction false} StoredIsKnown(params: seq<Nal>, i: nat)
    requires i < |params|
    ensures Known(params[i], Print(params))
  {
    var needle, head, rest := CODE4 + params[i], CODE4 + params[0], Print(params[1..]);
    if i == 0 {
      assert (head + rest)[0..|needle|] == needle;
      assert OccursAt(needle, Print(params), 0);
    } else {
      StoredIsKnown(params[1..], i - 1);
      var k :| 0 <= k <= |rest| && OccursAt(needle, rest, k);
      OccursShift(needle, head, rest, k);
    }
  }

  lemma LearnKeepsGood(params: seq<Nal>, nal: Nal)
    requires AllSound(params) && AllParameters(params) && Distinct(params) && Sound(nal)
    ensures AllSound(Learn(params, nal)) && AllParameters(Learn(params, nal)) && Distinct(Learn(params, nal))
    ensures IsParameter(nal) ==> Known(nal, Print(Learn(params, nal)))
  {
    if IsParameter(nal) && !Known(nal, Print(params)) {
      forall i | 0 <= i < |params| ensures params[i] != nal { StoredIsKnown(params, i); }
      StoredIsKnown(params + [nal], |params|);
    }
  }

  lemma KnownStays(params: seq<Nal>, nal: Nal, next: Nal)
    requires Known(nal, Print(params))
    ensures Known(nal, Print(Learn(params, next)))
  {
    PrintConcat(params, [next]);
    OccursGrows(CODE4 + nal, Print(params), Print([next]));
  }

  lemma {:induction false} KnownStaysAll(params: seq<Nal>, nal: Nal, nals: seq<Nal>)
    requires Known(nal, Print(params))
    ensures Known(nal, Print(LearnAll(params, nals)))
    decreases |nals|
  {
    if nals == [] {
    } else {
      KnownStays(params, nal, nals[0]);
      KnownStaysAll(Learn(params, nals[0]), nal, nals[1..]);
    }
  }

  lemma {:induction false} LearnAllKeepsGood(params: seq<Nal>, nals: seq<Nal>)
    requires AllSound(params) && AllParameters(params) && Distinct(params) && AllSound(nals)
    ensures var after := LearnAll(params, nals); AllSound(after) && AllParameters(after) && Distinct(after)
    ensures forall i | 0 <= i < |nals| && IsParameter(nals[i]) :: Known(nals[i], Print(LearnAll(params, nals)))
    decreases |nals|
  {
    if nals == [] {
    } else {
      AllSoundCons(nals);
      LearnKeepsGood(params, nals[0]);
      LearnAllKeepsGood(Learn(params, nals[0]), nals[1..]);
      if IsParameter(nals[0]) { KnownStaysAll(Learn(params, nals[0]), nals[0], nals[1..]); }
      forall i | 0 <= i < |nals| && IsParameter(nals[i])
        ensures Known(nals[i], Print(LearnAll(params, nals)))
      {
        if i > 0 { assert nals[i] == nals[1..][i - 1]; }
      }
    }
  }

  /** All units of the samples drained by one or more calls, in order. */
  function AllUnits(samples: seq<seq<byte>>): seq<Nal> {
    if samples == [] then [] else Units(samples[0]) + AllUnits(samples[1..])
  }

  lemma {:induction false} SamplesAreUnits(s: Sink, samples: seq<seq<byte>>)
    ensures PushSamples(s, samples) == PushAll(s, AllUnits(samples))
    decreases |samples|
  {
    if samples == [] {
    } else {
      SamplesAreUnits(PushAll(s, Units(samples[0])), samples[1..]);
      PushAllConcat(s, Units(samples[0]), AllUnits(samples[1..]));
    }
  }

  /** Start-code samples always qualify: their units are sound whatever the bytes are. */
  lemma {:induction false} StartCodeSamplesAreSound(samples: seq<seq<byte>>)
    requires forall i | 0 <= i < |samples| :: Code4At(samples[i], 0)
    ensures AllSound(AllUnits(samples))
  {
    if samples == [] {
    } else {
      SplitIsSound(samples[0]);
      assert Code4At(samples[0], 0);
      forall i | 0 <= i < |samples| - 1 ensures Code4At(samples[1..][i], 0) { assert Code4At(samples[i + 1], 0); }
      StartCodeSamplesAreSound(samples[1..]);
    }
  }

  lemma GoodCacheLists(cache: seq<byte>)
    requires GoodCache(cache)
    ensures var params := SplitAnnexB(cache); cache == Print(params) && AllSound(params) && AllParameters(params) && Distinct(params)
  {
    SplitIsSound(cache);
  }

  lemma ListsGiveGoodCache(params: seq<Nal>)
    requires AllSound(params) && AllParameters(params) && Distinct(params)
    ensures GoodCache(Print(params)) && SplitAnnexB(Print(params)) == params
  {
    PrintRoundTrip(params);
  }

  /**
   However a run is divided into calls, and whatever was in the output buffers: the cache keeps parsing back into
   parameter sets, none twice, and every set that came by is found in it.
   */
  lemma CacheOverRuns(s: Sink, samples: seq<seq<byte>>)
    requires GoodCache(s.cache) && AllSound(AllUnits(samples))
    ensures var after := PushSamples(s, samples).cache;
            && GoodCache(after)
            && forall i | 0 <= i < |AllUnits(samples)| && IsParameter(AllUnits(samples)[i]) :: Known(AllUnits(samples)[i], after)
    ensures forall t: Sink | t.cache == s.cache :: PushSamples(t, samples).cache == PushSamples(s, samples).cache
    ensures SplitAnnexB(s.cache) <= SplitAnnexB(PushSamples(s, samples).cache)
  {
    GoodCacheLists(s.cache);
    var params := SplitAnnexB(s.cache);
    var units := AllUnits(samples);
    LearnAllKeepsGood(params, units);
    ListsGiveGoodCache(LearnAll(params, units));
    LearnAllGrows(params, units);
    forall t: Sink | t.cache == s.cache
      ensures PushSamples(t, samples).cache == Print(LearnAll(params, units))
    {
      SamplesAreUnits(t, samples);
      BytesAreLists(t, params, units);
    }
  }

  lemma {:induction false} LearnAllGrows(params: seq<Nal>, nals: seq<Nal>)
    ensures params <= LearnAll(params, nals)
    decreases |nals|
  {
    if nals == [] {
    } else {
      LearnAllGrows(Learn(params, nals[0]), nals[1..]);
    }
  }

  // ---------- The window search ----------

  /** Section 7.4.1 of ITU-T H.264, as far as the search needs it: no start code inside, no 00 at the end. */
  ghost predicate Compliant(nal: Nal) {
    Sound(nal) && nal[|nal| - 1] != 0
  }

  ghost predicate AllCompliant(nals: seq<Nal>) {
    forall i | 0 <= i < |nals| :: Compliant(nals[i])
  }

  /** A needle that starts on a unit's own start code is a prefix of that unit. */
  lemma NeedleOnUnit(nal: Nal, first: Nal, rest: seq<byte>)
    requires Compliant(nal) && (rest == [] || Code4At(rest, 0))
    requires nal <= first + rest
    ensures nal <= first
  {
    assert !Code3At(nal, |first| + 1);
    if |nal| > |first| {
      assert forall i | |first| <= i < |nal| :: nal[i] == rest[i - |first|];
      assert false;
    }
  }

  /** A start code never begins inside a compliant unit. */
  lemma NoCodeInside(first: Nal, rest: seq<byte>, j: nat)
    requires Compliant(first) && 0 < j < 4 + |first|
    ensures !Code4At(CODE4 + first + rest, j)
  {
    var data := CODE4 + first + rest;
    assert data[3] == 1;
    assert data[4..4 + |first|] == first;
    assert data[4 + |first| - 1] == first[|first| - 1];
    if 4 <= j <= |first| {
      assert !Code3At(first, j - 3);
      assert data[j + 1..j + 4] == first[j - 3..j];
    }
  }

  ghost predicate PrefixOfOne(nal: Nal, nals: seq<Nal>) {
    exists i | 0 <= i < |nals| :: nal <= nals[i]
  }

  /** For compliant units the search reports a repetition exactly for prefixes of stored sets. */
  lemma {:induction false} DuplicateIsPrefix(nal: Nal, params: seq<Nal>)
    requires Compliant(nal) && AllCompliant(params)
    ensures Known(nal, Print(params)) <==> PrefixOfOne(nal, params)
  {
    var needle := CODE4 + nal;
    var hay := Print(params);
    if params == [] {
      assert hay == [];
    } else {
      var first, rest := params[0], Print(params[1..]);
      assert Compliant(params[0]);
      assert AllCompliant(params[1..]) by {
        forall i | 0 <= i < |params| - 1 ensures Compliant(params[1..][i]) { assert Compliant(params[i + 1]); }
      }
      DuplicateIsPrefix(nal, params[1..]);
      assert hay[4 + |first|..] == rest;
      if Known(nal, hay) {
        var k :| 0 <= k <= |hay| && OccursAt(needle, hay, k);
        FoundInHeadOrTail(nal, first, params[1..], k);
      }
      if PrefixOfOne(nal, params) {
        var i :| 0 <= i < |params| && nal <= params[i];
        PrefixIsKnown(nal, params, i);
      }
    }
  }

  lemma FoundInHead(nal: Nal, first: Nal, rest: seq<byte>)
    requires Compliant(nal) && Compliant(first) && OccursAt(CODE4 + nal, CODE4 + first + rest, 0)
    requires rest != [] ==> Code4At(rest, 0)
    ensures nal <= first
  {
    var hay := CODE4 + first + rest;
    OccursSuffix(CODE4, nal, hay, 0);
    assert hay[4..4 + |nal|] == (first + rest)[..|nal|];
    NeedleOnUnit(nal, first, rest);
  }

  lemma FoundInTail(nal: Nal, first: Nal, rest: seq<byte>, k: nat)
    requires Compliant(first) && k > 0 && OccursAt(CODE4 + nal, CODE4 + first + rest, k)
    ensures Known(nal, rest)
  {
    var needle, head := CODE4 + nal, CODE4 + first;
    OccursPrefix(CODE4, needle, head + rest, k);
    CodeFound(head + rest, k);
    if k < |head| {
      NoCodeInside(first, rest, k);
      assert false;
    }
    OccursShift(needle, head, rest, k - |head|);
  }

  lemma FoundInHeadOrTail(nal: Nal, first: Nal, others: seq<Nal>, k: nat)
    requires Compliant(nal) && Compliant(first)
    requires OccursAt(CODE4 + nal, CODE4 + first + Print(others), k)
    requires Known(nal, Print(others)) ==> PrefixOfOne(nal, others)
    ensures PrefixOfOne(nal, [first] + others)
  {
    if k == 0 {
      FoundInHead(nal, first, Print(others));
      assert nal <= ([first] + others)[0];
    } else {
      FoundInTail(nal, first, Print(others), k);
      var i :| 0 <= i < |others| && nal <= others[i];
      assert ([first] + others)[i + 1] == others[i];
    }
  }

  lemma CodeFound(hay: seq<byte>, k: nat)
    requires OccursAt(CODE4, hay, k)
    ensures Code4At(hay, k)
  {
    var found := hay[k..k + 4];
    assert found[0] == hay[k] && found[1] == hay[k + 1] && found[2] == hay[k + 2] && found[3] == hay[k + 3];
  }

  lemma PrefixIsKnown(nal: Nal, params: seq<Nal>, i: nat)
    requires i < |params| && nal <= params[i]
    ensures Known(nal, Print(params))
  {
    StoredIsKnown(params, i);
    var k :| 0 <= k <= |Print(params)| && OccursAt(CODE4 + params[i], Print(params), k);
    OccursPrefix(CODE4 + nal, CODE4 + params[i], Print(params), k);
  }

  // ---------- Nothing lost, nothing repeated ----------

  function NonParameters(nals: seq<Nal>): seq<Nal> {
    if nals == [] then []
    else (if nals[0] == [] || IsParameter(nals[0]) then [] else [nals[0]]) + NonParameters(nals[1..])
  }

  lemma {:induction false} NonParametersConcat(a: seq<Nal>, b: seq<Nal>)
    ensures NonParameters(a + b) == NonParameters(a) + NonParameters(b)
  {
    if a == [] {
      assert a + b == b;
    } else {
      assert (a + b)[1..] == a[1..] + b;
      NonParametersConcat(a[1..], b);
    }
  }

  lemma {:induction false} ParametersVanish(params: seq<Nal>)
    requires AllParameters(params)
    ensures NonParameters(params) == []
  {
    if params == [] {
    } else {
      assert IsParameter(params[0]);
      forall i | 0 <= i < |params| - 1 ensures IsParameter(params[1..][i]) { assert IsParameter(params[i + 1]); }
      ParametersVanish(params[1..]);
    }
  }

  lemma AllSoundConcat(a: seq<Nal>, b: seq<Nal>)
    requires AllSound(a) && AllSound(b)
    ensures AllSound(a + b)
  {
  }

  lemma EmitOneConserves(params: seq<Nal>, nal: Nal)
    requires AllSound(params) && AllParameters(params) && Sound(nal)
    ensures AllSound(EmitOne(params, nal)) && NonParameters(EmitOne(params, nal)) == NonParameters([nal])
  {
    AllSoundConcat(params, [nal]);
    ParametersVanish(params);
    NonParametersConcat(params, [nal]);
  }

  lemma {:induction false} EmitConserves(params: seq<Nal>, nals: seq<Nal>)
    requires AllSound(params) && AllParameters(params) && Distinct(params) && AllSound(nals)
    ensures AllSound(Emit(params, nals))
    ensures NonParameters(Emit(params, nals)) == NonParameters(nals)
    ensures HasIdr(Emit(params, nals)) <==> HasIdr(nals)
    decreases |nals|
  {
    if nals == [] {
    } else {
      var nal, tail, next := nals[0], nals[1..], Learn(params, nals[0]);
      AllSoundCons(nals);
      LearnKeepsGood(params, nal);
      EmitConserves(next, tail);
      EmitOneConserves(params, nal);
      AllSoundConcat(EmitOne(params, nal), Emit(next, tail));
      NonParametersConcat(EmitOne(params, nal), Emit(next, tail));
      NonParametersConcat([nal], tail);
      assert nals == [nal] + tail;
      HasIdrCons(nals);
      HasIdrEmitOne(params, nal, Emit(next, tail));
    }
  }

  lemma HasIdrEmitOne(params: seq<Nal>, nal: Nal, rest: seq<Nal>)
    requires AllParameters(params)
    ensures HasIdr(EmitOne(params, nal) + rest) <==> IsIdr(nal) || HasIdr(rest)
  {
    var one := EmitOne(params, nal);
    var all := one + rest;
    if HasIdr(all) {
      var i :| 0 <= i < |all| && IsIdr(all[i]);
      if i < |one| { assert all[i] == one[i]; } else { assert IsIdr(rest[i - |one|]); }
    }
    if IsIdr(nal) { assert all[|params|] == nal; }
    if HasIdr(rest) {
      var i :| 0 <= i < |rest| && IsIdr(rest[i]);
      assert all[|one| + i] == rest[i];
    }
  }

  lemma IdrByHeader(nals: seq<Nal>)
    ensures HasIdr(nals) <==> exists i | 0 <= i < |nals| :: nals[i] != [] && nals[i][0] in IDR_HEADERS
  {
    forall i | 0 <= i < |nals| ensures IsIdr(nals[i]) <==> nals[i] != [] && nals[i][0] in IDR_HEADERS {
      HeaderDecides(nals[i]);
    }
  }

  /** A unit is left out of `NonParameters` exactly when its header byte is one of a parameter set (or it has none). */
  lemma KeptByHeader(nal: Nal)
    ensures NonParameters([nal]) == if nal == [] || nal[0] in SPS_HEADERS || nal[0] in PPS_HEADERS then [] else [nal]
  {
    HeaderDecides(nal);
  }

  /**
   One frame, from any good cache: parsing it back gives the input's units other than parameter sets, in order,
   each once, and the keyframe flag says whether one of them has the header byte of an IDR picture.
   */
  lemma Conservation(cache: seq<byte>, samples: seq<seq<byte>>)
    requires GoodCache(cache) && AllSound(AllUnits(samples))
    ensures var t := PushSamples(Sink(cache, [], false), samples);
            var parsed := SplitAnnexB(t.out);
            && Print(parsed) == t.out
            && NonParameters(parsed) == NonParameters(AllUnits(samples))
            && (t.idr <==> exists i | 0 <= i < |parsed| :: parsed[i] != [] && parsed[i][0] in IDR_HEADERS)
  {
    var units, params := AllUnits(samples), SplitAnnexB(cache);
    SamplesAreUnits(Sink(cache, [], false), samples);
    PushedFrame(cache, units);
    GoodCacheLists(cache);
    EmitConserves(params, units);
    IdrByHeader(SplitAnnexB(PushSamples(Sink(cache, [], false), samples).out));
  }

  /**
   Without the soundness hypothesis, which length-prefixed input may break: the frame parses back into the units
   written exactly when each of them is free of start codes.
   */
  lemma ConservationExactly(params: seq<Nal>, units: seq<Nal>)
    ensures var t := PushAll(Sink(Print(params), [], false), units);
            SplitAnnexB(t.out) == Emit(params, units) <==> AllSound(Emit(params, units))
  {
    BytesAreLists(Sink(Print(params), [], false), params, units);
    PrintRoundTrip(Emit(params, units));
    assert [] + Print(Emit(params, units)) == Print(Emit(params, units));
  }

  lemma {:induction false} LearnAllConcat(params: seq<Nal>, a: seq<Nal>, b: seq<Nal>)
    ensures LearnAll(params, a + b) == LearnAll(LearnAll(params, a), b)
    decreases |a|
  {
    if a == [] {
      assert a + b == b;
    } else {
      assert (a + b)[1..] == a[1..] + b;
      LearnAllConcat(Learn(params, a[0]), a[1..], b);
    }
  }

  lemma {:induction false} EmitConcat(params: seq<Nal>, a: seq<Nal>, b: seq<Nal>)
    ensures Emit(params, a + b) == Emit(params, a) + Emit(LearnAll(params, a), b)
    decreases |a|
  {
    if a == [] {
      assert a + b == b;
    } else {
      var one, next := EmitOne(params, a[0]), Learn(params, a[0]);
      assert (a + b)[1..] == a[1..] + b;
      EmitConcat(next, a[1..], b);
      assert one + (Emit(next, a[1..]) + Emit(LearnAll(next, a[1..]), b))
          == one + Emit(next, a[1..]) + Emit(LearnAll(next, a[1..]), b);
    }
  }

  lemma EmitIdr(params: seq<Nal>, idr: Nal)
    requires IsIdr(idr)
    ensures Emit(params, [idr]) == params + [idr] && LearnAll(params, [idr]) == params
  {
    assert [idr][1..] == [];
    assert Learn(params, idr) == params && Emit(params, []) == [];
  }

  lemma PushedFrame(cache: seq<byte>, units: seq<Nal>)
    requires GoodCache(cache) && AllSound(units)
    ensures var params, t := SplitAnnexB(cache), PushAll(Sink(cache, [], false), units);
            && t.out == Print(Emit(params, units)) && SplitAnnexB(t.out) == Emit(params, units)
            && SplitAnnexB(t.cache) == LearnAll(params, units) && t.cache == Print(LearnAll(params, units))
            && (t.idr <==> HasIdr(units))
  {
    var params := SplitAnnexB(cache);
    GoodCacheLists(cache);
    BytesAreLists(Sink(cache, [], false), params, units);
    EmitConserves(params, units);
    PrintRoundTrip(Emit(params, units));
    LearnAllKeepsGood(params, units);
    ListsGiveGoodCache(LearnAll(params, units));
    assert [] + Print(Emit(params, units)) == Print(Emit(params, units));
  }

  /**
   The whole cache of that moment stands directly before each IDR: parsed, the frame is what it was before the
   IDR, then every cached set, then the IDR, then the rest.
   */
  lemma CacheBeforeEachIdr(cache: seq<byte>, before: seq<Nal>, idr: Nal, after: seq<Nal>)
    requires GoodCache(cache) && AllSound(before) && AllSound(after) && Sound(idr) && IsIdr(idr)
    ensures var head := PushAll(Sink(cache, [], false), before);
            var whole := PushAll(Sink(cache, [], false), before + [idr] + after);
            SplitAnnexB(head.out) + SplitAnnexB(head.cache) + [idr] <= SplitAnnexB(whole.out)
  {
    var params := SplitAnnexB(cache);
    var all, now := before + [idr] + after, LearnAll(params, before);
    AllSoundConcat(before, [idr]);
    AllSoundConcat(before + [idr], after);
    PushedFrame(cache, before);
    PushedFrame(cache, all);
    EmitConcat(params, before + [idr], after);
    EmitConcat(params, before, [idr]);
    EmitIdr(now, idr);
    assert Emit(params, before) + (now + [idr]) == Emit(params, before) + now + [idr];
  }

  // ---------- A second pass ----------

  /** Every IDR was written while the cache already was `final`. */
  ghost predicate IdrsSee(params: seq<Nal>, nals: seq<Nal>, final: seq<Nal>)
    decreases |nals|
  {
    nals == [] || ((IsIdr(nals[0]) ==> params == final) && IdrsSee(Learn(params, nals[0]), nals[1..], final))
  }

  /** What a second pass writes: each IDR behind the final cache. */
  function Weave(nals: seq<Nal>, final: seq<Nal>): seq<Nal> {
    if nals == [] then [] else EmitOne(final, nals[0]) + Weave(nals[1..], final)
  }

  lemma {:induction false} WeaveLength(params: seq<Nal>, nals: seq<Nal>, final: seq<Nal>)
    requires LearnAll(params, nals) == final
    ensures |Emit(params, nals)| <= |Weave(nals, final)|
    ensures Emit(params, nals) == Weave(nals, final) <==> IdrsSee(params, nals, final)
    ensures |Emit(params, nals)| == |Weave(nals, final)| ==> IdrsSee(params, nals, final)
    decreases |nals|
  {
    LearnAllGrows(params, nals);
    if nals == [] {
    } else {
      var next := Learn(params, nals[0]);
      WeaveLength(next, nals[1..], final);
      var one, one' := EmitOne(params, nals[0]), EmitOne(final, nals[0]);
      if IsIdr(nals[0]) && params != final {
        assert |params| < |final|;
        assert |one| < |one'|;
      } else {
        assert one == one';
        assert Emit(params, nals)[|one|..] == Emit(next, nals[1..]);
        assert Weave(nals, final)[|one|..] == Weave(nals[1..], final);
      }
    }
  }

  ghost predicate AllKnown(nals: seq<Nal>, final: seq<Nal>) {
    forall i | 0 <= i < |nals| && IsParameter(nals[i]) :: Known(nals[i], Print(final))
  }

  lemma {:induction false} KnownAddNothing(final: seq<Nal>, nals: seq<Nal>)
    requires AllKnown(nals, final)
    ensures LearnAll(final, nals) == final && Emit(final, nals) == Weave(nals, final)
    decreases |nals|
  {
    if nals == [] {
    } else {
      assert IsParameter(nals[0]) ==> Known(nals[0], Print(final));
      forall i | 0 <= i < |nals| - 1 && IsParameter(nals[1..][i]) ensures Known(nals[1..][i], Print(final)) {
        assert nals[1..][i] == nals[i + 1];
      }
      KnownAddNothing(final, nals[1..]);
    }
  }

  lemma {:induction false} EmittedAreKnown(params: seq<Nal>, nals: seq<Nal>, final: seq<Nal>)
    requires params <= final && LearnAll(params, nals) == final && AllParameters(params)
    ensures AllKnown(Emit(params, nals), final)
    decreases |nals|
  {
    if nals == [] {
    } else {
      var one, rest := EmitOne(params, nals[0]), Emit(Learn(params, nals[0]), nals[1..]);
      LearnAllGrows(Learn(params, nals[0]), nals[1..]);
      EmittedAreKnown(Learn(params, nals[0]), nals[1..], final);
      var all := one + rest;
      forall i | 0 <= i < |all| && IsParameter(all[i]) ensures Known(all[i], Print(final)) {
        if i < |one| {
          assert all[i] == one[i];
          assert i < |params| && params[i] == final[i];
          StoredIsKnown(final, i);
        } else {
          assert all[i] == rest[i - |one|];
        }
      }
    }
  }

  lemma WeaveOfEmitOne(params: seq<Nal>, nal: Nal, final: seq<Nal>)
    requires AllParameters(params)
    ensures Weave(EmitOne(params, nal), final) == EmitOne(final, nal)
  {
    WeaveOfParameters(params, final);
    WeaveConcat(params, [nal], final);
    assert Weave([nal], final) == EmitOne(final, nal) by { assert [nal][1..] == []; }
  }

  lemma {:induction false} WeaveOfEmit(params: seq<Nal>, nals: seq<Nal>, final: seq<Nal>)
    requires AllParameters(params)
    ensures Weave(Emit(params, nals), final) == Weave(nals, final)
    decreases |nals|
  {
    if nals == [] {
    } else {
      var next := Learn(params, nals[0]);
      WeaveConcat(EmitOne(params, nals[0]), Emit(next, nals[1..]), final);
      WeaveOfEmit(next, nals[1..], final);
      WeaveOfEmitOne(params, nals[0], final);
    }
  }

  lemma {:induction false} WeaveConcat(a: seq<Nal>, b: seq<Nal>, final: seq<Nal>)
    ensures Weave(a + b, final) == Weave(a, final) + Weave(b, final)
  {
    if a == [] {
      assert a + b == b;
    } else {
      assert (a + b)[1..] == a[1..] + b;
      WeaveConcat(a[1..], b, final);
    }
  }

  lemma {:induction false} WeaveOfParameters(params: seq<Nal>, final: seq<Nal>)
    requires AllParameters(params)
    ensures Weave(params, final) == []
  {
    if params == [] {
    } else {
      assert IsParameter(params[0]);
      forall i | 0 <= i < |params| - 1 ensures IsParameter(params[1..][i]) { assert IsParameter(params[i + 1]); }
      WeaveOfParameters(params[1..], final);
    }
  }

  lemma PrintInjective(a: seq<Nal>, b: seq<Nal>)
    requires AllSound(a) && AllSound(b)
    ensures Print(a) == Print(b) <==> a == b
  {
    PrintRoundTrip(a);
    PrintRoundTrip(b);
  }

  /**
   Feeding a frame back in never changes the cache, and reproduces the frame exactly when no IDR was written before
   the last new parameter set came by.
   */
  lemma SecondPass(cache: seq<byte>, units: seq<Nal>)
    requires GoodCache(cache) && AllSound(units)
    ensures var t := PushAll(Sink(cache, [], false), units);
            var again := PushAll(Sink(t.cache, [], false), Units(t.out));
            && again.cache == t.cache && again.idr == t.idr
            && (again.out == t.out <==> IdrsSee(SplitAnnexB(cache), units, SplitAnnexB(t.cache)))
  {
    var params := SplitAnnexB(cache);
    var emitted, final := Emit(params, units), LearnAll(params, units);
    PushedFrame(cache, units);
    GoodCacheLists(cache);
    LearnAllKeepsGood(params, units);
    ListsGiveGoodCache(final);
    EmitConserves(params, units);
    LearnAllGrows(params, units);
    EmittedAreKnown(params, units, final);
    KnownAddNothing(final, emitted);
    WeaveOfEmit(params, units, final);
    WeaveLength(params, units, final);
    assert Units(Print(emitted)) == emitted;
    PushedFrame(Print(final), emitted);
    EmitConserves(final, emitted);
    PrintInjective(Emit(final, emitted), emitted);
  }
}
