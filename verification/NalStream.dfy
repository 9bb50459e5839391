/**
 The two H.264 carriers read by the encoder back end (mf_encoder.rs): the start-code byte
 stream of Annex B of ITU-T H.264 and the 4-byte length prefix of section 5 of
 ISO/IEC 14496-15. For each: the splitter the code implements, the printer it inverts, and
 the exact condition under which splitting what was printed gives the units back.
 */
module NalStream {
  import opened Bytes

  type Nal = seq<byte>

  const CODE3: seq<byte> := [0, 0, 1]
  const CODE4: seq<byte> := [0, 0, 0, 1]

  // ---------- Annex B ----------

  predicate Code3At(data: seq<byte>, k: nat) {
    k + 3 <= |data| && data[k] == 0 && data[k + 1] == 0 && data[k + 2] == 1
  }

  predicate Code4At(data: seq<byte>, k: nat) {
    k + 4 <= |data| && data[k] == 0 && data[k + 1] == 0 && data[k + 2] == 0 && data[k + 3] == 1
  }

  predicate StartCodeAt(data: seq<byte>, k: nat) {
    Code4At(data, k) || Code3At(data, k)
  }

  /** Bytes before the next start code, or all of them. */
  function NalLength(data: seq<byte>): (n: nat)
    ensures n <= |data|
  {
    if data == [] || StartCodeAt(data, 0) then 0 else 1 + NalLength(data[1..])
  }

  function CodeLength(data: seq<byte>): (n: nat)
    requires StartCodeAt(data, 0)
    ensures 3 <= n <= 4 && n <= |data|
  {
    if Code4At(data, 0) then 4 else 3
  }

  /** The units a start-code scan delivers; an empty unit ends the scan. */
  function SplitAnnexB(data: seq<byte>): (units: seq<Nal>)
    decreases |data|
  {
    if data == [] then []
    else if !StartCodeAt(data, 0) then SplitAnnexB(data[1..])
    else
      var body := data[CodeLength(data)..];
      var n := NalLength(body);
      if n == 0 then [] else [body[..n]] + SplitAnnexB(body[n..])
  }

  /** A unit with the length (3 or 4) of the start code printed before it. */
  datatype Unit = Unit(nal: Nal, long: bool)

  function Code(u: Unit): seq<byte> {
    if u.long then CODE4 else CODE3
  }

  function PrintUnits(units: seq<Unit>): seq<byte> {
    if units == [] then []
    else Code(units[0]) + units[0].nal + PrintUnits(units[1..])
  }

  function Nals(units: seq<Unit>): (nals: seq<Nal>)
    ensures |nals| == |units|
  {
    seq(|units|, i requires 0 <= i < |units| => units[i].nal)
  }

  /** Every unit behind a 4-byte code, as the encoder back end writes them. */
  function Print(nals: seq<Nal>): seq<byte> {
    if nals == [] then [] else CODE4 + nals[0] + Print(nals[1..])
  }

  /** No 00 00 01 inside (part of section 7.4.1 of ITU-T H.264). */
  ghost predicate CodeFree(nal: Nal) {
    forall k: nat :: !Code3At(nal, k)
  }

  ghost predicate Sound(nal: Nal) {
    nal != [] && CodeFree(nal)
  }

  ghost predicate AllSound(nals: seq<Nal>) {
    forall i | 0 <= i < |nals| :: Sound(nals[i])
  }

  /** A unit before a 3-byte start code does not end in 00. */
  ghost predicate TailsSafe(units: seq<Unit>) {
    forall i | 1 <= i < |units| :: TailSafe(units[i - 1], units[i])
  }

  lemma CodeFreeTail(nal: Nal)
    requires nal != [] && CodeFree(nal)
    ensures CodeFree(nal[1..])
  {
    forall k: nat ensures !Code3At(nal[1..], k) {
      assert !Code3At(nal, k + 1);
    }
  }

  /** A code-free unit is cut at its end when the following start code cannot borrow its last byte. */
  lemma {:induction false} NalLengthExact(nal: Nal, rest: seq<byte>)
    requires CodeFree(nal)
    requires rest == [] || StartCodeAt(rest, 0)
    requires nal == [] || rest == [] || Code4At(rest, 0) || nal[|nal| - 1] != 0
    ensures NalLength(nal + rest) == |nal|
  {
    if nal == [] {
      assert nal + rest == rest;
    } else {
      var data := nal + rest;
      assert data[1..] == nal[1..] + rest;
      assert !Code3At(nal, 0) && !Code3At(nal, 1);
      assert !StartCodeAt(data, 0);
      CodeFreeTail(nal);
      NalLengthExact(nal[1..], rest);
    }
  }

  /** A 3-byte start code behind a 00 is read as a 4-byte one: the unit loses that byte. */
  lemma {:induction false} NalLengthBorrowed(nal: Nal, rest: seq<byte>)
    requires Sound(nal) && nal[|nal| - 1] == 0 && Code3At(rest, 0)
    ensures NalLength(nal + rest) == |nal| - 1
  {
    var data := nal + rest;
    if |nal| == 1 {
      assert StartCodeAt(data, 0);
    } else {
      assert data[1..] == nal[1..] + rest;
      assert !Code3At(nal, 0) && !Code3At(nal, 1);
      assert !StartCodeAt(data, 0);
      CodeFreeTail(nal);
      NalLengthBorrowed(nal[1..], rest);
    }
  }

  /** What the scan calls a unit holds no start code. */
  lemma {:induction false} CutIsCodeFree(data: seq<byte>)
    ensures CodeFree(data[..NalLength(data)])
  {
    if data == [] || StartCodeAt(data, 0) {
    } else {
      CutIsCodeFree(data[1..]);
      var n := NalLength(data);
      var cut := data[..n];
      assert cut[1..] == data[1..][..n - 1];
      forall k: nat ensures !Code3At(cut, k) {
        if k > 0 { assert !Code3At(cut[1..], k - 1); }
      }
    }
  }

  /** Whatever bytes it reads, the scan only delivers non-empty units free of start codes. */
  lemma {:induction false} SplitIsSound(data: seq<byte>)
    ensures AllSound(SplitAnnexB(data))
    decreases |data|
  {
    if data == [] {
    } else if !StartCodeAt(data, 0) {
      SplitIsSound(data[1..]);
    } else {
      var body := data[CodeLength(data)..];
      CutIsCodeFree(body);
      if NalLength(body) != 0 { SplitIsSound(body[NalLength(body)..]); }
    }
  }

  lemma PrintUnitsStart(units: seq<Unit>)
    ensures PrintUnits(units) == [] <==> units == []
    ensures units != [] ==> StartCodeAt(PrintUnits(units), 0)
    ensures units != [] ==> (Code4At(PrintUnits(units), 0) <==> units[0].long)
    ensures units != [] ==> (Code3At(PrintUnits(units), 0) <==> !units[0].long)
  {
  }

  lemma HeadCode(u: Unit, body: seq<byte>)
    ensures var data := Code(u) + body; StartCodeAt(data, 0) && CodeLength(data) == |Code(u)| && data[|Code(u)|..] == body
  {
    var data := Code(u) + body;
    assert data[0] == 0 && data[1] == 0 && data[2] == Code(u)[2];
    if u.long { assert data[3] == 1; }
  }

  lemma SplitHead(u: Unit, rest: seq<byte>)
    requires rest == [] || StartCodeAt(rest, 0)
    ensures var body := u.nal + rest; var n := NalLength(body);
            SplitAnnexB(Code(u) + u.nal + rest)
            == if n == 0 then [] else [body[..n]] + SplitAnnexB(body[n..])
  {
    HeadCode(u, u.nal + rest);
    assert Code(u) + u.nal + rest == Code(u) + (u.nal + rest);
  }

  lemma AllSoundCons(nals: seq<Nal>)
    requires nals != []
    ensures AllSound(nals) <==> Sound(nals[0]) && AllSound(nals[1..])
  {
    var rest := nals[1..];
    if AllSound(nals) {
      forall i | 0 <= i < |rest| ensures Sound(rest[i]) { assert Sound(nals[i + 1]); }
    }
    if Sound(nals[0]) && AllSound(rest) {
      forall i | 0 <= i < |nals| ensures Sound(nals[i]) { if i > 0 { assert Sound(rest[i - 1]); } }
    }
  }

  lemma NalsCons(units: seq<Unit>)
    requires units != []
    ensures Nals(units) == [units[0].nal] + Nals(units[1..])
    ensures AllSound(Nals(units)) <==> Sound(units[0].nal) && AllSound(Nals(units[1..]))
  {
    var nals := Nals(units);
    assert nals[1..] == Nals(units[1..]);
    AllSoundCons(nals);
  }

  predicate TailSafe(u: Unit, next: Unit) {
    next.long || u.nal == [] || u.nal[|u.nal| - 1] != 0
  }

  lemma TailsSafeCons(units: seq<Unit>)
    requires |units| >= 2
    ensures TailsSafe(units) <==> TailSafe(units[0], units[1]) && TailsSafe(units[1..])
  {
    var rest := units[1..];
    if TailsSafe(units) {
      assert TailSafe(units[1 - 1], units[1]);
      forall i | 1 <= i < |rest| ensures TailSafe(rest[i - 1], rest[i]) {
        assert TailSafe(units[(i + 1) - 1], units[i + 1]);
      }
    }
    if TailSafe(units[0], units[1]) && TailsSafe(rest) {
      forall i | 1 <= i < |units| ensures TailSafe(units[i - 1], units[i]) {
        if i > 1 { assert TailSafe(rest[(i - 1) - 1], rest[i - 1]); }
      }
    }
  }

  /** A unit is scanned back whole when the next start code cannot borrow its last byte. */
  lemma SplitSafe(u: Unit, tail: seq<byte>)
    requires Sound(u.nal) && (tail == [] || StartCodeAt(tail, 0))
    requires tail == [] || Code4At(tail, 0) || u.nal[|u.nal| - 1] != 0
    ensures SplitAnnexB(Code(u) + u.nal + tail) == [u.nal] + SplitAnnexB(tail)
  {
    SplitHead(u, tail);
    NalLengthExact(u.nal, tail);
    assert (u.nal + tail)[..|u.nal|] == u.nal && (u.nal + tail)[|u.nal|..] == tail;
  }

  /** Otherwise it comes back one byte short, or ends the scan. */
  lemma SplitBorrowed(u: Unit, tail: seq<byte>)
    requires Sound(u.nal) && u.nal[|u.nal| - 1] == 0 && Code3At(tail, 0)
    ensures var split := SplitAnnexB(Code(u) + u.nal + tail); split == [] || split[0] == u.nal[..|u.nal| - 1]
  {
    SplitHead(u, tail);
    NalLengthBorrowed(u.nal, tail);
    assert (u.nal + tail)[..|u.nal| - 1] == u.nal[..|u.nal| - 1];
  }

  /**
   Printing and scanning are inverse exactly when no unit is empty, none contains a 3-byte start
   code, and no unit that ends in 00 is followed by a 3-byte start code.
   */
  lemma {:induction false} AnnexBRoundTrip(units: seq<Unit>)
    ensures SplitAnnexB(PrintUnits(units)) == Nals(units) <==> AllSound(Nals(units)) && TailsSafe(units)
  {
    if !AllSound(Nals(units)) {
      SplitIsSound(PrintUnits(units));
    } else if units != [] {
      var u, rest := units[0], units[1..];
      var tail := PrintUnits(rest);
      NalsCons(units);
      AnnexBRoundTrip(rest);
      PrintUnitsStart(rest);
      var split := SplitAnnexB(Code(u) + u.nal + tail);
      if |units| >= 2 { TailsSafeCons(units); }
      if |units| >= 2 && !TailSafe(u, units[1]) {
        SplitBorrowed(u, tail);
        assert split == [] || |split[0]| != |u.nal|;
      } else {
        SplitSafe(u, tail);
        assert split[1..] == SplitAnnexB(tail) && Nals(units)[1..] == Nals(rest);
      }
    }
  }

  function LongUnits(nals: seq<Nal>): (units: seq<Unit>)
    ensures |units| == |nals|
  {
    seq(|nals|, i requires 0 <= i < |nals| => Unit(nals[i], true))
  }

  lemma {:induction false} PrintIsPrintUnits(nals: seq<Nal>)
    ensures Print(nals) == PrintUnits(LongUnits(nals)) && Nals(LongUnits(nals)) == nals
  {
    if nals == [] {
    } else {
      PrintIsPrintUnits(nals[1..]);
      assert LongUnits(nals)[1..] == LongUnits(nals[1..]);
    }
  }

  /** With 4-byte codes only, the scan gives the units back exactly when each is non-empty and code-free. */
  lemma PrintRoundTrip(nals: seq<Nal>)
    ensures SplitAnnexB(Print(nals)) == nals <==> AllSound(nals)
  {
    PrintIsPrintUnits(nals);
    AnnexBRoundTrip(LongUnits(nals));
  }

  lemma {:induction false} PrintConcat(a: seq<Nal>, b: seq<Nal>)
    ensures Print(a + b) == Print(a) + Print(b)
  {
    if a == [] {
      assert a + b == b;
    } else {
      PrintConcat(a[1..], b);
      var head, mid := CODE4 + a[0], Print(a[1..]);
      assert (a + b)[1..] == a[1..] + b && (a + b)[0] == a[0];
      assert Print(a + b) == head + (mid + Print(b));
      assert head + (mid + Print(b)) == head + mid + Print(b);
    }
  }

  // ---------- AVCC ----------

  function ReadLength(b0: byte, b1: byte, b2: byte, b3: byte): (n: nat)
    ensures n < 0x1_0000_0000
  {
    b0 as nat * 0x100_0000 + b1 as nat * 0x1_0000 + b2 as nat * 0x100 + b3 as nat
  }

  function LengthBytes(n: nat): (bytes: seq<byte>)
    requires n < 0x1_0000_0000
    ensures |bytes| == 4
    ensures ReadLength(bytes[0], bytes[1], bytes[2], bytes[3]) == n
  {
    var q := n / 0x100;
    var r := q / 0x100;
    [(r / 0x100) as byte, (r % 0x100) as byte, (q % 0x100) as byte, (n % 0x100) as byte]
  }

  /** The length field of a length-1 record is a start code, and no other length field is. */
  lemma LengthFieldIsCode(n: nat)
    requires n < 0x1_0000_0000
    ensures LengthBytes(n) == CODE4 <==> n == 1
  {
    CodeReadsOne(LengthBytes(n));
  }

  lemma CodeReadsOne(len: seq<byte>)
    requires |len| == 4
    ensures len == CODE4 <==> ReadLength(len[0], len[1], len[2], len[3]) == 1
  {
    assert len == [len[0], len[1], len[2], len[3]];
  }

  /** A whole record lies at the front. */
  predicate StartsWithRecord(data: seq<byte>) {
    4 <= |data| && 4 + ReadLength(data[0], data[1], data[2], data[3]) <= |data|
  }

  /** The records of a length-prefixed buffer up to the first incomplete one; empty ones are skipped. */
  function SplitAvcc(data: seq<byte>): (nals: seq<Nal>)
    decreases |data|
  {
    if !StartsWithRecord(data) then []
    else
      var end := 4 + ReadLength(data[0], data[1], data[2], data[3]);
      (if end == 4 then [] else [data[4..end]]) + SplitAvcc(data[end..])
  }

  ghost predicate Fits(nals: seq<Nal>) {
    forall i | 0 <= i < |nals| :: |nals[i]| < 0x1_0000_0000
  }

  function PrintAvcc(nals: seq<Nal>): seq<byte>
    requires Fits(nals)
  {
    if nals == [] then [] else LengthBytes(|nals[0]|) + nals[0] + PrintAvcc(nals[1..])
  }

  function NonEmpty(nals: seq<Nal>): seq<Nal> {
    if nals == [] then []
    else (if nals[0] == [] then [] else [nals[0]]) + NonEmpty(nals[1..])
  }

  lemma SplitRecord(nal: Nal, rest: seq<byte>)
    requires |nal| < 0x1_0000_0000
    ensures SplitAvcc(LengthBytes(|nal|) + nal + rest) == (if nal == [] then [] else [nal]) + SplitAvcc(rest)
  {
    var len := LengthBytes(|nal|);
    var data := len + nal + rest;
    assert data[0] == len[0] && data[1] == len[1] && data[2] == len[2] && data[3] == len[3];
    assert data[4..4 + |nal|] == nal && data[4 + |nal|..] == rest;
  }

  /** A well-formed buffer followed by anything splits into its records and the split of the rest. */
  lemma {:induction false} AvccSplitsAfter(nals: seq<Nal>, rest: seq<byte>)
    requires Fits(nals)
    ensures SplitAvcc(PrintAvcc(nals) + rest) == NonEmpty(nals) + SplitAvcc(rest)
  {
    if nals == [] {
      assert PrintAvcc(nals) + rest == rest;
    } else {
      var len, tail := LengthBytes(|nals[0]|), PrintAvcc(nals[1..]) + rest;
      assert PrintAvcc(nals) + rest == len + nals[0] + tail;
      SplitRecord(nals[0], tail);
      AvccSplitsAfter(nals[1..], rest);
    }
  }
}
