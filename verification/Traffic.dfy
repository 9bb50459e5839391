/**
 Traffic accounting (traffic.rs): counters sampled every second, their increments added to the
 session's totals and to the day's record, and sums over days. Dates are day numbers; how a date
 is written and read back is the calendar's business.
 */
module Traffic {
  import opened Bytes

  const U64_MAX: nat := 0xFFFF_FFFF_FFFF_FFFF

  type u64 = n: nat | n <= U64_MAX

  datatype DayTraffic = DayTraffic(sent: u64, recv: u64)

  type Days = map<string, DayTraffic>

  const NONE := DayTraffic(0, 0)
  const KEEP_DAYS := 62

  function Capped(n: nat): u64 {
    if n > U64_MAX then U64_MAX else n
  }

  /** 64-bit addition as in release builds. */
  function WrappingAdd(a: u64, b: u64): u64 {
    if a + b > U64_MAX then a + b - (U64_MAX + 1) else a + b
  }

  function SaturatingAdd(a: u64, b: u64): u64 {
    Capped(a + b)
  }

  /** Writing and reading dates; keys of one month share its prefix. */
  datatype Calendar = Calendar(key: int -> string, prefix: int -> string, parse: string -> Option<int>) {
    ghost predicate Valid() {
      && (forall d :: parse(key(d)) == Some(d))
      && (forall d :: prefix(d) <= key(d))
      && (forall now, k :: prefix(now) <= k && parse(k).Some? ==> now - parse(k).value <= 31)
    }
  }

  // ---------- Sums over days ----------

  function Sent(t: DayTraffic): nat { t.sent }

  function Recv(t: DayTraffic): nat { t.recv }

  ghost function Sum(days: Days, keys: set<string>, f: DayTraffic -> nat): nat
    requires keys <= days.Keys
  {
    if keys == {} then 0
    else
      var k :| k in keys;
      f(days[k]) + Sum(days, keys - {k}, f)
  }

  /** The order of addition does not matter. */
  lemma {:induction false} SumTakes(days: Days, keys: set<string>, f: DayTraffic -> nat, k: string)
    requires keys <= days.Keys && k in keys
    ensures Sum(days, keys, f) == f(days[k]) + Sum(days, keys - {k}, f)
    decreases |keys|
  {
    var first :| first in keys && Sum(days, keys, f) == f(days[first]) + Sum(days, keys - {first}, f);
    if first != k {
      SumTakes(days, keys - {first}, f, k);
      SumTakes(days, keys - {k}, f, first);
      assert keys - {first} - {k} == keys - {k} - {first};
    }
  }

  lemma {:induction false} SumGrows(days: Days, small: set<string>, large: set<string>, f: DayTraffic -> nat)
    requires small <= large <= days.Keys
    ensures Sum(days, small, f) <= Sum(days, large, f)
    decreases |large|
  {
    if small != large {
      var k :| k in large && k !in small;
      SumTakes(days, large, f, k);
      SumGrows(days, small, large - {k}, f);
    }
  }

  lemma {:induction false} SumSame(days: Days, days': Days, keys: set<string>, f: DayTraffic -> nat)
    requires keys <= days.Keys && keys <= days'.Keys && forall k | k in keys :: days[k] == days'[k]
    ensures Sum(days, keys, f) == Sum(days', keys, f)
    decreases |keys|
  {
    if keys == {} {
    } else {
      var k :| k in keys;
      SumTakes(days, keys, f, k);
      SumTakes(days', keys, f, k);
      SumSame(days, days', keys - {k}, f);
    }
  }

  function MonthKeys(cal: Calendar, days: Days, now: int): set<string> {
    set k | k in days && cal.prefix(now) <= k
  }

  /** The true sums over `keys`, each capped. */
  ghost function CappedSum(days: Days, keys: set<string>): DayTraffic
    requires keys <= days.Keys
  {
    DayTraffic(Capped(Sum(days, keys, Sent)), Capped(Sum(days, keys, Recv)))
  }

  lemma CappedStep(days: Days, keys: set<string>, k: string)
    requires keys <= days.Keys && k in days && k !in keys
    ensures CappedSum(days, keys + {k})
         == DayTraffic(SaturatingAdd(CappedSum(days, keys).sent, days[k].sent), SaturatingAdd(CappedSum(days, keys).recv, days[k].recv))
  {
    SumTakes(days, keys + {k}, Sent, k);
    SumTakes(days, keys + {k}, Recv, k);
    assert keys + {k} - {k} == keys;
  }

  lemma DoneStep(all: set<string>, todo: set<string>, k: string)
    requires k in todo
    ensures all - (todo - {k}) == if k in all then (all - todo) + {k} else all - todo
  {
  }

  function On(days: Days, key: string): DayTraffic {
    if key in days then days[key] else NONE
  }

  function Accumulated(days: Days, key: string, sent: u64, recv: u64): Days {
    days[key := DayTraffic(SaturatingAdd(On(days, key).sent, sent), SaturatingAdd(On(days, key).recv, recv))]
  }

  predicate Recent(cal: Calendar, now: int, key: string) {
    cal.parse(key).Some? && now - cal.parse(key).value <= KEEP_DAYS
  }

  function Pruned(cal: Calendar, days: Days, now: int): Days {
    map k | k in days && Recent(cal, now, k) :: days[k]
  }

  /** Days more than 62 days back go, as does what is no date; every other day stays as it is, one from a clock running ahead included. */
  lemma PrunesByAge(cal: Calendar, days: Days, now: int, day: int, key: string)
    requires cal.Valid()
    ensures cal.key(day) in Pruned(cal, days, now) <==> cal.key(day) in days && now - day <= 62
    ensures key in Pruned(cal, days, now) ==> key in days && Pruned(cal, days, now)[key] == days[key] && cal.parse(key).Some?
  {
    assert cal.parse(cal.key(day)) == Some(day);
  }

  class TrafficStats {
    var days: Days

    method Accumulate(cal: Calendar, now: int, sent: u64, recv: u64)
      modifies this
      ensures days == Accumulated(old(days), cal.key(now), sent, recv)
    {
      var key := cal.key(now);
      var entry := if key in days then days[key] else NONE;
      entry := entry.(sent := SaturatingAdd(entry.sent, sent));
      entry := entry.(recv := SaturatingAdd(entry.recv, recv));
      days := days[key := entry];
    }

    method Prune(cal: Calendar, now: int)
      modifies this
      ensures days == Pruned(cal, old(days), now)
    {
      days := map k | k in days && Recent(cal, now, k) :: days[k];
    }

    method Month(cal: Calendar, now: int) returns (acc: DayTraffic)
      ensures acc == CappedSum(days, MonthKeys(cal, days, now))
    {
      acc := NONE;
      var todo := days.Keys;
      ghost var month := MonthKeys(cal, days, now);
      assert month - todo == {};
      while todo != {}
        invariant todo <= days.Keys && acc == CappedSum(days, month - todo)
        decreases |todo|
      {
        var k :| k in todo;
        DoneStep(month, todo, k);
        if cal.prefix(now) <= k {
          CappedStep(days, month - todo, k);
          acc := DayTraffic(SaturatingAdd(acc.sent, days[k].sent), SaturatingAdd(acc.recv, days[k].recv));
        }
        todo := todo - {k};
      }
      assert month - todo == month;
    }

    method Total() returns (acc: DayTraffic)
      ensures acc == CappedSum(days, days.Keys)
    {
      acc := NONE;
      var todo := days.Keys;
      assert days.Keys - todo == {};
      while todo != {}
        invariant todo <= days.Keys && acc == CappedSum(days, days.Keys - todo)
        decreases |todo|
      {
        var k :| k in todo;
        CappedStep(days, days.Keys - todo, k);
        DoneStep(days.Keys, todo, k);
        acc := DayTraffic(SaturatingAdd(acc.sent, days[k].sent), SaturatingAdd(acc.recv, days[k].recv));
        todo := todo - {k};
      }
      assert days.Keys - todo == days.Keys;
    }
  }

  predicate AtMost(a: DayTraffic, b: DayTraffic) {
    a.sent <= b.sent && a.recv <= b.recv
  }

  /** Today is part of the month, and the month of everything. */
  lemma TodayMonthTotal(cal: Calendar, days: Days, now: int)
    requires cal.Valid()
    ensures AtMost(On(days, cal.key(now)), CappedSum(days, MonthKeys(cal, days, now)))
    ensures AtMost(CappedSum(days, MonthKeys(cal, days, now)), CappedSum(days, days.Keys))
  {
    var month, key := MonthKeys(cal, days, now), cal.key(now);
    SumGrows(days, month, days.Keys, Sent);
    SumGrows(days, month, days.Keys, Recv);
    if key in days {
      assert cal.prefix(now) <= key;
      SumTakes(days, month, Sent, key);
      SumTakes(days, month, Recv, key);
    }
  }

  /** Pruning leaves today and yesterday alone. */
  lemma PruneKeepsDays(cal: Calendar, days: Days, now: int)
    requires cal.Valid()
    ensures On(Pruned(cal, days, now), cal.key(now)) == On(days, cal.key(now))
    ensures On(Pruned(cal, days, now), cal.key(now - 1)) == On(days, cal.key(now - 1))
  {
    assert cal.parse(cal.key(now)) == Some(now) && cal.parse(cal.key(now - 1)) == Some(now - 1);
  }

  function Unreadable(cal: Calendar, days: Days, now: int): set<string> {
    set k | k in MonthKeys(cal, days, now) && cal.parse(k).None?
  }

  lemma {:induction false} SumSplit(days: Days, all: set<string>, part: set<string>, f: DayTraffic -> nat)
    requires part <= all <= days.Keys
    ensures Sum(days, all, f) == Sum(days, all - part, f) + Sum(days, part, f)
    decreases |part|
  {
    if part == {} {
      assert all - part == all;
    } else {
      var k :| k in part;
      SumTakes(days, all, f, k);
      SumTakes(days, part, f, k);
      SumSplit(days, all - {k}, part - {k}, f);
      assert all - {k} - (part - {k}) == all - part;
    }
  }

  /** The month loses exactly what stands under keys of this month that are no dates; a month's own days are recent. */
  lemma PruneAndMonth(cal: Calendar, days: Days, now: int, f: DayTraffic -> nat)
    requires cal.Valid()
    ensures var pruned := Pruned(cal, days, now);
            Sum(days, MonthKeys(cal, days, now), f) == Sum(pruned, MonthKeys(cal, pruned, now), f) + Sum(days, Unreadable(cal, days, now), f)
  {
    var pruned := Pruned(cal, days, now);
    var month, bad := MonthKeys(cal, days, now), Unreadable(cal, days, now);
    SumSplit(days, month, bad, f);
    assert MonthKeys(cal, pruned, now) == month - bad;
    SumSame(days, pruned, month - bad, f);
  }

  /** With dates as keys, as `accumulate` writes them, pruning leaves the month alone. */
  lemma PruneKeepsMonth(cal: Calendar, days: Days, now: int)
    requires cal.Valid() && Unreadable(cal, days, now) == {}
    ensures var pruned := Pruned(cal, days, now);
            CappedSum(pruned, MonthKeys(cal, pruned, now)) == CappedSum(days, MonthKeys(cal, days, now))
  {
    PruneAndMonth(cal, days, now, Sent);
    PruneAndMonth(cal, days, now, Recv);
  }

  /** What is added to a day is added to the sum over all days, up to the cap of that day. */
  lemma AccumulateAdds(days: Days, key: string, sent: u64, recv: u64)
    requires On(days, key).sent + sent <= U64_MAX && On(days, key).recv + recv <= U64_MAX
    ensures var after := Accumulated(days, key, sent, recv);
            && Sum(after, after.Keys, Sent) == Sum(days, days.Keys, Sent) + sent
            && Sum(after, after.Keys, Recv) == Sum(days, days.Keys, Recv) + recv
  {
    var after := Accumulated(days, key, sent, recv);
    var others := days.Keys - {key};
    assert after.Keys == others + {key} && after.Keys - {key} == others;
    SumTakes(after, after.Keys, Sent, key);
    SumTakes(after, after.Keys, Recv, key);
    SumSame(days, after, others, Sent);
    SumSame(days, after, others, Recv);
    if key in days {
      SumTakes(days, days.Keys, Sent, key);
      SumTakes(days, days.Keys, Recv, key);
    } else {
      assert others == days.Keys;
    }
  }

  // ---------- The monitor ----------

  datatype Sample = Sample(up: u64, down: u64)

  function Delta(a: u64, b: u64): u64 {
    if b >= a then b - a else 0
  }

  /** The increments of one tick; none while a sample is missing. */
  function Increment(last: Option<Sample>, current: Option<Sample>): Sample {
    if last.Some? && current.Some? then Sample(Delta(last.value.up, current.value.up), Delta(last.value.down, current.value.down))
    else Sample(0, 0)
  }

  function Up(s: Sample): u64 { s.up }

  function Down(s: Sample): u64 { s.down }

  /** What the increments of one counter add up to over a list of samples. */
  function Counted(samples: seq<Option<Sample>>, counter: Sample -> u64): nat {
    if |samples| < 2 then 0
    else Counted(samples[..|samples| - 1], counter) + counter(Increment(samples[|samples| - 2], samples[|samples| - 1]))
  }

  /** The session's running total, which wraps. */
  function SessionTotal(samples: seq<Option<Sample>>, counter: Sample -> u64): u64 {
    if |samples| < 2 then 0
    else WrappingAdd(SessionTotal(samples[..|samples| - 1], counter), counter(Increment(samples[|samples| - 2], samples[|samples| - 1])))
  }

  /** It is the true total but for whole multiples of 2^64: exact as long as the total fits. */
  lemma {:induction false} SessionTotalWraps(samples: seq<Option<Sample>>, counter: Sample -> u64) returns (wraps: nat)
    ensures Counted(samples, counter) == SessionTotal(samples, counter) + wraps * (U64_MAX + 1)
    ensures SessionTotal(samples, counter) == Counted(samples, counter) <==> Counted(samples, counter) <= U64_MAX
    decreases |samples|
  {
    if |samples| < 2 {
      wraps := 0;
    } else {
      var front := samples[..|samples| - 1];
      wraps := SessionTotalWraps(front, counter);
      if SessionTotal(front, counter) + counter(Increment(samples[|samples| - 2], samples[|samples| - 1])) > U64_MAX {
        wraps := wraps + 1;
      }
    }
  }

  /** A tick with a sample missing on either side counts nothing, and a counter that went back counts nothing. */
  lemma OnlyRisesCount(samples: seq<Option<Sample>>, last: Option<Sample>, current: Option<Sample>)
    requires last.None? || current.None? || (current.value.up <= last.value.up && current.value.down <= last.value.down)
    ensures Counted(samples + [last] + [current], Up) == Counted(samples + [last], Up)
    ensures Counted(samples + [last] + [current], Down) == Counted(samples + [last], Down)
  {
    var all := samples + [last] + [current];
    assert all[..|all| - 1] == samples + [last] && all[|all| - 2] == last;
  }

  predicate AllSeen(samples: seq<Option<Sample>>) {
    forall i | 0 <= i < |samples| :: samples[i].Some?
  }

  /** How far a counter fell over a list of samples, all falls together. */
  function Fallen(samples: seq<Option<Sample>>, counter: Sample -> u64): nat
    requires AllSeen(samples)
  {
    if |samples| < 2 then 0
    else
      var before, after := counter(samples[|samples| - 2].value), counter(samples[|samples| - 1].value);
      Fallen(samples[..|samples| - 1], counter) + if after < before then before - after else 0
  }

  predicate NeverBack(samples: seq<Option<Sample>>, counter: Sample -> u64)
    requires AllSeen(samples)
  {
    forall i | 0 < i < |samples| :: counter(samples[i - 1].value) <= counter(samples[i].value)
  }

  /** Seen without gaps, a total is last minus first plus all the falls, and so equals that difference exactly when its counter never went back. */
  lemma {:induction false} Telescopes(samples: seq<Option<Sample>>, counter: Sample -> u64)
    requires samples != [] && AllSeen(samples) && (counter == Up || counter == Down)
    ensures var total, gain := Counted(samples, counter), counter(samples[|samples| - 1].value) - counter(samples[0].value);
            total == gain + Fallen(samples, counter) && (total == gain <==> NeverBack(samples, counter))
    decreases |samples|
  {
    if |samples| == 1 {
    } else {
      var front, last := samples[..|samples| - 1], |samples| - 1;
      Telescopes(front, counter);
      assert NeverBack(samples, counter) <==> NeverBack(front, counter) && counter(samples[last - 1].value) <= counter(samples[last].value);
    }
  }

  // ---------- Days over a run of the monitor ----------

  /** One tick of the monitor; every sixtieth prunes. */
  function Ticked(cal: Calendar, days: Days, now: int, gain: Sample, tick: nat): Days {
    var added := Accumulated(days, cal.key(now), gain.up, gain.down);
    if tick % 60 == 0 then Pruned(cal, added, now) else added
  }

  function DaysAfter(cal: Calendar, days: Days, samples: seq<Option<Sample>>, dates: seq<int>): Days
    requires |samples| == |dates| + 1
    decreases |dates|
  {
    if dates == [] then days
    else
      var n := |dates|;
      Ticked(cal, DaysAfter(cal, days, samples[..n], dates[..n - 1]), dates[n - 1], Increment(samples[n - 1], samples[n]), n)
  }

  lemma TickStep(cal: Calendar, days: Days, samples: seq<Option<Sample>>, dates: seq<int>)
    requires |samples| == |dates| + 1 && dates != []
    ensures var n := |dates|;
            var gain := Increment(samples[n - 1], samples[n]);
            && DaysAfter(cal, days, samples, dates) == Ticked(cal, DaysAfter(cal, days, samples[..n], dates[..n - 1]), dates[n - 1], gain, n)
            && SessionTotal(samples, Up) == WrappingAdd(SessionTotal(samples[..n], Up), gain.up)
            && SessionTotal(samples, Down) == WrappingAdd(SessionTotal(samples[..n], Down), gain.down)
  {
  }

  /** The session's totals wrap, the days saturate. `samples[0]` is taken before the loop, the others one per tick. */
  method Monitor(stats: TrafficStats, cal: Calendar, samples: seq<Option<Sample>>, dates: seq<int>) returns (up: u64, down: u64)
    requires |samples| == |dates| + 1
    modifies stats
    ensures up == SessionTotal(samples, Up) && down == SessionTotal(samples, Down)
    ensures stats.days == DaysAfter(cal, old(stats.days), samples, dates)
  {
    up, down := 0, 0;
    var last := samples[0];
    for k := 0 to |dates|
      invariant last == samples[k]
      invariant up == SessionTotal(samples[..k + 1], Up) && down == SessionTotal(samples[..k + 1], Down)
      invariant stats.days == DaysAfter(cal, old(stats.days), samples[..k + 1], dates[..k])
    {
      var current := samples[k + 1];
      var gain := Sample(0, 0);
      if last.Some? && current.Some? {
        gain := Sample(Delta(last.value.up, current.value.up), Delta(last.value.down, current.value.down));
      }
      last := current;
      up, down := WrappingAdd(up, gain.up), WrappingAdd(down, gain.down);
      stats.Accumulate(cal, dates[k], gain.up, gain.down);
      if (k + 1) % 60 == 0 {
        stats.Prune(cal, dates[k]);
      }
      TickStep(cal, old(stats.days), samples[..k + 2], dates[..k + 1]);
      assert samples[..k + 2][..k + 1] == samples[..k + 1] && dates[..k + 1][..k] == dates[..k];
    }
    assert samples[..|dates| + 1] == samples && dates[..|dates|] == dates;
  }

  /** What pruning has taken away during the run. */
  ghost function PrunedAway(cal: Calendar, days: Days, samples: seq<Option<Sample>>, dates: seq<int>, f: DayTraffic -> nat): nat
    requires |samples| == |dates| + 1
    decreases |dates|
  {
    if dates == [] then 0
    else
      var n := |dates|;
      var before := DaysAfter(cal, days, samples[..n], dates[..n - 1]);
      var gain := Increment(samples[n - 1], samples[n]);
      var added := Accumulated(before, cal.key(dates[n - 1]), gain.up, gain.down);
      var kept := Pruned(cal, added, dates[n - 1]);
      PrunedAway(cal, days, samples[..n], dates[..n - 1], f) + if n % 60 == 0 then Sum(added, added.Keys - kept.Keys, f) else 0
  }

  lemma PruneAccounts(cal: Calendar, days: Days, now: int, f: DayTraffic -> nat)
    ensures var kept := Pruned(cal, days, now);
            Sum(days, days.Keys, f) == Sum(kept, kept.Keys, f) + Sum(days, days.Keys - kept.Keys, f)
  {
    var kept := Pruned(cal, days, now);
    SumSplit(days, days.Keys, days.Keys - kept.Keys, f);
    assert days.Keys - (days.Keys - kept.Keys) == kept.Keys;
    SumSame(days, kept, kept.Keys, f);
  }

  lemma DayWithinSum(days: Days, key: string)
    ensures On(days, key).sent <= Sum(days, days.Keys, Sent) && On(days, key).recv <= Sum(days, days.Keys, Recv)
  {
    if key in days {
      SumTakes(days, days.Keys, Sent, key);
      SumTakes(days, days.Keys, Recv, key);
    }
  }

  /** Short of the cap, the days hold what they held, plus what the session counted, minus what pruning took. */
  lemma {:induction false} DaysMatchSession(cal: Calendar, days: Days, samples: seq<Option<Sample>>, dates: seq<int>)
    requires |samples| == |dates| + 1
    requires Sum(days, days.Keys, Sent) + Counted(samples, Up) <= U64_MAX && Sum(days, days.Keys, Recv) + Counted(samples, Down) <= U64_MAX
    ensures var after := DaysAfter(cal, days, samples, dates);
            && Sum(after, after.Keys, Sent) + PrunedAway(cal, days, samples, dates, Sent) == Sum(days, days.Keys, Sent) + Counted(samples, Up)
            && Sum(after, after.Keys, Recv) + PrunedAway(cal, days, samples, dates, Recv) == Sum(days, days.Keys, Recv) + Counted(samples, Down)
    decreases |dates|
  {
    if dates == [] {
    } else {
      var n := |dates|;
      var now := dates[n - 1];
      DaysMatchSession(cal, days, samples[..n], dates[..n - 1]);
      var before := DaysAfter(cal, days, samples[..n], dates[..n - 1]);
      var gain := Increment(samples[n - 1], samples[n]);
      DayWithinSum(before, cal.key(now));
      AccumulateAdds(before, cal.key(now), gain.up, gain.down);
      var added := Accumulated(before, cal.key(now), gain.up, gain.down);
      PruneAccounts(cal, added, now, Sent);
      PruneAccounts(cal, added, now, Recv);
    }
  }
}
