/**
 The branch and guard structure of `dump_jit_profile_info`
 (accel/tcg/tb-stats.c). Printing is replaced by the values each report line
 would show, with exact `real` arithmetic in place of `double`.
 */
module ProfileDump {
  import opened Wrappers
  import opened TbStats
  import opened JitProfile
  import opened CollectionMode

  /** The compile-time counters the report reads from the translator's profile. */
  datatype TcgProfile = TcgProfile(
    intermTime: int,
    codeTime: int,
    optTime: int,
    laTime: int,
    restoreCount: int,
    restoreTime: int)

  /** `den ? (double)num / den : 0` */
  function GuardedRatio(num: int, den: int): (r: real)
    ensures den != 0 ==> r * den as real == num as real
    ensures den == 0 ==> r == 0.0
  {
    if den != 0 then num as real / den as real else 0.0
  }

  /** A denominator with 0 replaced by 1, as done for `tot` and `code_time`. */
  function OrOne(x: int): (r: int)
    ensures r != 0
    ensures x != 0 ==> r == x
  {
    if x == 0 then 1 else x
  }

  /** `(double)num / den * 100.0` */
  function Percent(num: int, den: int): (r: real)
    requires den != 0
    ensures r * den as real == num as real * 100.0
  {
    num as real / den as real * 100.0
  }

  /** The timing lines of the report, shown only when a profile is given. */
  datatype JitTiming = JitTiming(
    cycles: int,
    cyclesPerOp: real,
    cyclesPerInByte: real,
    cyclesPerOutByte: real,
    cyclesPerSearchByte: real,
    intermPercent: real,
    codePercent: real,
    optPercent: real,
    livenessPercent: real,
    restoreCount: int,
    avgRestoreCycles: real)

  /**
   The timing lines. The per-byte and per-op ratios use the cycle total as
   computed and are 0 when their denominator is 0; the phase percentages
   divide by the total with 0 replaced by 1, and the optimisation and
   liveness shares divide by the code-generation time with 0 replaced by 1.
   */
  function TimingOf(jpi: JitProfileInfo, s: TcgProfile): (t: JitTiming)
    ensures t.cycles == s.intermTime + s.codeTime
    ensures jpi.ops == 0 ==> t.cyclesPerOp == 0.0
    ensures jpi.ops != 0 ==> t.cyclesPerOp * jpi.ops as real == t.cycles as real
    ensures jpi.guest == 0 ==> t.cyclesPerInByte == 0.0
    ensures jpi.guest != 0 ==> t.cyclesPerInByte * jpi.guest as real == t.cycles as real
    ensures jpi.host == 0 ==> t.cyclesPerOutByte == 0.0
    ensures jpi.host != 0 ==> t.cyclesPerOutByte * jpi.host as real == t.cycles as real
    ensures jpi.searchData == 0 ==> t.cyclesPerSearchByte == 0.0
    ensures jpi.searchData != 0 ==> t.cyclesPerSearchByte * jpi.searchData as real == t.cycles as real
    ensures t.intermPercent * OrOne(t.cycles) as real == s.intermTime as real * 100.0
    ensures t.codePercent * OrOne(t.cycles) as real == s.codeTime as real * 100.0
    ensures t.cycles != 0 ==> t.intermPercent + t.codePercent == 100.0
    ensures t.cycles == 0 ==> t.intermPercent + t.codePercent == 0.0
    ensures s.codeTime != 0 ==> t.optPercent * s.codeTime as real == s.optTime as real * 100.0
    ensures s.codeTime == 0 ==> t.optPercent == s.optTime as real * 100.0
    ensures s.codeTime != 0 ==> t.livenessPercent * s.codeTime as real == s.laTime as real * 100.0
    ensures s.codeTime == 0 ==> t.livenessPercent == s.laTime as real * 100.0
    ensures t.restoreCount == s.restoreCount
    ensures s.restoreCount == 0 ==> t.avgRestoreCycles == 0.0
    ensures s.restoreCount != 0 ==> t.avgRestoreCycles * s.restoreCount as real == s.restoreTime as real
  {
    var tot := s.intermTime + s.codeTime;
    var pctDen := OrOne(tot);
    var codeDen := OrOne(s.codeTime);
    var interm := Percent(s.intermTime, pctDen);
    var code := Percent(s.codeTime, pctDen);
    PercentShares(s.intermTime, s.codeTime, pctDen, interm, code);
    JitTiming(
      tot,
      GuardedRatio(tot, jpi.ops),
      GuardedRatio(tot, jpi.guest),
      GuardedRatio(tot, jpi.host),
      GuardedRatio(tot, jpi.searchData),
      interm,
      code,
      Percent(s.optTime, codeDen),
      Percent(s.laTime, codeDen),
      s.restoreCount,
      GuardedRatio(s.restoreTime, s.restoreCount))
  }

  /** Two parts of a nonzero whole, as percentages of it, add up to a hundred. */
  lemma PercentShares(a: int, b: int, den: int, pa: real, pb: real)
    requires den != 0
    requires pa * den as real == a as real * 100.0
    requires pb * den as real == b as real * 100.0
    ensures a + b == den ==> pa + pb == 100.0
    ensures a + b == 0 && den == 1 ==> pa + pb == 0.0
  {
    var d := den as real;
    assert (pa + pb) * d == (a + b) as real * 100.0;
    if a + b == den {
      var x := pa + pb - 100.0;
      assert x * d == 0.0;
      assert x == x * d / d;
    }
  }

  /** The lines printed when at least one translation was counted. */
  datatype JitSummary = JitSummary(
    translations: nat,
    avgOps: real,
    opsMax: nat,
    avgDelOps: real,
    avgTemps: real,
    tempsMax: nat,
    avgHost: real,
    avgSearchData: real,
    timing: Option<JitTiming>)

  /** What a call of the dump does. */
  datatype DumpOutcome =
    | NotCollecting                              // returned before allocating or iterating
    | NothingTranslated                          // iterated, printed nothing
    | Reported(info: JitProfileInfo, summary: JitSummary)

  /** The timing lines, present exactly when a profile is given. */
  function TimingLines(jpi: JitProfileInfo, s: Option<TcgProfile>): (t: Option<JitTiming>)
    ensures t.Some? <==> s.Some?
    ensures s.Some? ==> t == Some(TimingOf(jpi, s.value))
  {
    if s.Some? then Some(TimingOf(jpi, s.value)) else None
  }

  function SummaryOf(jpi: JitProfileInfo, s: Option<TcgProfile>): (r: JitSummary)
    requires jpi.translations > 0
    ensures r.translations == jpi.translations
    ensures r.opsMax == jpi.opsMax && r.tempsMax == jpi.tempsMax
    ensures r.avgOps * jpi.translations as real == jpi.ops as real
    ensures r.avgDelOps * jpi.translations as real == jpi.delOps as real
    ensures r.avgTemps * jpi.translations as real == jpi.temps as real
    ensures r.avgHost * jpi.translations as real == jpi.host as real
    ensures r.avgSearchData * jpi.translations as real == jpi.searchData as real
    ensures r.timing.Some? <==> s.Some?
    ensures s.Some? ==> r.timing == Some(TimingOf(jpi, s.value))
  {
    var n := jpi.translations;
    var avgOps, avgDelOps, avgTemps := GuardedRatio(jpi.ops, n), GuardedRatio(jpi.delOps, n), GuardedRatio(jpi.temps, n);
    var avgHost, avgSearchData := GuardedRatio(jpi.host, n), GuardedRatio(jpi.searchData, n);
    var timing := TimingLines(jpi, s);
    JitSummary(n, avgOps, jpi.opsMax, avgDelOps, avgTemps, jpi.tempsMax, avgHost, avgSearchData, timing)
  }

  /**
   `dump_jit_profile_info(s)`, given the order `visit` in which the store's
   entries are enumerated. Nothing happens unless collection is running; the
   summary appears only when some translation was counted. When the store
   exists, `visit` enumerates exactly its entries.
   */
  function DumpJitProfileInfo(g: StatsGlobals, visit: seq<TBStatistics>, spt: PerTranslation, s: Option<TcgProfile>): (r: DumpOutcome)
    requires g.store.Some? ==> multiset(visit) == g.store.value
    ensures r.NotCollecting? <==> !CollectionEnabled(g)
    ensures r.NothingTranslated? <==> CollectionEnabled(g) && SumOf(visit, TranslationsTotal) == 0
    ensures r.Reported? ==> r.info.translations == SumOf(visit, TranslationsTotal) > 0
    ensures r.Reported? ==> forall c :: Total(r.info, c) == SumOf(visit, c)
    ensures r.Reported? ==> r.info.aborted == 0
    ensures r.Reported? ==> IsRunningMax(r.info.opsMax, 0, spt, visit, NumTcgOps)
    ensures r.Reported? ==> IsRunningMax(r.info.tempsMax, 0, spt, visit, Temps)
    ensures r.Reported? ==> r.summary == SummaryOf(r.info, s)
  {
    if !CollectionEnabled(g) then NotCollecting
    else
      var jpi := CollectJitProfile(spt, visit);
      assert jpi.translations == Total(jpi, TranslationsTotal);
      assert jpi.ops == Total(jpi, NumTcgOps);
      if jpi.translations != 0 then Reported(jpi, SummaryOf(jpi, s)) else NothingTranslated
  }

  /** The dump shows the same thing whatever order the store is enumerated in. */
  lemma DumpOrderIndependent(g: StatsGlobals, a: seq<TBStatistics>, b: seq<TBStatistics>, spt: PerTranslation, s: Option<TcgProfile>)
    requires g.store.Some? ==> multiset(a) == g.store.value
    requires multiset(a) == multiset(b)
    ensures DumpJitProfileInfo(g, a, spt, s) == DumpJitProfileInfo(g, b, spt, s)
  {
    CollectAllOrderIndependent(spt, Zeroed, a, b);
  }

  /** After disabling or pausing, the dump does nothing, whatever the store holds. */
  lemma DumpSilentUnlessRunning(g: StatsGlobals, visit: seq<TBStatistics>, spt: PerTranslation, s: Option<TcgProfile>)
    requires g.store.Some? ==> multiset(visit) == g.store.value
    ensures DumpJitProfileInfo(Disable(g), visit, spt, s) == NotCollecting
    ensures DumpJitProfileInfo(Pause(g), visit, spt, s) == NotCollecting
  {
  }

  /** After enabling with a created but empty store, the dump iterates and prints nothing. */
  lemma DumpEmptyStoreSilent(g: StatsGlobals, visit: seq<TBStatistics>, spt: PerTranslation, s: Option<TcgProfile>)
    requires g.store == Some(multiset{})
    requires multiset(visit) == g.store.value
    ensures DumpJitProfileInfo(Enable(g), visit, spt, s) == NothingTranslated
  {
    assert |visit| == |multiset(visit)| == 0;
  }
}
