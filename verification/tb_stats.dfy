/**
 Per-block statistics records of the binary translator (include/exec/tb-stats.h):
 the ranking criteria, the per-entry flag bits, the `TBStatistics` record with its
 hash key, and the `tb_stats_enabled` test.
 */
module TbStats {
  import opened Wrappers

  /** Ranking criteria of the hottest-blocks listing, in declaration order. */
  datatype SortBy = SortByHotness | SortByHostGuest | SortBySpills

  /** The integer value C gives each enumerator. */
  function SortByCode(s: SortBy): (n: nat)
    ensures n < 3
  {
    match s
    case SortByHotness => 0
    case SortByHostGuest => 1
    case SortBySpills => 2
  }

  /** The criterion an integer names, if any (the listing receives `int sort_by`). */
  function SortByFromCode(n: int): (r: Option<SortBy>)
    ensures r.Some? <==> 0 <= n < 3
    ensures r.Some? ==> SortByCode(r.value) == n
  {
    if n == 0 then Some(SortByHotness)
    else if n == 1 then Some(SortByHostGuest)
    else if n == 2 then Some(SortBySpills)
    else None
  }

  /** Every criterion survives the trip through its integer code, so the three are distinct. */
  lemma SortByCodeRoundTrip(s: SortBy, t: SortBy)
    ensures SortByFromCode(SortByCode(s)) == Some(s)
    ensures SortByCode(s) == SortByCode(t) <==> s == t
  {
  }

  /** Per-entry flag bits (`stats_enabled`). */
  const TbNothing: bv32 := 0
  const TbExecStats: bv32 := 1 << 1
  const TbJitStats: bv32 := 1 << 2
  const TbPaused: bv32 := 1 << 3

  /** The three named flags. */
  datatype StatsFlag = ExecStats | JitStats | PausedMarker

  predicate IsSingleBit(x: bv32) {
    x != 0 && x & (x - 1) == 0
  }

  /** The bit each named flag occupies. */
  function FlagBit(f: StatsFlag): (b: bv32)
    ensures IsSingleBit(b)
  {
    match f
    case ExecStats => TbExecStats
    case JitStats => TbJitStats
    case PausedMarker => TbPaused
  }

  /** Two flags share a bit exactly when they are the same flag. */
  lemma FlagBitsDistinct(f: StatsFlag, g: StatsFlag)
    ensures FlagBit(f) & FlagBit(g) != 0 <==> f == g
  {
  }

  datatype TranslationCounts = TranslationCounts(total: nat, uncached: nat, spanning: nat)

  datatype ExecutionCounts = ExecutionCounts(total: nat, atomic: nat)

  datatype CodeStats = CodeStats(
    numGuestInst: nat,
    numHostInst: nat,
    numTcgOps: nat,
    numTcgOpsOpt: nat,
    spills: nat,
    temps: nat,
    deletedOps: nat,
    inLen: nat,
    outLen: nat,
    searchOutLen: nat)

  /** Statistics of every translation of one guest block identity. */
  datatype TBStatistics = TBStatistics(
    physPc: nat,
    pc: nat,
    flags: bv32,
    csBase: nat,
    statsEnabled: bv32,
    translations: TranslationCounts,
    executions: ExecutionCounts,
    code: CodeStats,
    displayId: int)

  /** The part of an entry's identity that is hashed. */
  datatype TbKey = TbKey(physPc: nat, pc: nat, flags: bv32)

  /** The hashed key of an entry: its two addresses and compile flags, nothing else. */
  function HashKey(e: TBStatistics): (k: TbKey)
    ensures k.physPc == e.physPc && k.pc == e.pc && k.flags == e.flags
  {
    TbKey(e.physPc, e.pc, e.flags)
  }

  /**
   The equality test of the store (`tb_stats_cmp`), whose body is not part of
   this model: as the record's own comment says, it checks `cs_base` on top of
   the hashed key. Identity is exactly the hash key together with `cs_base`.
   */
  function SameBlock(a: TBStatistics, b: TBStatistics): (r: bool)
    ensures r <==> HashKey(a) == HashKey(b) && a.csBase == b.csBase
  {
    a.physPc == b.physPc && a.pc == b.pc && a.flags == b.flags && a.csBase == b.csBase
  }

  /** Whatever function hashes the key, entries of the same block hash alike. */
  lemma SameBlockHashesAlike(hash: TbKey -> bv32, a: TBStatistics, b: TBStatistics)
    requires SameBlock(a, b)
    ensures hash(HashKey(a)) == hash(HashKey(b))
  {
  }

  /** Entries that differ only in `cs_base` collide in the hash but are different blocks. */
  lemma CsBaseOnlyInEquality(hash: TbKey -> bv32, a: TBStatistics, csBase: nat)
    requires csBase != a.csBase
    ensures hash(HashKey(a.(csBase := csBase))) == hash(HashKey(a))
    ensures !SameBlock(a, a.(csBase := csBase))
  {
  }

  /** A translated block, reduced to its link to a statistics entry. */
  datatype TranslationBlock = TranslationBlock(tbStats: Option<TBStatistics>)

  /** `tb_stats_enabled(tb, mask)`: both pointers present and some bit of `mask` set. */
  function StatsEnabled(tb: Option<TranslationBlock>, mask: bv32): (r: bool)
    ensures r ==> tb.Some? && tb.value.tbStats.Some?
    ensures tb.Some? && tb.value.tbStats.Some? ==>
              (r <==> HasAnyBit(tb.value.tbStats.value.statsEnabled, mask))
  {
    tb.Some? && tb.value.tbStats.Some? && HasAnyBit(tb.value.tbStats.value.statsEnabled, mask)
  }

  /** Some bit of `mask` is set in `x`. */
  predicate HasAnyBit(x: bv32, mask: bv32) {
    (x & mask) != 0
  }

  /** Without a block, or without its statistics entry, no mask is enabled. */
  lemma AbsentNeverEnabled(tb: Option<TranslationBlock>, mask: bv32)
    requires tb.None? || tb.value.tbStats.None?
    ensures !StatsEnabled(tb, mask)
  {
  }

  /** With an entry present, asking about several bits at once asks whether any one of them is enabled. */
  lemma StatsEnabledUnion(tb: Option<TranslationBlock>, m1: bv32, m2: bv32)
    ensures StatsEnabled(tb, m1 | m2) <==> StatsEnabled(tb, m1) || StatsEnabled(tb, m2)
  {
    if tb.Some? && tb.value.tbStats.Some? {
      MaskUnion(tb.value.tbStats.value.statsEnabled, m1, m2);
    }
  }

  lemma MaskUnion(x: bv32, m1: bv32, m2: bv32)
    ensures HasAnyBit(x, m1 | m2) <==> HasAnyBit(x, m1) || HasAnyBit(x, m2)
  {
    assert x & (m1 | m2) == (x & m1) | (x & m2);
  }

  /** An entry flagged with nothing, or only with the paused marker, collects neither kind of statistics. */
  lemma NothingOrPausedCollectsNothing(tb: Option<TranslationBlock>)
    requires tb.Some? && tb.value.tbStats.Some?
    requires tb.value.tbStats.value.statsEnabled in {TbNothing, TbPaused}
    ensures !StatsEnabled(tb, TbExecStats) && !StatsEnabled(tb, TbJitStats)
    ensures StatsEnabled(tb, TbPaused) <==> tb.value.tbStats.value.statsEnabled == TbPaused
  {
  }
}
