# Translation-block statistics: profile fold, collection mode, entry flags

A Dafny model of the core of the translation-block statistics layer of a
binary translator: the per-block `TBStatistics` record with its hash key and
flag bits, the `collect_jit_profile_info` fold that reduces every entry of the
statistics store into one `jit_profile_info` record, the branch and guard
structure of `dump_jit_profile_info`, and the collection-mode setters and
predicates together with the lazy creation of the store.

Modules, one per concern:

- `Wrappers` (`wrappers.dfy`): `Option`, standing for a pointer that may be NULL.
- `TbStats` (`tb_stats.dfy`): include/exec/tb-stats.h — `SortBy`, the flag
  bits, `TBStatistics`, its hash key and identity, `tb_stats_enabled`.
- `JitProfile` (`jit_profile.dfy`): the accumulator and the fold, its sums,
  maxima and independence from the visiting order.
- `CollectionMode` (`collection_mode.dfy`): the mode, the store's existence,
  the setters, the predicates and `get_default_tbstats_flag`.
- `ProfileDump` (`profile_dump.dfy`): which report `dump_jit_profile_info`
  produces, the values of its lines, and the guarded denominators.

The setters are modelled as written: `disable_collect_tb_stats` sets the
paused mode, `pause_collect_tb_stats` sets the stopped mode, and
`enable_collect_tb_stats` asks whether to create the store before it sets the
running mode, so the store is created only if collection was already running.

`dump_jit_profile_info` prints no average guest byte length; the guest byte
sum is only the denominator of the cycles per input byte.

`stat_per_translation` is not defined in tb-stats.c or tb-stats.h; the fold takes it as
a parameter `spt` of type `(TBStatistics, Counter) -> nat`, and every property
holds whatever it computes. The translator's `TCGProfile` is an input record
of integers, `TcgProfile`. The order in which `qht_iter` visits the store is a
parameter `visit`, which enumerates exactly the store's entries when the
store exists; the order-independence lemmas show that the result is the
same for every order of the same entries.

## Model

| member | source | states |
|---|---|---|
| TbStats.SortByCode | include/exec/tb-stats.h:8 | every ranking criterion has an enumerator value below 3 |
| TbStats.SortByFromCode | include/exec/tb-stats.h:8 | an integer names a criterion exactly when it is 0, 1 or 2, and decoding inverts the enumerator value |
| TbStats.SortByCodeRoundTrip | include/exec/tb-stats.h:8 | every criterion survives encoding and decoding, and the three criteria have distinct values |
| TbStats.FlagBit | include/exec/tb-stats.h:10-13 | EXEC, JIT and PAUSED each occupy a single bit, so none of them is TB_NOTHING (0) |
| TbStats.FlagBitsDistinct | include/exec/tb-stats.h:11-13 | two flag bits overlap exactly when they are the same flag |
| TbStats.HashKey | include/exec/tb-stats.h:28-33 | the hashed key carries the two addresses and the compile flags of an entry, so cs_base, the flag mask, the counters and the display id do not enter the hash |
| TbStats.SameBlock | include/exec/tb-stats.h:32-33 | the store's equality test: two entries are the same block exactly when their hashed keys and their cs_base agree |
| TbStats.SameBlockHashesAlike | include/exec/tb-stats.h:28-33 | for any hash function over the key, entries of the same block hash alike |
| TbStats.CsBaseOnlyInEquality | include/exec/tb-stats.h:32-33 | entries differing only in cs_base hash alike but are different blocks |
| TbStats.StatsEnabled | include/exec/tb-stats.h:15-16 | a mask is enabled only when the block and its entry are both present, and then exactly when the entry's flags share a bit with the mask |
| TbStats.AbsentNeverEnabled | include/exec/tb-stats.h:15-16 | with no block or no statistics entry, no mask is enabled |
| TbStats.StatsEnabledUnion | include/exec/tb-stats.h:15-16 | a mask of several bits is enabled exactly when one of its parts is |
| TbStats.NothingOrPausedCollectsNothing | include/exec/tb-stats.h:10-16 | an entry flagged TB_NOTHING or only TB_PAUSED has neither EXEC nor JIT statistics enabled |
| JitProfile.Collect | accel/tcg/tb-stats.c:25-43 | one visit advances each of the seven sums by its entry field, leaves `aborted` alone, and moves each maximum to the larger of itself and the entry's per-translation value |
| JitProfile.CollectAll | accel/tcg/tb-stats.c:25-43 | after visiting a sequence, each maximum is at least its start and every entry's per-translation value, and is the start or one of those values; `aborted` is unchanged |
| JitProfile.CollectAllSums | accel/tcg/tb-stats.c:30-42 | after the fold each sum is its start plus the sum of its source field over all visited entries |
| JitProfile.SumOfPermutation | accel/tcg/tb-stats.c:30-42 | a field's sum over the entries is the same for every visiting order |
| JitProfile.RunningMaxUnique | accel/tcg/tb-stats.c:32-38 | two running maxima from the same start over the same entries in any orders agree |
| JitProfile.CollectAllOrderIndependent | accel/tcg/tb-stats.c:25-43 | the fold's whole result is the same for any two visiting orders of the same entries |
| JitProfile.CollectJitProfile | accel/tcg/tb-stats.c:52-54 | from the zeroed record: each sum equals the sum of its field over the store, each maximum bounds every entry's value and is 0 or one of them, `aborted` is 0 |
| CollectionMode.CollectionEnabled | accel/tcg/tb-stats.c:126-129 | collection is enabled exactly in the running mode |
| CollectionMode.CollectionPaused | accel/tcg/tb-stats.c:131-134 | collection is paused exactly in the paused mode |
| CollectionMode.EnabledAndPausedExclusive | accel/tcg/tb-stats.c:126-134 | enabled holds exactly in the running mode, paused exactly in the paused mode, never both |
| CollectionMode.InitStoreIfNot | accel/tcg/tb-stats.c:102-108 | the store exists afterwards exactly when it existed or collection is running; an existing store is never replaced; a new one is empty; mode and default flag unchanged |
| CollectionMode.InitStoreIdempotent | accel/tcg/tb-stats.c:102-108 | creating the store twice is the same as once |
| CollectionMode.Enable | accel/tcg/tb-stats.c:110-114 | afterwards collection is enabled and not paused; the store exists exactly when it existed or collection was already running; a store it creates is empty; default flag unchanged |
| CollectionMode.Disable | accel/tcg/tb-stats.c:116-119 | afterwards collection is paused and not enabled; store and default flag unchanged |
| CollectionMode.Pause | accel/tcg/tb-stats.c:121-124 | afterwards the mode is stopped, neither enabled nor paused; store and default flag unchanged |
| CollectionMode.DefaultFlag | accel/tcg/tb-stats.c:136-139 | the reported default flag is the stored one, and no setter (store creation, enable, disable, pause) changes it |
| CollectionMode.EnableCreatesStoreOnlyIfAlreadyRunning | accel/tcg/tb-stats.c:102-114 | enabling changes the store exactly when none existed and collection was already running; from any other mode it leaves collection running with no store |
| CollectionMode.EnableTwiceCreatesStore | accel/tcg/tb-stats.c:102-114 | two enables in a row always leave a store, the old one if there was one |
| CollectionMode.EnableAfterPauseKeepsStoreMissing | accel/tcg/tb-stats.c:110-124 | enabling right after a pause or a disable does not create a missing store |
| CollectionMode.ApplyAll | accel/tcg/tb-stats.c:102-139 | no sequence of setter calls replaces a created store or changes the default flag reported by `get_default_tbstats_flag`; a store created on the way is empty |
| CollectionMode.ApplyAllStoreExists | accel/tcg/tb-stats.c:102-124 | after setter calls the store exists exactly when it existed before or a creating call was made while collection was running |
| ProfileDump.GuardedRatio | accel/tcg/tb-stats.c:73-80 | a guarded ratio is 0 on a zero denominator and otherwise times the denominator gives the numerator |
| ProfileDump.OrOne | accel/tcg/tb-stats.c:81-83 | a replaced denominator is never 0 and keeps every nonzero value |
| ProfileDump.Percent | accel/tcg/tb-stats.c:84-92 | a percentage times its (nonzero) denominator is a hundred times the numerator |
| ProfileDump.PercentShares | accel/tcg/tb-stats.c:81-87 | the two phase percentages of a nonzero total add up to 100 |
| ProfileDump.TimingOf | accel/tcg/tb-stats.c:69-97 | cycles are interm plus code time; per-op and per-byte ratios are 0 on a zero denominator and exact otherwise; each phase percentage is its time times 100 over the total, or over 1 when the total is 0, so they sum to 100, or to 0 when the total is 0; optimisation and liveness shares divide by code time or 1; restore average is 0 without restores |
| ProfileDump.SummaryOf | accel/tcg/tb-stats.c:56-97 | each average times the translation count gives its sum; maxima are reported as collected; the timing lines appear exactly when a profile is given and are then those of that profile |
| ProfileDump.DumpJitProfileInfo | accel/tcg/tb-stats.c:46-99 | nothing happens unless collection is running; otherwise the entries of the store are folded, and the summary appears exactly when some translation was counted, with the store's sums, maxima that bound every entry and are 0 or attained, `aborted` 0, and the summary lines of that record and profile |
| ProfileDump.DumpOrderIndependent | accel/tcg/tb-stats.c:52-56 | the dump is the same for any two visiting orders of the same entries |
| ProfileDump.DumpSilentUnlessRunning | accel/tcg/tb-stats.c:48-50 | after disabling or pausing the dump does nothing, whatever the store holds |
| ProfileDump.DumpEmptyStoreSilent | accel/tcg/tb-stats.c:52-56 | after enabling with a created but empty store the dump iterates and prints nothing |

## Left out

- Printing (`qemu_printf`), the `%f` formatting and the seconds-at-2.4-GHz figure: output and floating point; the model keeps each line's value as an exact `real` and which branch is taken.
- Memory allocation: the accumulator `dump_jit_profile_info` allocates with `g_new0` is never freed, so each dump made while collection is running leaks one record; the model has no heap and does not show this leak.
- The hash table's internals (hashing, auto-resizing, concurrent iteration): the store is a multiset of entries plus a flag for its existence; the iteration order is a parameter.
- What `qht_iter` does on a store that was never created: the hash table code is not part of this model, and enabling from a mode other than running reaches that state; there the visiting order `visit` is left unconstrained.
- `stat_per_translation` and `TCGProfile`: not defined in tb-stats.c or tb-stats.h; a parameter and an input record stand for them.
- JitProfile.CollectAll: does not model 64-bit wrap-around of the sums or truncation of the per-translation value into the `unsigned` maxima, because all counters are unbounded naturals.
- ProfileDump.TimingOf: does not model 64-bit overflow of `interm_time + code_time`, because profile times are unbounded integers.
- `tb_stats_cmp`: its body is not part of this model; `TbStats.SameBlock` stands for its equality test as the record's comment describes it (hashed key plus cs_base).
- `dump_coverset_info`, `dump_tbs_info`, `dump_tb_info`, `set_tbstats_flags`, `clean_tbstats`: only declared in the header, so their ranking, coverage, replay and clearing behaviour is not modelled.
- The `void` prototype of `dump_jit_profile_info` in the header: the model follows the definition, which takes the profile.
- The mode enumeration's own definition is not part of this model; `Disabled` stands for its initial value.
