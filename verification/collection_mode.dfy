/**
 The process-wide collection mode and the lazily created statistics store
 (accel/tcg/tb-stats.c). The setters are kept exactly as written: disabling
 sets the paused mode, pausing sets the stopped mode, and enabling looks at
 the mode before it sets it to running.
 */
module CollectionMode {
  import opened Wrappers
  import opened TbStats

  /** Values of `tcg_collect_tb_stats`; `Disabled` is the initial, zero value. */
  datatype CollectMode = Disabled | Running | Paused | Stopped

  /** The entries of a created store, each in it once per copy. */
  type Store = multiset<TBStatistics>

  /**
   The globals the setters touch: the mode, the store (`None` while its
   table has not been created), and the default flag for new entries.
   */
  datatype StatsGlobals = StatsGlobals(mode: CollectMode, store: Option<Store>, defaultFlag: bv32)

  /** `tb_stats_collection_enabled` */
  function CollectionEnabled(g: StatsGlobals): (r: bool)
    ensures r <==> g.mode == Running
  {
    g.mode == Running
  }

  /** `tb_stats_collection_paused` */
  function CollectionPaused(g: StatsGlobals): (r: bool)
    ensures r <==> g.mode == Paused
  {
    g.mode == Paused
  }

  /** The two predicates never hold together, whatever the globals. */
  lemma EnabledAndPausedExclusive(g: StatsGlobals)
    ensures !(CollectionEnabled(g) && CollectionPaused(g))
    ensures CollectionEnabled(g) <==> g.mode == Running
    ensures CollectionPaused(g) <==> g.mode == Paused
  {
  }

  /** `init_tb_stats_htable_if_not`: create an empty store if collecting and none exists. */
  function InitStoreIfNot(g: StatsGlobals): (r: StatsGlobals)
    ensures r.mode == g.mode && r.defaultFlag == g.defaultFlag
    ensures g.store.Some? ==> r.store == g.store
    ensures r.store.Some? <==> g.store.Some? || CollectionEnabled(g)
    ensures g.store.None? && r.store.Some? ==> r.store == Some(multiset{})
  {
    if CollectionEnabled(g) && g.store.None? then g.(store := Some(multiset{})) else g
  }

  /** Creating the store a second time changes nothing. */
  lemma InitStoreIdempotent(g: StatsGlobals)
    ensures InitStoreIfNot(InitStoreIfNot(g)) == InitStoreIfNot(g)
  {
  }

  /** `enable_collect_tb_stats`: maybe create the store, then set the running mode. */
  function Enable(g: StatsGlobals): (r: StatsGlobals)
    ensures CollectionEnabled(r) && !CollectionPaused(r)
    ensures r.defaultFlag == g.defaultFlag
    ensures g.store.Some? ==> r.store == g.store
    ensures r.store.Some? <==> g.store.Some? || CollectionEnabled(g)
    ensures g.store.None? && r.store.Some? ==> r.store == Some(multiset{})
  {
    InitStoreIfNot(g).(mode := Running)
  }

  /** `disable_collect_tb_stats`: the mode becomes paused. */
  function Disable(g: StatsGlobals): (r: StatsGlobals)
    ensures CollectionPaused(r) && !CollectionEnabled(r)
    ensures r.store == g.store && r.defaultFlag == g.defaultFlag
  {
    g.(mode := Paused)
  }

  /** `pause_collect_tb_stats`: the mode becomes stopped. */
  function Pause(g: StatsGlobals): (r: StatsGlobals)
    ensures r.mode == Stopped
    ensures !CollectionEnabled(r) && !CollectionPaused(r)
    ensures r.store == g.store && r.defaultFlag == g.defaultFlag
  {
    g.(mode := Stopped)
  }

  /** `get_default_tbstats_flag` */
  function DefaultFlag(g: StatsGlobals): (f: bv32)
    ensures f == g.defaultFlag
    ensures f == InitStoreIfNot(g).defaultFlag == Enable(g).defaultFlag
    ensures f == Disable(g).defaultFlag == Pause(g).defaultFlag
  {
    g.defaultFlag
  }

  /**
   Enabling creates the store exactly when none existed and collection was
   already running before the call; from any other mode it leaves the store
   missing even though collection is now running.
   */
  lemma EnableCreatesStoreOnlyIfAlreadyRunning(g: StatsGlobals)
    ensures Enable(g).store != g.store <==> g.store.None? && g.mode == Running
    ensures g.store.None? && g.mode != Running ==> Enable(g).store.None? && CollectionEnabled(Enable(g))
  {
  }

  /** A second enable does create the store. */
  lemma EnableTwiceCreatesStore(g: StatsGlobals)
    ensures Enable(Enable(g)).store.Some?
    ensures g.store.Some? ==> Enable(Enable(g)).store == g.store
  {
  }

  /** Enabling after pausing (which stops) does not create a missing store. */
  lemma EnableAfterPauseKeepsStoreMissing(g: StatsGlobals)
    requires g.store.None?
    ensures Enable(Pause(g)).store.None?
    ensures Enable(Disable(g)).store.None?
  {
  }

  /** A call of one of the setters. */
  datatype Setter = InitStore | EnableCollect | DisableCollect | PauseCollect

  function Apply(g: StatsGlobals, op: Setter): StatsGlobals {
    match op
    case InitStore => InitStoreIfNot(g)
    case EnableCollect => Enable(g)
    case DisableCollect => Disable(g)
    case PauseCollect => Pause(g)
  }

  /** The setters that may create the store. */
  predicate MayCreateStore(op: Setter) {
    op == InitStore || op == EnableCollect
  }

  /**
   The globals after a sequence of setter calls. No setter replaces a
   created store or touches the default flag.
   */
  function ApplyAll(g: StatsGlobals, ops: seq<Setter>): (r: StatsGlobals)
    ensures DefaultFlag(r) == DefaultFlag(g)
    ensures g.store.Some? ==> r.store == g.store
    ensures r.store.Some? && g.store.None? ==> r.store == Some(multiset{})
    decreases |ops|
  {
    if |ops| == 0 then g else ApplyAll(Apply(g, ops[0]), ops[1..])
  }

  /**
   After a sequence of setter calls the store exists exactly when it existed
   before, or some call that may create it was made while collection was
   running.
   */
  lemma {:induction false} ApplyAllStoreExists(g: StatsGlobals, ops: seq<Setter>)
    ensures ApplyAll(g, ops).store.Some? <==>
              || g.store.Some?
              || exists i :: 0 <= i < |ops| && MayCreateStore(ops[i]) && CollectionEnabled(ApplyAll(g, ops[..i]))
    decreases |ops|
  {
    if |ops| > 0 {
      var g1 := Apply(g, ops[0]);
      ApplyAllStoreExists(g1, ops[1..]);
      assert ApplyAll(g, ops[..0]) == g by {
        assert ops[..0] == [];
      }
      forall j | 0 <= j < |ops| - 1
        ensures ApplyAll(g, ops[..j + 1]) == ApplyAll(g1, ops[1..][..j])
      {
        assert ops[..j + 1][0] == ops[0];
        assert ops[..j + 1][1..] == ops[1..][..j];
      }
      if ApplyAll(g, ops).store.Some? && g.store.None? && !(MayCreateStore(ops[0]) && CollectionEnabled(g)) {
        var j :| 0 <= j < |ops[1..]| && MayCreateStore(ops[1..][j]) && CollectionEnabled(ApplyAll(g1, ops[1..][..j]));
        assert ops[j + 1] == ops[1..][j];
      }
      if g.store.None? && (exists i :: 0 <= i < |ops| && MayCreateStore(ops[i]) && CollectionEnabled(ApplyAll(g, ops[..i]))) {
        var i :| 0 <= i < |ops| && MayCreateStore(ops[i]) && CollectionEnabled(ApplyAll(g, ops[..i]));
        if i > 0 {
          assert ops[1..][i - 1] == ops[i];
        }
      }
    }
  }
}
