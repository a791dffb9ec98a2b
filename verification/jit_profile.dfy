/**
 The aggregation fold behind the JIT profile report (accel/tcg/tb-stats.c):
 `collect_jit_profile_info` visits every statistics entry once and folds it
 into a `jit_profile_info` record of running sums and running maxima.
 */
module JitProfile {
  import opened TbStats

  /** The entry counters that the fold sums, one per accumulator field. */
  datatype Counter =
    | TranslationsTotal
    | NumTcgOps
    | DeletedOps
    | Temps
    | OutLen
    | InLen
    | SearchOutLen

  /** The value of counter `c` in entry `e`. */
  function Field(e: TBStatistics, c: Counter): nat {
    match c
    case TranslationsTotal => e.translations.total
    case NumTcgOps => e.code.numTcgOps
    case DeletedOps => e.code.deletedOps
    case Temps => e.code.temps
    case OutLen => e.code.outLen
    case InLen => e.code.inLen
    case SearchOutLen => e.code.searchOutLen
  }

  /**
   The per-translation value of a counter. Its definition lies outside this
   model, so the fold takes it as a parameter and every property below holds
   whatever it computes.
   */
  type PerTranslation = (TBStatistics, Counter) -> nat

  /** The accumulator `struct jit_profile_info`. */
  datatype JitProfileInfo = JitProfileInfo(
    translations: nat,
    aborted: nat,
    ops: nat,
    opsMax: nat,
    delOps: nat,
    temps: nat,
    tempsMax: nat,
    host: nat,
    guest: nat,
    searchData: nat)

  /** The freshly zeroed accumulator. */
  const Zeroed := JitProfileInfo(0, 0, 0, 0, 0, 0, 0, 0, 0, 0)

  /** The accumulator field that sums counter `c`. */
  function Total(j: JitProfileInfo, c: Counter): nat {
    match c
    case TranslationsTotal => j.translations
    case NumTcgOps => j.ops
    case DeletedOps => j.delOps
    case Temps => j.temps
    case OutLen => j.host
    case InLen => j.guest
    case SearchOutLen => j.searchData
  }

  /** The sum of `f` over the elements of `s`. */
  function SumBy<T>(s: seq<T>, f: T -> nat): nat {
    if |s| == 0 then 0 else f(s[0]) + SumBy(s[1..], f)
  }

  /** The sum of counter `c` over the entries of `s`. */
  function SumOf(s: seq<TBStatistics>, c: Counter): nat {
    SumBy(s, e => Field(e, c))
  }

  /**
   `m` is what a running maximum started at `base` holds after seeing the
   per-translation values of counter `c` of every entry of `s`: no smaller
   than any of them, and either the start value or one of them.
   */
  ghost predicate IsRunningMax(m: nat, base: nat, spt: PerTranslation, s: seq<TBStatistics>, c: Counter) {
    && base <= m
    && (forall i :: 0 <= i < |s| ==> spt(s[i], c) <= m)
    && (m == base || exists i :: 0 <= i < |s| && m == spt(s[i], c))
  }

  /** One visit of `collect_jit_profile_info`. */
  function Collect(spt: PerTranslation, jpi: JitProfileInfo, e: TBStatistics): (r: JitProfileInfo)
    ensures forall c :: Total(r, c) == Total(jpi, c) + Field(e, c)
    ensures r.aborted == jpi.aborted
    ensures IsRunningMax(r.opsMax, jpi.opsMax, spt, [e], NumTcgOps)
    ensures IsRunningMax(r.tempsMax, jpi.tempsMax, spt, [e], Temps)
  {
    var opsPt := spt(e, NumTcgOps);
    var tempsPt := spt(e, Temps);
    assert [e][0] == e;
    jpi.(
      translations := jpi.translations + e.translations.total,
      ops := jpi.ops + e.code.numTcgOps,
      opsMax := if opsPt > jpi.opsMax then opsPt else jpi.opsMax,
      delOps := jpi.delOps + e.code.deletedOps,
      temps := jpi.temps + e.code.temps,
      tempsMax := if tempsPt > jpi.tempsMax then tempsPt else jpi.tempsMax,
      host := jpi.host + e.code.outLen,
      guest := jpi.guest + e.code.inLen,
      searchData := jpi.searchData + e.code.searchOutLen)
  }

  /** `qht_iter` applying `Collect` to the entries in visiting order `s`. */
  function CollectAll(spt: PerTranslation, jpi: JitProfileInfo, s: seq<TBStatistics>): (r: JitProfileInfo)
    ensures r.aborted == jpi.aborted
    ensures IsRunningMax(r.opsMax, jpi.opsMax, spt, s, NumTcgOps)
    ensures IsRunningMax(r.tempsMax, jpi.tempsMax, spt, s, Temps)
    decreases |s|
  {
    if |s| == 0 then jpi
    else
      var r := CollectAll(spt, Collect(spt, jpi, s[0]), s[1..]);
      RunningMaxStep(r.opsMax, jpi.opsMax, Collect(spt, jpi, s[0]).opsMax, spt, s, NumTcgOps);
      RunningMaxStep(r.tempsMax, jpi.tempsMax, Collect(spt, jpi, s[0]).tempsMax, spt, s, Temps);
      r
  }

  /** A running maximum over the head and then over the tail is one over the whole sequence. */
  lemma RunningMaxStep(m: nat, base: nat, mid: nat, spt: PerTranslation, s: seq<TBStatistics>, c: Counter)
    requires |s| > 0
    requires IsRunningMax(mid, base, spt, [s[0]], c)
    requires IsRunningMax(m, mid, spt, s[1..], c)
    ensures IsRunningMax(m, base, spt, s, c)
  {
    forall i | 0 <= i < |s|
      ensures spt(s[i], c) <= m
    {
      if i > 0 {
        assert s[i] == s[1..][i - 1];
      } else {
        assert [s[0]][0] == s[i];
      }
    }
    if m != base {
      if m == mid {
        assert m == spt([s[0]][0], c);
      } else {
        var j :| 0 <= j < |s[1..]| && m == spt(s[1..][j], c);
        assert s[1..][j] == s[j + 1];
      }
    }
  }

  /** Every running sum ends as its start value plus the sum of its counter over all visited entries. */
  lemma {:induction false} CollectAllSums(spt: PerTranslation, jpi: JitProfileInfo, s: seq<TBStatistics>, c: Counter)
    ensures Total(CollectAll(spt, jpi, s), c) == Total(jpi, c) + SumOf(s, c)
    decreases |s|
  {
    if |s| > 0 {
      CollectAllSums(spt, Collect(spt, jpi, s[0]), s[1..], c);
    }
  }

  lemma {:induction false} SumByAppend<T>(a: seq<T>, b: seq<T>, f: T -> nat)
    ensures SumBy(a + b, f) == SumBy(a, f) + SumBy(b, f)
    decreases |a|
  {
    if |a| > 0 {
      assert (a + b)[1..] == a[1..] + b;
      SumByAppend(a[1..], b, f);
    } else {
      assert a + b == b;
    }
  }

  /** Taking one element out of a sequence takes its value out of the sum. */
  lemma SumByRemove<T>(b: seq<T>, i: nat, f: T -> nat)
    requires i < |b|
    ensures SumBy(b, f) == f(b[i]) + SumBy(b[..i] + b[i + 1..], f)
  {
    var pre, post := b[..i], b[i + 1..];
    assert b == pre + ([b[i]] + post);
    SumByAppend(pre, [b[i]] + post, f);
    SumByAppend(pre, post, f);
    assert ([b[i]] + post)[1..] == post;
  }

  /** Taking one element out of a sequence takes it out of the multiset. */
  lemma MultisetRemove<T>(b: seq<T>, i: nat)
    requires i < |b|
    ensures multiset(b[..i] + b[i + 1..]) == multiset(b) - multiset{b[i]}
  {
    assert b == b[..i] + [b[i]] + b[i + 1..];
  }

  /** A sum does not depend on the order of the elements summed. */
  lemma {:induction false} SumByPermutation<T>(a: seq<T>, b: seq<T>, f: T -> nat)
    requires multiset(a) == multiset(b)
    ensures SumBy(a, f) == SumBy(b, f)
    decreases |a|
  {
    if |a| == 0 {
      assert |multiset(b)| == 0;
    } else {
      var x := a[0];
      assert x in multiset(b);
      var i :| 0 <= i < |b| && b[i] == x;
      var restA, restB := a[1..], b[..i] + b[i + 1..];
      SumByRemove(b, i, f);
      MultisetRemove(b, i);
      assert a == [x] + restA;
      assert multiset(a) == multiset{x} + multiset(restA);
      SumByPermutation(restA, restB, f);
    }
  }

  /** A sum over the entries does not depend on the order they are visited in. */
  lemma SumOfPermutation(a: seq<TBStatistics>, b: seq<TBStatistics>, c: Counter)
    requires multiset(a) == multiset(b)
    ensures SumOf(a, c) == SumOf(b, c)
  {
    SumByPermutation(a, b, e => Field(e, c));
  }

  /**
   Two running maxima from the same start over the same entries agree,
   whatever order each visited them in.
   */
  lemma RunningMaxUnique(m1: nat, m2: nat, base: nat, spt: PerTranslation,
                         a: seq<TBStatistics>, b: seq<TBStatistics>, c: Counter)
    requires multiset(a) == multiset(b)
    requires IsRunningMax(m1, base, spt, a, c)
    requires IsRunningMax(m2, base, spt, b, c)
    ensures m1 == m2
  {
    if m1 != base {
      var i :| 0 <= i < |a| && m1 == spt(a[i], c);
      assert a[i] in multiset(b);
      var j :| 0 <= j < |b| && b[j] == a[i];
      assert m1 <= m2;
    }
    if m2 != base {
      var j :| 0 <= j < |b| && m2 == spt(b[j], c);
      assert b[j] in multiset(a);
      var i :| 0 <= i < |a| && a[i] == b[j];
      assert m2 <= m1;
    }
  }

  /** The fold's result does not depend on the order in which the entries are visited. */
  lemma CollectAllOrderIndependent(spt: PerTranslation, jpi: JitProfileInfo, a: seq<TBStatistics>, b: seq<TBStatistics>)
    requires multiset(a) == multiset(b)
    ensures CollectAll(spt, jpi, a) == CollectAll(spt, jpi, b)
  {
    var ra, rb := CollectAll(spt, jpi, a), CollectAll(spt, jpi, b);
    forall c: Counter
      ensures Total(ra, c) == Total(rb, c)
    {
      CollectAllSums(spt, jpi, a, c);
      CollectAllSums(spt, jpi, b, c);
      SumOfPermutation(a, b, c);
    }
    assert ra.translations == Total(ra, TranslationsTotal) == Total(rb, TranslationsTotal);
    assert ra.ops == Total(ra, NumTcgOps) == Total(rb, NumTcgOps);
    assert ra.delOps == Total(ra, DeletedOps) == Total(rb, DeletedOps);
    assert ra.temps == Total(ra, Temps) == Total(rb, Temps);
    assert ra.host == Total(ra, OutLen) == Total(rb, OutLen);
    assert ra.guest == Total(ra, InLen) == Total(rb, InLen);
    assert ra.searchData == Total(ra, SearchOutLen) == Total(rb, SearchOutLen);
    RunningMaxUnique(ra.opsMax, rb.opsMax, jpi.opsMax, spt, a, b, NumTcgOps);
    RunningMaxUnique(ra.tempsMax, rb.tempsMax, jpi.tempsMax, spt, a, b, Temps);
  }

  /**
   The profile of a store: the fold from the zeroed accumulator. Each sum is
   the sum of its counter over all entries, each maximum bounds every entry's
   per-translation value and is 0 or one of them, and `aborted` stays 0.
   */
  function CollectJitProfile(spt: PerTranslation, s: seq<TBStatistics>): (r: JitProfileInfo)
    ensures forall c :: Total(r, c) == SumOf(s, c)
    ensures r.aborted == 0
    ensures forall i :: 0 <= i < |s| ==> spt(s[i], NumTcgOps) <= r.opsMax && spt(s[i], Temps) <= r.tempsMax
    ensures r.opsMax == 0 || exists i :: 0 <= i < |s| && r.opsMax == spt(s[i], NumTcgOps)
    ensures r.tempsMax == 0 || exists i :: 0 <= i < |s| && r.tempsMax == spt(s[i], Temps)
  {
    var r := CollectAll(spt, Zeroed, s);
    CollectAllSumsAll(spt, Zeroed, s);
    r
  }

  lemma CollectAllSumsAll(spt: PerTranslation, jpi: JitProfileInfo, s: seq<TBStatistics>)
    ensures forall c :: Total(CollectAll(spt, jpi, s), c) == Total(jpi, c) + SumOf(s, c)
  {
    forall c: Counter
      ensures Total(CollectAll(spt, jpi, s), c) == Total(jpi, c) + SumOf(s, c)
    {
      CollectAllSums(spt, jpi, s, c);
    }
  }
}
