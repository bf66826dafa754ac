/** The usage-statistics aggregate: one stored record with a total number of
    translations and a counter per language code (`updateUsageStats`). */
module Usage {
  import opened Text

  /** The record as `Stats.findOne()` returns it. `order` lists the keys of
      `languageCounts` in insertion order, the order in which the record's
      map iterates its entries. */
  datatype Snapshot = Snapshot(totalTranslations: nat, languageCounts: map<string, nat>, order: seq<string>)

  /** A record freshly made by `new Stats()`: every default is zero or empty. */
  const Fresh := Snapshot(0, map[], [])

  /** `(m.get(k) || 0)`: a missing key counts as zero. */
  function Get(m: map<string, nat>, k: string): nat {
    if k in m then m[k] else 0
  }

  /** The keys listed in `order` are exactly those of the map, each once. */
  ghost predicate WellFormed(s: Snapshot) {
    && NoDup(s.order)
    && forall k :: k in s.languageCounts <==> k in s.order
  }

  /** Sum of the counters of the listed keys. */
  function Sum(keys: seq<string>, m: map<string, nat>): nat {
    if keys == [] then 0 else Sum(keys[..|keys| - 1], m) + Get(m, keys[|keys| - 1])
  }

  /** Every translation adds one to the total and two to the counters. */
  ghost predicate Consistent(s: Snapshot) {
    WellFormed(s) && Sum(s.order, s.languageCounts) == 2 * s.totalTranslations
  }

  /** `languageCounts.set(k, v)`: a new key goes to the end of the iteration
      order, an existing key keeps its place. */
  function SetCount(s: Snapshot, k: string, v: nat): Snapshot {
    s.(languageCounts := s.languageCounts[k := v],
       order := if k in s.languageCounts then s.order else s.order + [k])
  }

  /** `languageCounts.set(k, (languageCounts.get(k) || 0) + 1)` */
  function Bump(s: Snapshot, k: string): Snapshot {
    SetCount(s, k, Get(s.languageCounts, k) + 1)
  }

  /** The record after one translation from `fromLang` to `toLang`. */
  function Recorded(s: Snapshot, fromLang: string, toLang: string): Snapshot {
    Bump(Bump(s.(totalTranslations := s.totalTranslations + 1), fromLang), toLang)
  }

  /** Changing one listed counter changes the sum by the difference. */
  lemma {:induction false} SumUpdate(keys: seq<string>, m: map<string, nat>, k: string, v: nat)
    requires NoDup(keys)
    ensures k in keys ==> Sum(keys, m[k := v]) + Get(m, k) == Sum(keys, m) + v
    ensures k !in keys ==> Sum(keys, m[k := v]) == Sum(keys, m)
  {
    if keys != [] {
      var init := keys[..|keys| - 1];
      var last := keys[|keys| - 1];
      assert keys == init + [last];
      assert NoDup(init);
      SumUpdate(init, m, k, v);
      if k == last {
        assert k !in init;
      }
    }
  }

  /** Setting a counter keeps the record well formed and adds the
      difference to the sum. */
  lemma SetCountSum(s: Snapshot, k: string, v: nat)
    requires WellFormed(s)
    ensures WellFormed(SetCount(s, k, v))
    ensures Sum(SetCount(s, k, v).order, SetCount(s, k, v).languageCounts) + Get(s.languageCounts, k)
         == Sum(s.order, s.languageCounts) + v
  {
    var m := s.languageCounts;
    SumUpdate(s.order, m, k, v);
    if k !in m {
      var o := s.order + [k];
      assert o[..|o| - 1] == s.order;
      forall i, j | 0 <= i < j < |o| ensures o[i] != o[j] {
        if j == |o| - 1 {
          assert o[i] in s.order;
        }
      }
    }
  }

  /** Bumping a counter keeps the record well formed and adds one to the sum;
      `d` is how far the sum is below twice the total. */
  lemma BumpSum(s: Snapshot, k: string, d: nat)
    requires WellFormed(s) && Sum(s.order, s.languageCounts) + d + 1 == 2 * s.totalTranslations
    ensures WellFormed(Bump(s, k))
    ensures Sum(Bump(s, k).order, Bump(s, k).languageCounts) + d == 2 * Bump(s, k).totalTranslations
  {
    SetCountSum(s, k, Get(s.languageCounts, k) + 1);
  }

  /** One recording keeps the aggregate consistent: the counters still sum to
      twice the total. */
  lemma RecordedConsistent(s: Snapshot, fromLang: string, toLang: string)
    requires Consistent(s)
    ensures Consistent(Recorded(s, fromLang, toLang))
  {
    var s1 := s.(totalTranslations := s.totalTranslations + 1);
    var s2 := Bump(s1, fromLang);
    assert Bump(s2, toLang) == Recorded(s, fromLang, toLang);
    BumpSum(s1, fromLang, 1);
    BumpSum(s2, toLang, 0);
  }

  /** What one recording does to the counters: one more for each of the two
      codes, two more when they coincide, a missing code starting from zero,
      every other code untouched; and exactly one more translation in all. */
  lemma RecordedCounts(s: Snapshot, fromLang: string, toLang: string)
    ensures var r := Recorded(s, fromLang, toLang);
      && r.totalTranslations == s.totalTranslations + 1
      && (fromLang != toLang ==>
            r.languageCounts[fromLang] == Get(s.languageCounts, fromLang) + 1
            && r.languageCounts[toLang] == Get(s.languageCounts, toLang) + 1)
      && (fromLang == toLang ==> r.languageCounts[fromLang] == Get(s.languageCounts, fromLang) + 2)
      && r.languageCounts.Keys == s.languageCounts.Keys + {fromLang, toLang}
      && (forall k :: k in s.languageCounts && k != fromLang && k != toLang ==>
            r.languageCounts[k] == s.languageCounts[k])
  {
  }

  /** Recording a run of translations, one after another, into a record. */
  function RecordAll(s: Snapshot, pairs: seq<(string, string)>): Snapshot
    decreases |pairs|
  {
    if pairs == [] then s
    else RecordAll(Recorded(s, pairs[0].0, pairs[0].1), pairs[1..])
  }

  /** After N recorded translations the total has grown by N, and a record
      whose counters summed to twice its total still does. */
  lemma {:induction false} RecordAllCounts(s: Snapshot, pairs: seq<(string, string)>)
    requires Consistent(s)
    ensures RecordAll(s, pairs).totalTranslations == s.totalTranslations + |pairs|
    ensures Consistent(RecordAll(s, pairs))
    decreases |pairs|
  {
    if pairs != [] {
      RecordedConsistent(s, pairs[0].0, pairs[0].1);
      RecordAllCounts(Recorded(s, pairs[0].0, pairs[0].1), pairs[1..]);
    }
  }

  /** The stored statistics record. `saved` says whether a record exists;
      while it does not, the fields hold the defaults a new record gets. */
  class StatsStore {
    var saved: bool
    var totalTranslations: nat
    var languageCounts: map<string, nat>
    var order: seq<string>

    function Current(): Snapshot
      reads this
    {
      Snapshot(totalTranslations, languageCounts, order)
    }

    /** `Stats.findOne()` */
    function FindOne(): Option<Snapshot>
      reads this
    {
      if saved then Some(Current()) else None
    }

    ghost predicate Valid()
      reads this
    {
      && Consistent(Current())
      && (saved ==> totalTranslations > 0)
      && (!saved ==> Current() == Fresh)
    }

    /** A store that holds no record yet. */
    constructor ()
      ensures Valid() && FindOne() == None
    {
      saved := false;
      totalTranslations := 0;
      languageCounts := map[];
      order := [];
    }

    /** `updateUsageStats(fromLang, toLang)`: read the record (a fresh one if
        none exists), count one translation and one use of each code, write
        the record back. */
    method UpdateUsageStats(fromLang: string, toLang: string)
      requires Valid()
      modifies this
      ensures Valid()
      ensures FindOne() == Some(Recorded(old(Current()), fromLang, toLang))
      ensures old(FindOne()) == None ==> Current() == Recorded(Fresh, fromLang, toLang)
      ensures totalTranslations == old(totalTranslations) + 1
      ensures fromLang != toLang ==>
        && languageCounts[fromLang] == Get(old(languageCounts), fromLang) + 1
        && languageCounts[toLang] == Get(old(languageCounts), toLang) + 1
      ensures fromLang == toLang ==> languageCounts[fromLang] == Get(old(languageCounts), fromLang) + 2
      ensures forall k :: k in old(languageCounts) && k != fromLang && k != toLang ==>
        k in languageCounts && languageCounts[k] == old(languageCounts)[k]
    {
      if !saved {
        totalTranslations, languageCounts, order := 0, map[], [];
      }
      ghost var before := Current();
      totalTranslations := totalTranslations + 1;
      ghost var s1 := Current();
      Set(fromLang, Get(languageCounts, fromLang) + 1);
      assert Current() == Bump(s1, fromLang);
      Set(toLang, Get(languageCounts, toLang) + 1);
      saved := true;
      assert Current() == Recorded(before, fromLang, toLang);
      RecordedConsistent(before, fromLang, toLang);
      RecordedCounts(before, fromLang, toLang);
    }

    /** `languageCounts.set(k, v)` on the record in memory. */
    method Set(k: string, v: nat)
      modifies this
      ensures Current() == SetCount(old(Current()), k, v)
      ensures saved == old(saved)
    {
      if k !in languageCounts {
        order := order + [k];
      }
      languageCounts := languageCounts[k := v];
    }
  }
}
