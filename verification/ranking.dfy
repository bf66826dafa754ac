/** The ranking behind `/top_languages`: the record's entries in iteration
    order, sorted by count from highest to lowest (a stable sort, so equal
    counts keep their iteration order), of which the first five are shown. */
module Ranking {
  import opened Text
  import opened Usage

  /** One `[lang, count]` pair of `languageCounts.entries()`. */
  datatype Entry = Entry(code: string, count: nat)

  const TopCount := 5

  /** `[...stats.languageCounts.entries()]`: the counters in iteration order. */
  function Entries(s: Snapshot): (es: seq<Entry>)
    requires WellFormed(s)
    ensures |es| == |s.order|
    ensures forall i :: 0 <= i < |es| ==>
      es[i].code == s.order[i] && es[i].code in s.languageCounts
      && es[i].count == s.languageCounts[es[i].code]
  {
    EntriesOf(s.order, s.languageCounts)
  }

  function EntriesOf(keys: seq<string>, m: map<string, nat>): (es: seq<Entry>)
    requires forall k :: k in keys ==> k in m
    ensures |es| == |keys|
    ensures forall i :: 0 <= i < |es| ==> es[i] == Entry(keys[i], m[keys[i]])
  {
    if keys == [] then [] else [Entry(keys[0], m[keys[0]])] + EntriesOf(keys[1..], m)
  }

  /** Counts never go up from left to right. */
  predicate NonIncreasing(es: seq<Entry>) {
    forall i, j :: 0 <= i < j < |es| ==> es[i].count >= es[j].count
  }

  /** Put `e` in front of the first entry whose count is not higher, so that
      an entry that came earlier stays ahead of later ones with the same count. */
  function Insert(e: Entry, sorted: seq<Entry>): (r: seq<Entry>)
    ensures multiset(r) == multiset(sorted) + multiset{e}
    ensures |r| == |sorted| + 1
  {
    if sorted == [] || e.count >= sorted[0].count then [e] + sorted
    else
      assert sorted == [sorted[0]] + sorted[1..];
      [sorted[0]] + Insert(e, sorted[1..])
  }

  lemma {:induction false} InsertSorted(e: Entry, sorted: seq<Entry>)
    requires NonIncreasing(sorted)
    ensures NonIncreasing(Insert(e, sorted))
  {
    if !(sorted == [] || e.count >= sorted[0].count) {
      var tail := sorted[1..];
      InsertSorted(e, tail);
      forall y | y in tail ensures y.count <= sorted[0].count {
        var i :| 0 <= i < |tail| && tail[i] == y;
        assert sorted[i + 1] == y;
      }
      InsertBounded(e, tail, sorted[0].count);
      ConsSorted(sorted[0], Insert(e, tail));
    }
  }

  /** Every count of the inserted sequence is at most `b` when every count of
      the parts is. */
  lemma InsertBounded(e: Entry, sorted: seq<Entry>, b: nat)
    requires forall y :: y in sorted ==> y.count <= b
    requires e.count <= b
    ensures forall x :: x in Insert(e, sorted) ==> x.count <= b
  {
  }

  lemma ConsSorted(x: Entry, rest: seq<Entry>)
    requires NonIncreasing(rest)
    requires forall y :: y in rest ==> y.count <= x.count
    ensures NonIncreasing([x] + rest)
  {
  }

  /** `entries.sort((a, b) => b[1] - a[1])`: descending by count, stable. */
  function SortByCount(es: seq<Entry>): (r: seq<Entry>)
    ensures multiset(r) == multiset(es)
    ensures |r| == |es|
    ensures NonIncreasing(r)
  {
    if es == [] then []
    else
      assert es == [es[0]] + es[1..];
      var sortedTail := SortByCount(es[1..]);
      InsertSorted(es[0], sortedTail);
      Insert(es[0], sortedTail)
  }

  /** `sortedLanguages.slice(0, 5)` */
  function TopEntries(s: Snapshot): seq<Entry>
    requires WellFormed(s)
  {
    var sorted := SortByCount(Entries(s));
    sorted[..Min(TopCount, |sorted|)]
  }

  /** The entries with count `c`, in the order they appear. */
  function WithCount(es: seq<Entry>, c: nat): seq<Entry> {
    if es == [] then []
    else (if es[0].count == c then [es[0]] else []) + WithCount(es[1..], c)
  }

  lemma {:induction false} InsertWithCount(e: Entry, sorted: seq<Entry>, c: nat)
    requires NonIncreasing(sorted)
    ensures WithCount(Insert(e, sorted), c) == (if e.count == c then [e] else []) + WithCount(sorted, c)
  {
    if sorted == [] || e.count >= sorted[0].count {
      assert ([e] + sorted)[1..] == sorted;
    } else {
      var tail := sorted[1..];
      assert NonIncreasing(tail) by {
        forall i, j | 0 <= i < j < |tail| ensures tail[i].count >= tail[j].count {
          assert tail[i] == sorted[i + 1] && tail[j] == sorted[j + 1];
        }
      }
      InsertWithCount(e, tail, c);
      var r := [sorted[0]] + Insert(e, tail);
      assert r[1..] == Insert(e, tail);
    }
  }

  /** The sort is stable: for every count, the entries with that count keep
      their iteration order, so ties are listed in insertion order. */
  lemma {:induction false} SortIsStable(es: seq<Entry>, c: nat)
    ensures WithCount(SortByCount(es), c) == WithCount(es, c)
  {
    if es != [] {
      SortIsStable(es[1..], c);
      InsertWithCount(es[0], SortByCount(es[1..]), c);
    }
  }

  /** Distinct entries stay distinct under the sort. */
  lemma {:induction false} SortKeepsNoDup(es: seq<Entry>)
    requires NoDup(es)
    ensures NoDup(SortByCount(es))
  {
    if es != [] {
      var tail := es[1..];
      assert NoDup(tail) by {
        forall i, j | 0 <= i < j < |tail| ensures tail[i] != tail[j] {
          assert tail[i] == es[i + 1] && tail[j] == es[j + 1];
        }
      }
      SortKeepsNoDup(tail);
      var sortedTail := SortByCount(tail);
      assert es[0] !in tail by {
        forall i | 0 <= i < |tail| ensures tail[i] != es[0] {
          assert tail[i] == es[i + 1];
        }
      }
      assert es[0] !in sortedTail by {
        assert multiset(sortedTail) == multiset(tail);
        assert es[0] !in multiset(tail);
      }
      InsertKeepsNoDup(es[0], sortedTail);
    }
  }

  lemma {:induction false} InsertKeepsNoDup(e: Entry, sorted: seq<Entry>)
    requires NoDup(sorted) && e !in sorted
    ensures NoDup(Insert(e, sorted))
  {
    if sorted == [] || e.count >= sorted[0].count {
      var r := [e] + sorted;
      forall i, j | 0 <= i < j < |r| ensures r[i] != r[j] {
        if i == 0 {
          assert r[j] == sorted[j - 1];
        } else {
          assert r[i] == sorted[i - 1] && r[j] == sorted[j - 1];
        }
      }
    } else {
      var tail := sorted[1..];
      assert NoDup(tail) by {
        forall i, j | 0 <= i < j < |tail| ensures tail[i] != tail[j] {
          assert tail[i] == sorted[i + 1] && tail[j] == sorted[j + 1];
        }
      }
      assert e !in tail;
      InsertKeepsNoDup(e, tail);
      var rest := Insert(e, tail);
      var r := [sorted[0]] + rest;
      assert sorted[0] !in rest by {
        assert sorted[0] !in tail by {
          forall i | 0 <= i < |tail| ensures tail[i] != sorted[0] {
            assert tail[i] == sorted[i + 1];
          }
        }
        assert sorted[0] != e by { assert e.count < sorted[0].count; }
        assert multiset(rest) == multiset(tail) + multiset{e};
        assert multiset(rest)[sorted[0]] == 0;
      }
      assert r == Insert(e, sorted);
      forall i, j | 0 <= i < j < |r| ensures r[i] != r[j] {
        if i == 0 {
          assert r[j] == rest[j - 1];
        } else {
          assert r[i] == rest[i - 1] && r[j] == rest[j - 1];
        }
      }
    }
  }

  /** Entries of a well-formed record are distinct (their codes are). */
  lemma EntriesNoDup(s: Snapshot)
    requires WellFormed(s)
    ensures NoDup(Entries(s))
  {
  }

  /** Every sorted entry is an entry of the record. */
  lemma SortedEntriesBelong(s: Snapshot)
    requires WellFormed(s)
    ensures forall x :: x in SortByCount(Entries(s)) ==>
      x.code in s.languageCounts && x.count == s.languageCounts[x.code]
  {
    var es := Entries(s);
    forall x | x in SortByCount(es)
      ensures x.code in s.languageCounts && x.count == s.languageCounts[x.code]
    {
      assert x in multiset(es);
      assert x in es;
    }
  }

  /** A code that is not listed counts no more than any listed code. */
  lemma LeftOutNotHigher(s: Snapshot, i: nat, k: string)
    requires WellFormed(s)
    requires i < |TopEntries(s)| && k in s.languageCounts
    requires forall j :: 0 <= j < |TopEntries(s)| ==> TopEntries(s)[j].code != k
    ensures s.languageCounts[k] <= TopEntries(s)[i].count
  {
    var es := Entries(s);
    var sorted := SortByCount(es);
    var top := TopEntries(s);
    var p :| 0 <= p < |s.order| && s.order[p] == k;
    var e := es[p];
    assert e in multiset(sorted);
    var q :| 0 <= q < |sorted| && sorted[q] == e;
    assert top == sorted[..|top|];
    assert !(q < |top|) by {
      assert forall j :: 0 <= j < |top| ==> top[j] == sorted[j];
    }
    assert top[i] == sorted[i];
  }

  /** Each listed entry is a code of the record with its count. */
  lemma TopBelong(s: Snapshot)
    requires WellFormed(s)
    ensures var top := TopEntries(s);
      forall i :: 0 <= i < |top| ==>
        top[i].code in s.languageCounts && top[i].count == s.languageCounts[top[i].code]
  {
    var sorted := SortByCount(Entries(s));
    var top := TopEntries(s);
    SortedEntriesBelong(s);
    forall i | 0 <= i < |top|
      ensures top[i].code in s.languageCounts && top[i].count == s.languageCounts[top[i].code]
    {
      assert top[i] == sorted[i] && sorted[i] in sorted;
    }
  }

  /** No code is listed twice. */
  lemma TopDistinct(s: Snapshot)
    requires WellFormed(s)
    ensures var top := TopEntries(s);
      forall i, j :: 0 <= i < j < |top| ==> top[i].code != top[j].code
  {
    var es := Entries(s);
    var sorted := SortByCount(es);
    var top := TopEntries(s);
    SortedEntriesBelong(s);
    EntriesNoDup(s);
    SortKeepsNoDup(es);
    forall i, j | 0 <= i < j < |top| ensures top[i].code != top[j].code {
      assert top[i] == sorted[i] && top[j] == sorted[j];
      assert sorted[i] in sorted && sorted[j] in sorted;
    }
  }

  /** No code left out counts more than a listed one. */
  lemma TopNotHigher(s: Snapshot)
    requires WellFormed(s)
    ensures var top := TopEntries(s);
      forall i, k :: 0 <= i < |top| && k in s.languageCounts
        && (forall j :: 0 <= j < |top| ==> top[j].code != k)
        ==> s.languageCounts[k] <= top[i].count
  {
    var top := TopEntries(s);
    forall i, k | 0 <= i < |top| && k in s.languageCounts
        && (forall j :: 0 <= j < |top| ==> top[j].code != k)
      ensures s.languageCounts[k] <= top[i].count
    {
      LeftOutNotHigher(s, i, k);
    }
  }

  /** What `/top_languages` lists: min(5, number of codes) entries, each a
      code of the record with its count, no code twice, counts non-increasing,
      and no code left out has a higher count than any code listed. */
  lemma TopEntriesRanking(s: Snapshot)
    requires WellFormed(s)
    ensures var top := TopEntries(s);
      && |top| == Min(TopCount, |s.languageCounts|)
      && (forall i :: 0 <= i < |top| ==>
            top[i].code in s.languageCounts && top[i].count == s.languageCounts[top[i].code])
      && (forall i, j :: 0 <= i < j < |top| ==> top[i].code != top[j].code)
      && NonIncreasing(top)
      && (forall i, k :: 0 <= i < |top| && k in s.languageCounts
            && (forall j :: 0 <= j < |top| ==> top[j].code != k)
            ==> s.languageCounts[k] <= top[i].count)
  {
    KeysCount(s);
    TopBelong(s);
    TopDistinct(s);
    TopNotHigher(s);
  }

  /** The record has as many codes as its iteration order lists. */
  lemma KeysCount(s: Snapshot)
    requires WellFormed(s)
    ensures |s.languageCounts| == |s.order|
  {
    var keys := s.languageCounts.Keys;
    assert keys == set k | k in s.order;
    DistinctCard(s.order);
  }

  lemma {:induction false} DistinctCard(ks: seq<string>)
    requires NoDup(ks)
    ensures |set k | k in ks| == |ks|
  {
    if ks != [] {
      var tail := ks[1..];
      assert NoDup(tail) by {
        forall i, j | 0 <= i < j < |tail| ensures tail[i] != tail[j] {
          assert tail[i] == ks[i + 1] && tail[j] == ks[j + 1];
        }
      }
      DistinctCard(tail);
      assert (set k | k in ks) == (set k | k in tail) + {ks[0]};
      assert ks[0] !in (set k | k in tail) by {
        forall i | 0 <= i < |tail| ensures tail[i] != ks[0] {
          assert tail[i] == ks[i + 1];
        }
      }
    }
  }

  lemma EntriesExample()
    ensures Entries(Snapshot(8, map["es" := 5, "fr" := 3, "en" := 8], ["es", "fr", "en"]))
         == [Entry("es", 5), Entry("fr", 3), Entry("en", 8)]
  {
  }

  lemma SortExample()
    ensures SortByCount([Entry("es", 5), Entry("fr", 3), Entry("en", 8)])
         == [Entry("en", 8), Entry("es", 5), Entry("fr", 3)]
  {
  }

  /** Counts {es: 5, fr: 3, en: 8} are listed en, es, fr. */
  lemma TopEntriesExample(s: Snapshot)
    requires s == Snapshot(8, map["es" := 5, "fr" := 3, "en" := 8], ["es", "fr", "en"])
    ensures WellFormed(s)
    ensures TopEntries(s) == [Entry("en", 8), Entry("es", 5), Entry("fr", 3)]
  {
    assert WellFormed(s) by {
      WellFormedExample();
    }
    EntriesExample();
    SortExample();
  }

  lemma WellFormedExample()
    ensures WellFormed(Snapshot(8, map["es" := 5, "fr" := 3, "en" := 8], ["es", "fr", "en"]))
  {
  }
}
