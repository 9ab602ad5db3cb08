/** The stable descending sort by value the back end (`sorted(...,
    reverse=True)`) and the front end (`entries.sort((a, b) => b[1] - a[1])`)
    apply to a list of (name, score) entries: both library sorts are stable,
    so entries with equal scores keep their original order. */
module Ranking {
  import opened Seqs

  /** A (name, score) pair: a dictionary item or an `Object.entries` pair. */
  type Entry = (string, real)

  /** Scores never increase along the list. */
  predicate SortedDesc(s: seq<Entry>)
  {
    forall i, j :: 0 <= i < j < |s| ==> s[i].1 >= s[j].1
  }

  /** `x` placed after the last entry of `t` whose score is at least its
      own. */
  function InsertDesc(t: seq<Entry>, x: Entry): seq<Entry>
  {
    if t == [] then [x]
    else if t[|t| - 1].1 >= x.1 then t + [x]
    else InsertDesc(t[..|t| - 1], x) + [t[|t| - 1]]
  }

  /** The sorted list, built by inserting the entries one at a time in
      their original order. */
  function SortDesc(s: seq<Entry>): seq<Entry>
  {
    if s == [] then [] else InsertDesc(SortDesc(s[..|s| - 1]), s[|s| - 1])
  }

  /** Selects the entries with score `v`. */
  function HasValue(v: real): Entry -> bool
  {
    (e: Entry) => e.1 == v
  }

  lemma {:induction false} InsertMultiset(t: seq<Entry>, x: Entry)
    ensures multiset(InsertDesc(t, x)) == multiset(t) + multiset{x}
  {
    if t != [] && t[|t| - 1].1 < x.1 {
      InsertMultiset(t[..|t| - 1], x);
      assert t == t[..|t| - 1] + [t[|t| - 1]];
    }
  }

  lemma {:induction false} InsertSorted(t: seq<Entry>, x: Entry)
    requires SortedDesc(t)
    ensures SortedDesc(InsertDesc(t, x))
  {
    if t == [] {
    } else if t[|t| - 1].1 >= x.1 {
      var r := t + [x];
      forall i, j | 0 <= i < j < |r| ensures r[i].1 >= r[j].1 {
        if j == |t| {
          assert r[i] == t[i] && t[i].1 >= t[|t| - 1].1;
        } else {
          assert r[i] == t[i] && r[j] == t[j];
        }
      }
    } else {
      var init := t[..|t| - 1];
      var last := t[|t| - 1];
      assert SortedDesc(init) by {
        forall i, j | 0 <= i < j < |init| ensures init[i].1 >= init[j].1 {
          assert init[i] == t[i] && init[j] == t[j];
        }
      }
      InsertSorted(init, x);
      InsertMultiset(init, x);
      var ins := InsertDesc(init, x);
      var r := ins + [last];
      forall i, j | 0 <= i < j < |r| ensures r[i].1 >= r[j].1 {
        if j == |ins| {
          assert r[i] == ins[i];
          assert ins[i] in multiset(init) + multiset{x};
          if ins[i] in multiset(init) {
            var k :| 0 <= k < |init| && init[k] == ins[i];
            assert t[k] == init[k];
          }
        } else {
          assert r[i] == ins[i] && r[j] == ins[j];
        }
      }
    }
  }

  /** Inserting `x` appends it to the entries that share its score: the
      entries it passes all score lower. */
  lemma {:induction false} InsertStable(t: seq<Entry>, x: Entry, v: real)
    ensures Filter(InsertDesc(t, x), HasValue(v)) == Filter(t, HasValue(v)) + Filter([x], HasValue(v))
  {
    var p := HasValue(v);
    if t == [] {
      assert [] + [x] == [x];
    } else if t[|t| - 1].1 >= x.1 {
      FilterAppend(t, [x], p);
    } else {
      var init := t[..|t| - 1];
      var last := t[|t| - 1];
      assert t == init + [last];
      assert InsertDesc(t, x) == InsertDesc(init, x) + [last];
      InsertStable(init, x, v);
      FilterAppend(InsertDesc(init, x), [last], p);
      FilterAppend(init, [last], p);
      var fx := Filter([x], p);
      var fl := Filter([last], p);
      SingletonFilter(x, p);
      SingletonFilter(last, p);
      // `x` passes only entries that score lower, so at most one of the two
      // has score `v`.
      assert fx == [] || fl == [];
      Rearrange(Filter(init, p), fx, fl);
    }
  }

  lemma Rearrange<T>(a: seq<T>, b: seq<T>, c: seq<T>)
    requires b == [] || c == []
    ensures a + b + c == a + c + b
  {
    if b == [] {
      assert a + b == a;
    } else {
      assert a + c == a;
    }
  }

  lemma SingletonFilter(x: Entry, p: Entry -> bool)
    ensures Filter([x], p) == if p(x) then [x] else []
  {
    assert [x][..0] == [];
  }

  /** The sort returns the same entries, in descending score order. */
  lemma {:induction false} SortDescSorts(s: seq<Entry>)
    ensures SortedDesc(SortDesc(s))
    ensures multiset(SortDesc(s)) == multiset(s)
    ensures |SortDesc(s)| == |s|
  {
    if s != [] {
      var init := s[..|s| - 1];
      SortDescSorts(init);
      InsertSorted(SortDesc(init), s[|s| - 1]);
      InsertMultiset(SortDesc(init), s[|s| - 1]);
      assert s == init + [s[|s| - 1]];
      assert |multiset(SortDesc(s))| == |multiset(s)|;
    }
  }

  /** The sort is stable: the entries with any given score come out in the
      order they went in. */
  lemma {:induction false} SortDescStable(s: seq<Entry>, v: real)
    ensures Filter(SortDesc(s), HasValue(v)) == Filter(s, HasValue(v))
  {
    if s != [] {
      var init := s[..|s| - 1];
      SortDescStable(init, v);
      InsertStable(SortDesc(init), s[|s| - 1], v);
      FilterAppend(init, [s[|s| - 1]], HasValue(v));
      assert s == init + [s[|s| - 1]];
    }
  }
}
