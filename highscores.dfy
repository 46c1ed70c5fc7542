/**
 * The leaderboard of scenes.py's add_highscore: entries ordered by score,
 * highest first, then by date, earliest first, and cut back to five entries
 * by dropping the last one.
 */
module Highscores {

  /** One leaderboard row: initials, score and ISO date string. */
  datatype Entry = Entry(name: string, score: int, date: string)

  /** The number of rows the leaderboard keeps. */
  const Capacity: nat := 5

  /** Python's `<=` on strings: lexicographic by code point, a prefix first. */
  predicate StrLe(a: string, b: string)
  {
    |a| == 0 || (|b| > 0 && (a[0] < b[0] || (a[0] == b[0] && StrLe(a[1..], b[1..]))))
  }

  lemma {:induction false} StrLeTotal(a: string, b: string)
    ensures StrLe(a, b) || StrLe(b, a)
  {
    if |a| > 0 && |b| > 0 && a[0] == b[0] {
      StrLeTotal(a[1..], b[1..]);
    }
  }

  lemma {:induction false} StrLeTrans(a: string, b: string, c: string)
    requires StrLe(a, b) && StrLe(b, c)
    ensures StrLe(a, c)
  {
    if |a| > 0 && a[0] == b[0] && b[0] == c[0] {
      StrLeTrans(a[1..], b[1..], c[1..]);
    }
  }

  /**
   * The sort key `(-score, date)` of add_highscore, compared as Python
   * compares tuples: `a` may stand before `b`.
   */
  predicate KeyLe(a: Entry, b: Entry)
  {
    -a.score < -b.score || (-a.score == -b.score && StrLe(a.date, b.date))
  }

  lemma KeyLeTotal(a: Entry, b: Entry)
    ensures KeyLe(a, b) || KeyLe(b, a)
  {
    StrLeTotal(a.date, b.date);
  }

  lemma KeyLeTrans(a: Entry, b: Entry, c: Entry)
    requires KeyLe(a, b) && KeyLe(b, c)
    ensures KeyLe(a, c)
  {
    if a.score == b.score == c.score {
      StrLeTrans(a.date, b.date, c.date);
    }
  }

  /** Ordered by the sort key. */
  ghost predicate Sorted(s: seq<Entry>)
  {
    forall i, j :: 0 <= i < j < |s| ==> KeyLe(s[i], s[j])
  }

  /** Every entry of `s` may stand before `y`. */
  ghost predicate AllBefore(s: seq<Entry>, y: Entry)
  {
    forall i :: 0 <= i < |s| ==> KeyLe(s[i], y)
  }

  /** In a sorted table, what the last entry may precede, every entry may precede. */
  lemma SortedLastBound(s: seq<Entry>, y: Entry)
    requires Sorted(s) && s != [] && KeyLe(s[|s| - 1], y)
    ensures AllBefore(s, y)
  {
    forall i | 0 <= i < |s| ensures KeyLe(s[i], y) {
      if i < |s| - 1 {
        KeyLeTrans(s[i], s[|s| - 1], y);
      }
    }
  }

  /**
   * One step of a stable sort: `x`, coming after all of `s`, is placed
   * after every entry whose key is not greater than its own.
   */
  function Insert(s: seq<Entry>, x: Entry): (r: seq<Entry>)
    ensures |r| == |s| + 1 && multiset(r) == multiset(s) + multiset{x}
  {
    if s == [] then [x]
    else
      var last := s[|s| - 1];
      if KeyLe(last, x) then s + [x]
      else
        var init := s[..|s| - 1];
        assert s == init + [last];
        Insert(init, x) + [last]
  }

  /** Insert keeps a table sorted, and keeps every bound that `x` also meets. */
  lemma {:induction false} InsertSorted(s: seq<Entry>, x: Entry)
    requires Sorted(s)
    ensures Sorted(Insert(s, x))
    ensures forall y :: AllBefore(s, y) && KeyLe(x, y) ==> AllBefore(Insert(s, x), y)
  {
    if s != [] {
      var last := s[|s| - 1];
      if KeyLe(last, x) {
        SortedLastBound(s, x);
        var r := s + [x];
        assert Insert(s, x) == r;
        forall i, j | 0 <= i < j < |r| ensures KeyLe(r[i], r[j]) {
          if j < |s| {
            assert r[i] == s[i] && r[j] == s[j];
          } else {
            assert r[i] == s[i] && r[j] == x;
          }
        }
      } else {
        var init := s[..|s| - 1];
        assert Sorted(init) by {
          forall i, j | 0 <= i < j < |init| ensures KeyLe(init[i], init[j]) {
            assert init[i] == s[i] && init[j] == s[j];
          }
        }
        InsertSorted(init, x);
        KeyLeTotal(last, x);
        var m := Insert(init, x);
        assert AllBefore(init, last) by {
          forall i | 0 <= i < |init| ensures KeyLe(init[i], last) {
            assert init[i] == s[i];
          }
        }
        assert AllBefore(m, last);
        var r := m + [last];
        assert Insert(s, x) == r;
        forall i, j | 0 <= i < j < |r| ensures KeyLe(r[i], r[j]) {
          if j < |m| {
            assert r[i] == m[i] && r[j] == m[j];
          } else {
            assert r[i] == m[i] && r[j] == last;
          }
        }
        forall y | AllBefore(s, y) && KeyLe(x, y) ensures AllBefore(r, y) {
          assert AllBefore(init, y) by {
            forall i | 0 <= i < |init| ensures KeyLe(init[i], y) {
              assert init[i] == s[i];
            }
          }
          assert KeyLe(last, y);
          assert AllBefore(m, y);
          forall i | 0 <= i < |r| ensures KeyLe(r[i], y) {
            if i < |m| { assert r[i] == m[i]; }
          }
        }
      }
    }
  }

  /** The library's stable sort of add_highscore, as an insertion sort. */
  function SortByKey(s: seq<Entry>): (r: seq<Entry>)
    ensures |r| == |s| && multiset(r) == multiset(s)
    ensures Sorted(r)
  {
    if s == [] then []
    else
      assert s == s[..|s| - 1] + [s[|s| - 1]];
      var sorted := SortByKey(s[..|s| - 1]);
      InsertSorted(sorted, s[|s| - 1]);
      Insert(sorted, s[|s| - 1])
  }

  /** The pop of add_highscore: one entry dropped from the end when over capacity. */
  function Truncate(s: seq<Entry>): seq<Entry>
  {
    if |s| > Capacity then s[..|s| - 1] else s
  }

  /** The table add_highscore leaves: append, sort, drop the last when over capacity. */
  function AddEntry(table: seq<Entry>, e: Entry): seq<Entry>
  {
    Truncate(SortByKey(table + [e]))
  }

  /** Sorting a sorted table changes nothing. */
  lemma {:induction false} SortSortedIsIdentity(s: seq<Entry>)
    requires Sorted(s)
    ensures SortByKey(s) == s
  {
    if s != [] {
      var init := s[..|s| - 1];
      SortSortedIsIdentity(init);
      assert s == init + [s[|s| - 1]];
    }
  }

  /** Appending to a sorted table and sorting is inserting the new entry. */
  lemma AppendThenSort(s: seq<Entry>, x: Entry)
    requires Sorted(s)
    ensures SortByKey(s + [x]) == Insert(s, x)
  {
    assert (s + [x])[..|s|] == s;
    SortSortedIsIdentity(s);
  }

  /**
   * Where Insert puts the new entry: after every entry whose key is not
   * greater than its own, before every entry whose key is greater, with the
   * rest of the table in its old order.
   */
  lemma {:induction false} InsertPlacement(s: seq<Entry>, x: Entry) returns (k: nat)
    requires Sorted(s)
    ensures k <= |s| && Insert(s, x) == s[..k] + [x] + s[k..]
    ensures forall i :: 0 <= i < k ==> KeyLe(s[i], x)
    ensures forall i :: k <= i < |s| ==> !KeyLe(s[i], x)
  {
    if s == [] {
      k := 0;
    } else if KeyLe(s[|s| - 1], x) {
      SortedLastBound(s, x);
      k := |s|;
    } else {
      var init := s[..|s| - 1];
      assert Sorted(init) by {
        forall i, j | 0 <= i < j < |init| ensures KeyLe(init[i], init[j]) {
          assert init[i] == s[i] && init[j] == s[j];
        }
      }
      k := InsertPlacement(init, x);
      assert init[..k] == s[..k];
      assert s[k..] == init[k..] + [s[|s| - 1]];
      forall i | 0 <= i < k ensures KeyLe(s[i], x) {
        assert s[i] == init[i];
      }
      forall i | k <= i < |s| ensures !KeyLe(s[i], x) {
        if i < |init| { assert s[i] == init[i]; }
      }
    }
  }

  /** After add_highscore the table is sorted and at most one entry was lost. */
  lemma AddEntryShape(table: seq<Entry>, e: Entry)
    ensures Sorted(AddEntry(table, e))
    ensures |AddEntry(table, e)| == if |table| < Capacity then |table| + 1 else |table|
    ensures multiset(AddEntry(table, e)) <= multiset(table) + multiset{e}
    ensures |table| < Capacity ==> multiset(AddEntry(table, e)) == multiset(table) + multiset{e}
  {
    var sorted := SortByKey(table + [e]);
    if |sorted| > Capacity {
      assert sorted == sorted[..|sorted| - 1] + [sorted[|sorted| - 1]];
      assert multiset(sorted) == multiset(sorted[..|sorted| - 1]) + multiset{sorted[|sorted| - 1]};
    }
  }

  /** A full, sorted table: a score above the last one's enters it, and the old last entry goes. */
  lemma HigherScoreEnters(table: seq<Entry>, e: Entry)
    requires Sorted(table) && |table| == Capacity
    requires e.score > table[Capacity - 1].score
    ensures e in AddEntry(table, e)
    ensures AddEntry(table, e) == Insert(table, e)[..Capacity]
  {
    AppendThenSort(table, e);
    var k := InsertPlacement(table, e);
    assert !KeyLe(table[Capacity - 1], e);
    assert k < Capacity;
    assert Insert(table, e)[k] == e;
  }

  /** A full, sorted table: a score below the last one's leaves the table as it was. */
  lemma LowerScoreDropped(table: seq<Entry>, e: Entry)
    requires Sorted(table) && |table| == Capacity
    requires e.score < table[Capacity - 1].score
    ensures AddEntry(table, e) == table
  {
    AppendThenSort(table, e);
    assert KeyLe(table[Capacity - 1], e);
    assert Insert(table, e) == table + [e];
  }

  /** Scores 10, 30 and 20 with equal dates sort to 30, 20, 10. */
  lemma SortExample(d: string)
    ensures SortByKey([Entry("AAA", 10, d), Entry("BBB", 30, d), Entry("CCC", 20, d)])
      == [Entry("BBB", 30, d), Entry("CCC", 20, d), Entry("AAA", 10, d)]
  {
    var a, b, c := Entry("AAA", 10, d), Entry("BBB", 30, d), Entry("CCC", 20, d);
    assert [a, b, c][..2] == [a, b];
    assert [a, b][..1] == [a];
    assert [a][..0] == [];
    assert SortByKey([a]) == [a];
    assert SortByKey([a, b]) == [b, a];
  }
}
