/**
 * Filtering and Python's stable `sorted(..., key=...)`, as the calendar queries
 * and the dashboard use them (core/calendar.py:127-151, ui/home_view.py:195-204).
 */
module Ordering {
  import opened Wrappers
  import opened Events

  /** The two sort keys in use: `ev.start`, and the pair `(ev.start, ev.end)`. */
  datatype SortKey = ByStart | ByStartEnd

  function KeyOf(key: SortKey, e: Event): (int, int) {
    match key
    case ByStart => (e.start, 0)
    case ByStartEnd => (e.start, e.end)
  }

  /** Lexicographic order on key pairs, as Python compares tuples. */
  predicate KeyLe(a: (int, int), b: (int, int)) {
    a.0 < b.0 || (a.0 == b.0 && a.1 <= b.1)
  }

  predicate Before(key: SortKey, a: Event, b: Event) {
    KeyLe(KeyOf(key, a), KeyOf(key, b))
  }

  predicate SortedBy(key: SortKey, s: seq<Event>) {
    forall i, j | 0 <= i < j < |s| :: Before(key, s[i], s[j])
  }

  /** The elements of `s` that satisfy `keep`, in their order in `s`. */
  function Filter(s: seq<Event>, keep: Event -> bool): (r: seq<Event>)
    ensures |r| <= |s|
    ensures forall e :: multiset(r)[e] == if keep(e) then multiset(s)[e] else 0
  {
    if s == [] then []
    else
      assert s == [s[0]] + s[1..];
      var rest := Filter(s[1..], keep);
      if keep(s[0]) then [s[0]] + rest else rest
  }

  /** Filtering a non-empty sequence: its head, if kept, then the filtered tail. */
  lemma FilterCons(s: seq<Event>, keep: Event -> bool)
    requires s != []
    ensures Filter(s, keep) == (if keep(s[0]) then [s[0]] else []) + Filter(s[1..], keep)
  {
  }

  /** Filtering a sequence extended by one element extends the filtered sequence by that element when it is kept. */
  lemma {:induction false} FilterSnoc(s: seq<Event>, x: Event, keep: Event -> bool)
    ensures Filter(s + [x], keep) == Filter(s, keep) + (if keep(x) then [x] else [])
  {
    var tail: seq<Event> := if keep(x) then [x] else [];
    if s == [] {
      assert s + [x] == [x];
      FilterCons([x], keep);
      assert [x][1..] == [];
    } else {
      var sx := s + [x];
      assert sx[0] == s[0] && sx[1..] == s[1..] + [x];
      FilterSnoc(s[1..], x, keep);
      FilterCons(sx, keep);
      FilterCons(s, keep);
      var head: seq<Event> := if keep(s[0]) then [s[0]] else [];
      ConcatAssoc(head, Filter(s[1..], keep), tail);
    }
  }

  /** The elements of `s` whose sort key is `k`, in their order in `s`. */
  function WithKey(key: SortKey, s: seq<Event>, k: (int, int)): seq<Event> {
    if s == [] then []
    else if KeyOf(key, s[0]) == k then [s[0]] + WithKey(key, s[1..], k)
    else WithKey(key, s[1..], k)
  }

  /** Puts `x` into sorted `s` in front of every element with the same key. */
  function Insert(key: SortKey, x: Event, s: seq<Event>): (r: seq<Event>)
    requires SortedBy(key, s)
    ensures SortedBy(key, r)
    ensures multiset(r) == multiset(s) + multiset{x}
  {
    if s == [] || Before(key, x, s[0]) then
      assert forall y | y in s :: Before(key, x, y) by {
        if s != [] {
          HeadBeforeTail(key, s);
        }
      }
      ConsSorted(key, x, s);
      [x] + s
    else
      HeadBeforeTail(key, s);
      var rest := Insert(key, x, s[1..]);
      assert forall y | y in rest :: Before(key, s[0], y) by {
        forall y | y in rest ensures Before(key, s[0], y) {
          assert y in multiset(rest);
        }
      }
      ConsSorted(key, s[0], rest);
      assert s == [s[0]] + s[1..];
      [s[0]] + rest
  }

  /** A sequence is sorted when its tail is and its head comes before every element of the tail. */
  lemma ConsSorted(key: SortKey, a: Event, t: seq<Event>)
    requires SortedBy(key, t)
    requires forall y | y in t :: Before(key, a, y)
    ensures SortedBy(key, [a] + t)
  {
    var r := [a] + t;
    forall i, j | 0 <= i < j < |r| ensures Before(key, r[i], r[j]) {
      assert r[j] == t[j - 1];
      if i > 0 {
        assert r[i] == t[i - 1];
      }
    }
  }

  /** In a sorted sequence the first element comes before all the others. */
  lemma HeadBeforeTail(key: SortKey, s: seq<Event>)
    requires SortedBy(key, s) && s != []
    ensures SortedBy(key, s[1..])
    ensures forall y | y in s[1..] :: Before(key, s[0], y)
  {
    forall y | y in s[1..] ensures Before(key, s[0], y) {
      var k :| 0 <= k < |s[1..]| && s[1..][k] == y;
      assert s[k + 1] == y;
    }
  }

  /** `sorted(s, key=...)`: an insertion sort that keeps equal keys in input order. */
  function Sort(key: SortKey, s: seq<Event>): (r: seq<Event>)
    ensures SortedBy(key, r)
    ensures multiset(r) == multiset(s)
    ensures |r| == |s|
  {
    if s == [] then []
    else
      assert s == [s[0]] + s[1..];
      assert |multiset(Insert(key, s[0], Sort(key, s[1..])))| == |s|;
      Insert(key, s[0], Sort(key, s[1..]))
  }

  lemma {:induction false} InsertWithKey(key: SortKey, x: Event, s: seq<Event>, k: (int, int))
    requires SortedBy(key, s)
    ensures WithKey(key, Insert(key, x, s), k) == if KeyOf(key, x) == k then [x] + WithKey(key, s, k) else WithKey(key, s, k)
  {
    if s == [] || Before(key, x, s[0]) {
      assert ([x] + s)[1..] == s;
    } else {
      assert SortedBy(key, s[1..]);
      InsertWithKey(key, x, s[1..], k);
      var r := Insert(key, x, s);
      assert r[1..] == Insert(key, x, s[1..]);
    }
  }

  /**
   * The sort is stable: for every key, the elements carrying it come out in the
   * order they went in.
   */
  lemma {:induction false} SortIsStable(key: SortKey, s: seq<Event>)
    ensures forall k :: WithKey(key, Sort(key, s), k) == WithKey(key, s, k)
  {
    if s != [] {
      SortIsStable(key, s[1..]);
      forall k ensures WithKey(key, Sort(key, s), k) == WithKey(key, s, k) {
        InsertWithKey(key, s[0], Sort(key, s[1..]), k);
      }
    }
  }
}
