/**
A `std::multimap` from times to texts, as the sequence of its entries in
iteration order: sorted by time, entries of equal time in insertion order.
*/
module Multimap {

  datatype Entry = Entry(time: int, text: string)

  predicate Sorted(s: seq<Entry>) {
    forall i, j :: 0 <= i < j < |s| ==> s[i].time <= s[j].time
  }

  /** The number of entries before the first one that is not earlier than t. */
  function LowerBound(s: seq<Entry>, t: int): (n: nat)
    ensures n <= |s|
    ensures forall i :: 0 <= i < n ==> s[i].time < t
    ensures n < |s| ==> s[n].time >= t
  {
    if s == [] || s[0].time >= t then 0 else 1 + LowerBound(s[1..], t)
  }

  /** The number of entries before the first one that is later than t. */
  function UpperBound(s: seq<Entry>, t: int): (n: nat)
    ensures n <= |s|
    ensures forall i :: 0 <= i < n ==> s[i].time <= t
    ensures n < |s| ==> s[n].time > t
  {
    if s == [] || s[0].time > t then 0 else 1 + UpperBound(s[1..], t)
  }

  /** Insertion behind the entries of equal time. */
  function Insert(s: seq<Entry>, e: Entry): (r: seq<Entry>)
    ensures |r| == |s| + 1
  {
    var n := UpperBound(s, e.time);
    s[..n] + [e] + s[n..]
  }

  lemma InsertKeeps(s: seq<Entry>, e: Entry)
    requires Sorted(s)
    ensures Sorted(Insert(s, e))
    ensures multiset(Insert(s, e)) == multiset(s) + multiset{e}
  {
    InsertSorted(s, e);
    var n := UpperBound(s, e.time);
    assert s == s[..n] + s[n..];
  }

  lemma InsertSorted(s: seq<Entry>, e: Entry)
    requires Sorted(s)
    ensures Sorted(Insert(s, e))
  {
    var n := UpperBound(s, e.time);
    var r := Insert(s, e);
    assert forall j :: n <= j < |s| ==> s[j].time > e.time;
    assert forall i :: 0 <= i < n ==> r[i] == s[i];
    assert forall i :: n < i < |r| ==> r[i] == s[i - 1];
  }

  /** An entry not earlier than all others goes to the end. */
  lemma InsertLast(s: seq<Entry>, e: Entry)
    requires Sorted(s) && (s == [] || s[|s| - 1].time <= e.time)
    ensures Insert(s, e) == s + [e]
  {
    assert forall i :: 0 <= i < |s| ==> s[i].time <= s[|s| - 1].time;
  }

  lemma SortedTail(s: seq<Entry>)
    requires Sorted(s) && s != []
    ensures Sorted(s[1..])
  {
  }

  /** The last n entries, or all of them. */
  function Newest(s: seq<Entry>, n: nat): (r: seq<Entry>)
    ensures |r| == if |s| <= n then |s| else n
  {
    if |s| <= n then s else s[|s| - n..]
  }

  /** All entries but the last n. */
  function Surplus(s: seq<Entry>, n: nat): (r: seq<Entry>)
    ensures r + Newest(s, n) == s
  {
    if |s| <= n then [] else s[..|s| - n]
  }

  /** The entries of a period, both ends included. */
  function Window(s: seq<Entry>, begin: int, end: int): seq<Entry> {
    var lo, hi := LowerBound(s, begin), UpperBound(s, end);
    if lo <= hi then s[lo..hi] else []
  }

  lemma BoundsOrdered(s: seq<Entry>, begin: int, end: int)
    requires Sorted(s) && begin <= end
    ensures LowerBound(s, begin) <= UpperBound(s, end)
  {
    hide LowerBound, UpperBound;
    assert UpperBound(s, end) < |s| ==> s[UpperBound(s, end)].time > end;
  }

  lemma WindowSorted(s: seq<Entry>, begin: int, end: int)
    requires Sorted(s)
    ensures Sorted(Window(s, begin, end))
    ensures forall i :: 0 <= i < |Window(s, begin, end)| ==> begin <= Window(s, begin, end)[i].time <= end
  {
    hide LowerBound, UpperBound;
    var lo, hi, w := LowerBound(s, begin), UpperBound(s, end), Window(s, begin, end);
    if lo < hi {
      forall i | 0 <= i < |w| ensures begin <= w[i].time <= end {
        assert w[i] == s[lo + i];
        assert s[lo].time >= begin && (i > 0 ==> s[lo].time <= s[lo + i].time);
      }
    }
  }

  lemma After(s: seq<Entry>, t: int, e: Entry)
    requires Sorted(s) && e.time <= t
    ensures e !in s[UpperBound(s, t)..]
  {
    hide UpperBound;
    var n := UpperBound(s, t);
    assert forall i :: n < i < |s| ==> s[n].time <= s[i].time;
    assert forall i :: n <= i < |s| ==> s[i].time > t;
  }

  /** In a sorted multimap the bounds delimit exactly the entries of the period. */
  lemma WindowIsPeriod(s: seq<Entry>, begin: int, end: int, e: Entry)
    requires Sorted(s) && begin <= end
    ensures multiset(Window(s, begin, end))[e] == if begin <= e.time <= end then multiset(s)[e] else 0
  {
    hide LowerBound, UpperBound;
    var lo, hi := LowerBound(s, begin), UpperBound(s, end);
    BoundsOrdered(s, begin, end);
    WindowSorted(s, begin, end);
    if begin <= e.time <= end {
      After(s, end, e);
      SplitCounts(s, lo, hi, e);
      assert forall i :: 0 <= i < lo ==> s[i].time < begin;
      assert e !in s[..lo];
    } else {
      assert e !in Window(s, begin, end);
    }
  }

  lemma SplitCounts(s: seq<Entry>, lo: nat, hi: nat, e: Entry)
    requires lo <= hi <= |s|
    ensures multiset(s)[e] == multiset(s[..lo])[e] + multiset(s[lo..hi])[e] + multiset(s[hi..])[e]
  {
    assert s == s[..lo] + s[lo..hi] + s[hi..];
  }
}
