/**
 * The list expressions the home page applies to its entries
 * (apps/web/src/app/page.tsx): the stable sort by date, newest first, that
 * follows every insertion, and the filter that drops an identifier.
 *
 * `Array.prototype.sort` is required to be stable (ECMA-262, section
 * 23.1.3.30). With the comparator `b.date - a.date` its result is the unique
 * sequence that is sorted by date descending and keeps, for every date, the
 * entries of that date in their input order (see StableSortUnique);
 * SortByDateDesc is that sequence, computed by insertion.
 */
module EntryOrder {
  import opened Entries

  predicate Sorted(s: seq<Entry>)
  {
    forall i, j :: 0 <= i < j < |s| ==> s[i].date >= s[j].date
  }

  /** The entries of `s` whose date is `d`, in the order of `s`. */
  function WithDate(s: seq<Entry>, d: Date): seq<Entry>
  {
    if s == [] then [] else (if s[0].date == d then [s[0]] else []) + WithDate(s[1..], d)
  }

  /** `a` can be obtained from `b` by deleting elements. */
  predicate IsSubsequence<T(==)>(a: seq<T>, b: seq<T>)
    decreases |b|
  {
    if a == [] then true
    else if b == [] then false
    else if a[0] == b[0] then IsSubsequence(a[1..], b[1..])
    else IsSubsequence(a, b[1..])
  }

  /** Places `x` before the first entry that is not strictly later than it. */
  function Insert(x: Entry, s: seq<Entry>): (r: seq<Entry>)
    ensures multiset(r) == multiset(s) + multiset{x}
  {
    if s == [] then [x]
    else if x.date >= s[0].date then [x] + s
    else
      assert s == [s[0]] + s[1..];
      [s[0]] + Insert(x, s[1..])
  }

  lemma {:induction false} InsertBounded(x: Entry, s: seq<Entry>, b: Date)
    requires x.date <= b
    requires forall k :: 0 <= k < |s| ==> s[k].date <= b
    ensures forall k :: 0 <= k < |Insert(x, s)| ==> Insert(x, s)[k].date <= b
  {
    if s != [] && x.date < s[0].date {
      InsertBounded(x, s[1..], b);
    }
  }

  lemma ConsKeepsSorted(h: Entry, rest: seq<Entry>)
    requires Sorted(rest)
    requires forall k :: 0 <= k < |rest| ==> rest[k].date <= h.date
    ensures Sorted([h] + rest)
  {
    var s := [h] + rest;
    forall i, j | 0 <= i < j < |s|
      ensures s[i].date >= s[j].date
    {
      assert s[j] == rest[j - 1];
      if i > 0 {
        assert s[i] == rest[i - 1];
      }
    }
  }

  lemma {:induction false} InsertKeepsSorted(x: Entry, s: seq<Entry>)
    requires Sorted(s)
    ensures Sorted(Insert(x, s))
  {
    if s != [] && x.date < s[0].date {
      InsertKeepsSorted(x, s[1..]);
      InsertBounded(x, s[1..], s[0].date);
      ConsKeepsSorted(s[0], Insert(x, s[1..]));
    }
  }

  /** The comparator `(a, b) => b.date - a.date` under a stable sort. */
  function SortByDateDesc(s: seq<Entry>): (r: seq<Entry>)
    ensures multiset(r) == multiset(s)
    ensures Sorted(r)
  {
    if s == [] then []
    else
      assert s == [s[0]] + s[1..];
      InsertKeepsSorted(s[0], SortByDateDesc(s[1..]));
      Insert(s[0], SortByDateDesc(s[1..]))
  }

  /** `prev.filter(entry => entry.id !== id)` */
  function Without(s: seq<Entry>, id: string): (r: seq<Entry>)
    ensures forall e :: e in r ==> e.id != id
    ensures forall e {:trigger multiset(s)[e]} :: multiset(r)[e] == if e.id == id then 0 else multiset(s)[e]
  {
    if s == [] then []
    else
      assert s == [s[0]] + s[1..];
      var rest := Without(s[1..], id);
      if s[0].id == id then rest else [s[0]] + rest
  }

  /** The filter keeps the surviving entries in their order. */
  lemma {:induction false} WithoutIsSubsequence(s: seq<Entry>, id: string)
    ensures IsSubsequence(Without(s, id), s)
    decreases |s|
  {
    if s != [] {
      var rest := Without(s[1..], id);
      WithoutIsSubsequence(s[1..], id);
      if s[0].id == id {
        assert rest == [] || rest[0] != s[0];
      } else {
        assert ([s[0]] + rest)[1..] == rest;
      }
    }
  }

  /** Deleting an identifier that no entry has changes nothing. */
  lemma {:induction false} WithoutAbsent(s: seq<Entry>, id: string)
    requires forall k :: 0 <= k < |s| ==> s[k].id != id
    ensures Without(s, id) == s
    decreases |s|
  {
    if s != [] {
      WithoutAbsent(s[1..], id);
      assert s == [s[0]] + s[1..];
    }
  }

  lemma WithDateCons(h: Entry, t: seq<Entry>, d: Date)
    ensures WithDate([h] + t, d) == (if h.date == d then [h] else []) + WithDate(t, d)
  {
    assert ([h] + t)[1..] == t;
  }

  lemma {:induction false} InsertStable(x: Entry, s: seq<Entry>, d: Date)
    ensures WithDate(Insert(x, s), d) == (if x.date == d then [x] else []) + WithDate(s, d)
  {
    if s == [] {
      WithDateCons(x, [], d);
      assert [x] + [] == [x];
    } else if x.date >= s[0].date {
      WithDateCons(x, s, d);
    } else {
      var rest := Insert(x, s[1..]);
      InsertStable(x, s[1..], d);
      WithDateCons(s[0], rest, d);
      WithDateCons(s[0], s[1..], d);
      assert s == [s[0]] + s[1..];
      if x.date == d {
        assert s[0].date != d;
        assert WithDate(Insert(x, s), d) == WithDate(rest, d) == [x] + WithDate(s[1..], d);
      } else {
        assert WithDate(rest, d) == WithDate(s[1..], d);
      }
    }
  }

  /** Entries of equal date leave the sort in the order they entered it. */
  lemma {:induction false} SortIsStable(s: seq<Entry>, d: Date)
    ensures WithDate(SortByDateDesc(s), d) == WithDate(s, d)
  {
    if s != [] {
      SortIsStable(s[1..], d);
      InsertStable(s[0], SortByDateDesc(s[1..]), d);
    }
  }

  lemma WithDateHead(s: seq<Entry>)
    ensures s != [] ==> WithDate(s, s[0].date) != [] && WithDate(s, s[0].date)[0] == s[0]
  {
  }

  lemma {:induction false} WithDateMember(s: seq<Entry>, d: Date)
    requires WithDate(s, d) != []
    ensures exists k :: 0 <= k < |s| && s[k].date == d
  {
    if s[0].date != d {
      WithDateMember(s[1..], d);
      var k :| 0 <= k < |s[1..]| && s[1..][k].date == d;
      assert s[k + 1].date == d;
    }
  }

  /** Two sorted lists with the same per-date subsequences start alike. */
  lemma SameHead(r: seq<Entry>, t: seq<Entry>)
    requires r != [] && t != [] && Sorted(r) && Sorted(t)
    requires WithDate(r, r[0].date) == WithDate(t, r[0].date)
    requires WithDate(r, t[0].date) == WithDate(t, t[0].date)
    ensures r[0] == t[0]
  {
    WithDateHead(r);
    WithDateHead(t);
    WithDateMember(t, r[0].date);
    WithDateMember(r, t[0].date);
    var i :| 0 <= i < |t| && t[i].date == r[0].date;
    var j :| 0 <= j < |r| && r[j].date == t[0].date;
    assert t[0].date >= t[i].date by { if i > 0 { assert Sorted(t); } }
    assert r[0].date >= r[j].date by { if j > 0 { assert Sorted(r); } }
  }

  /** Dropping a common head keeps the per-date subsequences equal. */
  lemma WithDateTail(r: seq<Entry>, t: seq<Entry>, d: Date)
    requires r != [] && t != [] && r[0] == t[0]
    requires WithDate(r, d) == WithDate(t, d)
    ensures WithDate(r[1..], d) == WithDate(t[1..], d)
  {
    var wr, wt := WithDate(r[1..], d), WithDate(t[1..], d);
    if r[0].date == d {
      assert WithDate(r, d) == [r[0]] + wr && ([r[0]] + wr)[1..] == wr;
      assert WithDate(t, d) == [t[0]] + wt && ([t[0]] + wt)[1..] == wt;
    } else {
      assert WithDate(r, d) == [] + wr && [] + wr == wr;
      assert WithDate(t, d) == [] + wt && [] + wt == wt;
    }
  }

  /** A sequence sorted by date descending is determined by its per-date
      subsequences: the three properties of a stable sort fix its result. */
  lemma {:induction false} StableSortUnique(r: seq<Entry>, t: seq<Entry>)
    requires Sorted(r) && Sorted(t)
    requires forall d :: WithDate(r, d) == WithDate(t, d)
    ensures r == t
  {
    WithDateHead(r);
    WithDateHead(t);
    if r != [] && t != [] {
      SameHead(r, t);
      forall d
        ensures WithDate(r[1..], d) == WithDate(t[1..], d)
      {
        WithDateTail(r, t, d);
      }
      StableSortUnique(r[1..], t[1..]);
      assert r == [r[0]] + r[1..] && t == [t[0]] + t[1..];
    } else if r != [] || t != [] {
      // one is empty and the other is not: the first date of the non-empty one has no entries in the empty one
      assert false;
    }
  }

  /** Sorting an already sorted list changes nothing. */
  lemma SortKeepsSorted(s: seq<Entry>)
    requires Sorted(s)
    ensures SortByDateDesc(s) == s
  {
    forall d
      ensures WithDate(SortByDateDesc(s), d) == WithDate(s, d)
    {
      SortIsStable(s, d);
    }
    StableSortUnique(SortByDateDesc(s), s);
  }

  /** Where Insert places `x`: before the first entry not strictly later. */
  function InsertPosition(x: Entry, s: seq<Entry>): (k: nat)
    ensures k <= |s|
    ensures forall i :: 0 <= i < k ==> s[i].date > x.date
    ensures k < |s| ==> x.date >= s[k].date
  {
    if s == [] || x.date >= s[0].date then 0 else 1 + InsertPosition(x, s[1..])
  }

  lemma ConsSplit(h: Entry, t: seq<Entry>, k: nat, x: Entry)
    requires k <= |t|
    ensures [h] + (t[..k] + [x] + t[k..]) == ([h] + t)[..k + 1] + [x] + ([h] + t)[k + 1..]
  {
    assert ([h] + t)[..k + 1] == [h] + t[..k];
    assert ([h] + t)[k + 1..] == t[k..];
  }

  lemma {:induction false} InsertSplits(x: Entry, s: seq<Entry>)
    ensures var k := InsertPosition(x, s); Insert(x, s) == s[..k] + [x] + s[k..]
  {
    if s == [] || x.date >= s[0].date {
      assert s[..0] + [x] + s[0..] == [x] + s;
    } else {
      var t := s[1..];
      InsertSplits(x, t);
      assert s == [s[0]] + t;
      ConsSplit(s[0], t, InsertPosition(x, t), x);
    }
  }

  /**
   * What `[entry, ...prev].sort(byDateDesc)` does: the result is sorted and a
   * permutation of the input; the new entry comes before every earlier entry of
   * the same date, which keep their order; entries of other dates keep theirs.
   */
  lemma AddEntryOrder(e: Entry, prev: seq<Entry>)
    ensures var r := SortByDateDesc([e] + prev);
      && Sorted(r)
      && multiset(r) == multiset(prev) + multiset{e}
      && WithDate(r, e.date) == [e] + WithDate(prev, e.date)
      && forall d :: d != e.date ==> WithDate(r, d) == WithDate(prev, d)
  {
    var s := [e] + prev;
    assert s[1..] == prev;
    forall d
      ensures WithDate(SortByDateDesc(s), d) == (if e.date == d then [e] else []) + WithDate(prev, d)
    {
      SortIsStable(s, d);
    }
  }

  /** When the previous list is already sorted, the new entry is inserted at a
      single position and every previous entry keeps its place in order. */
  lemma AddToSortedInserts(e: Entry, prev: seq<Entry>)
    requires Sorted(prev)
    ensures exists k :: 0 <= k <= |prev| && SortByDateDesc([e] + prev) == prev[..k] + [e] + prev[k..]
  {
    assert ([e] + prev)[1..] == prev;
    SortKeepsSorted(prev);
    InsertSplits(e, prev);
    var k := InsertPosition(e, prev);
    assert SortByDateDesc([e] + prev) == prev[..k] + [e] + prev[k..];
  }

  lemma {:induction false} SubsequenceMembers<T>(a: seq<T>, b: seq<T>)
    requires IsSubsequence(a, b)
    ensures forall i :: 0 <= i < |a| ==> a[i] in b
    decreases |b|
  {
    if a != [] {
      if a[0] == b[0] {
        SubsequenceMembers(a[1..], b[1..]);
        forall i | 0 <= i < |a|
          ensures a[i] in b
        {
          if i > 0 {
            assert a[i] == a[1..][i - 1];
          }
        }
      } else {
        SubsequenceMembers(a, b[1..]);
      }
    }
  }

  /** Deleting elements from a sorted list leaves it sorted. */
  lemma {:induction false} SubsequenceKeepsSorted(a: seq<Entry>, b: seq<Entry>)
    requires IsSubsequence(a, b) && Sorted(b)
    ensures Sorted(a)
    decreases |b|
  {
    if a != [] {
      assert Sorted(b[1..]);
      if a[0] == b[0] {
        SubsequenceKeepsSorted(a[1..], b[1..]);
        SubsequenceMembers(a[1..], b[1..]);
        forall i, j | 0 <= i < j < |a|
          ensures a[i].date >= a[j].date
        {
          assert a[j] == a[1..][j - 1];
          if i > 0 {
            assert a[i] == a[1..][i - 1];
          }
        }
      } else {
        SubsequenceKeepsSorted(a, b[1..]);
      }
    }
  }

  lemma DeleteKeepsSorted(s: seq<Entry>, id: string)
    requires Sorted(s)
    ensures Sorted(Without(s, id))
  {
    WithoutIsSubsequence(s, id);
    SubsequenceKeepsSorted(Without(s, id), s);
  }
}
