/**
 * Month grouping of the timeline (apps/web/src/components/Timeline.tsx).
 *
 * The component folds the entry list into a dictionary from a month-year
 * label to the entries of that month, creating each bucket on first sight and
 * pushing onto it, then lists the dictionary with `Object.entries`, which
 * yields string keys in insertion order (ECMA-262, section 10.1.11.1,
 * OrdinaryOwnPropertyKeys). That order holds only for keys that are not
 * array indices (integer-like keys would be listed first, ascending); the
 * labels `toLocaleDateString` produces with a long month name and a numeric
 * year, such as "March 2024", always contain a letter and a space, so they
 * are never array indices. The label of a date is the parameter `monthKey`.
 *
 * Keys and Members are the specification, written the way the fold sees the
 * list (one more entry at the end at a time); GroupByMonth is the fold itself.
 */
module Timeline {
  import opened Entries
  import opened EntryOrder

  type MonthKey = string
  type Group = (MonthKey, seq<Entry>)

  /** The distinct labels of `s`, in the order of their first occurrence. */
  function Keys(s: seq<Entry>, monthKey: Date -> MonthKey): seq<MonthKey>
  {
    if s == [] then []
    else
      var ks := Keys(s[..|s| - 1], monthKey);
      var k := monthKey(s[|s| - 1].date);
      if k in ks then ks else ks + [k]
  }

  /** The entries of `s` labelled `k`, in the order of `s`. */
  function Members(s: seq<Entry>, monthKey: Date -> MonthKey, k: MonthKey): seq<Entry>
  {
    if s == [] then []
    else
      var last := s[|s| - 1];
      Members(s[..|s| - 1], monthKey, k) + (if monthKey(last.date) == k then [last] else [])
  }

  /** `Object.entries(groupedEntries)`: one (label, entries) pair per label. */
  function Grouping(s: seq<Entry>, monthKey: Date -> MonthKey): seq<Group>
  {
    var ks := Keys(s, monthKey);
    seq(|ks|, i requires 0 <= i < |ks| => (ks[i], Members(s, monthKey, ks[i])))
  }

  /** The groups' entries laid end to end, as the page renders them. */
  function Flatten(groups: seq<Group>): seq<Entry>
  {
    if groups == [] then [] else groups[0].1 + Flatten(groups[1..])
  }

  /** One more entry: its label is appended unless already listed. */
  lemma KeysSnoc(s: seq<Entry>, e: Entry, monthKey: Date -> MonthKey)
    ensures var ks := Keys(s, monthKey); var k := monthKey(e.date);
      Keys(s + [e], monthKey) == if k in ks then ks else ks + [k]
  {
    assert (s + [e])[..|s|] == s;
  }

  /** One more entry: it is appended to the members of its own label only. */
  lemma MembersSnoc(s: seq<Entry>, e: Entry, monthKey: Date -> MonthKey)
    ensures Members(s + [e], monthKey, monthKey(e.date)) == Members(s, monthKey, monthKey(e.date)) + [e]
    ensures forall k {:trigger Members(s + [e], monthKey, k)} :: k != monthKey(e.date) ==>
      Members(s + [e], monthKey, k) == Members(s, monthKey, k)
  {
    assert (s + [e])[..|s|] == s;
    forall k | k != monthKey(e.date)
      ensures Members(s + [e], monthKey, k) == Members(s, monthKey, k)
    {
      assert Members(s, monthKey, k) + [] == Members(s, monthKey, k);
    }
  }

  /** Keys lists exactly the labels occurring in `s`, each once. */
  lemma {:induction false} KeysAreTheLabels(s: seq<Entry>, monthKey: Date -> MonthKey)
    ensures forall q :: 0 <= q < |s| ==> monthKey(s[q].date) in Keys(s, monthKey)
    ensures forall k :: k in Keys(s, monthKey) ==> exists q :: 0 <= q < |s| && monthKey(s[q].date) == k
    ensures forall a, b :: 0 <= a < b < |Keys(s, monthKey)| ==> Keys(s, monthKey)[a] != Keys(s, monthKey)[b]
    decreases |s|
  {
    if s != [] {
      var init := s[..|s| - 1];
      var e := s[|s| - 1];
      assert s == init + [e];
      assert forall q :: 0 <= q < |init| ==> init[q] == s[q];
      KeysAreTheLabels(init, monthKey);
      KeysSnoc(init, e, monthKey);
    }
  }

  /** Members holds exactly the entries of `s` that carry label `k`. */
  lemma {:induction false} MembersAreTheLabelled(s: seq<Entry>, monthKey: Date -> MonthKey, k: MonthKey)
    ensures forall x :: x in Members(s, monthKey, k) <==> x in s && monthKey(x.date) == k
    decreases |s|
  {
    if s != [] {
      var init := s[..|s| - 1];
      var e := s[|s| - 1];
      assert s == init + [e];
      MembersAreTheLabelled(init, monthKey, k);
      MembersSnoc(init, e, monthKey);
    }
  }

  /** A label that is not listed has no members. */
  lemma MembersOfUnlisted(s: seq<Entry>, monthKey: Date -> MonthKey, k: MonthKey)
    requires k !in Keys(s, monthKey)
    ensures Members(s, monthKey, k) == []
  {
    KeysAreTheLabels(s, monthKey);
    MembersAreTheLabelled(s, monthKey, k);
  }

  /** The fold's accumulator after reading `prefix`: the dictionary's keys in
      insertion order, and each key's bucket. */
  ghost predicate Folded(byKey: map<MonthKey, seq<Entry>>, order: seq<MonthKey>,
                         prefix: seq<Entry>, monthKey: Date -> MonthKey)
  {
    && order == Keys(prefix, monthKey)
    && (forall k :: k in byKey <==> k in order)
    && (forall k :: k in byKey ==> byKey[k] == Members(prefix, monthKey, k))
  }

  /** One step of the fold: create the bucket on first sight, then push. */
  lemma FoldStep(byKey: map<MonthKey, seq<Entry>>, order: seq<MonthKey>,
                 prefix: seq<Entry>, entry: Entry, monthKey: Date -> MonthKey)
    requires Folded(byKey, order, prefix, monthKey)
    ensures var k := monthKey(entry.date);
      var created := if k in byKey then byKey else byKey[k := []];
      var order' := if k in byKey then order else order + [k];
      Folded(created[k := created[k] + [entry]], order', prefix + [entry], monthKey)
  {
    var k := monthKey(entry.date);
    KeysSnoc(prefix, entry, monthKey);
    MembersSnoc(prefix, entry, monthKey);
    if k !in byKey {
      MembersOfUnlisted(prefix, monthKey, k);
    }
  }

  /** The `reduce` with a dictionary accumulator, then `Object.entries`. */
  method GroupByMonth(entries: seq<Entry>, monthKey: Date -> MonthKey) returns (groups: seq<Group>)
    ensures groups == Grouping(entries, monthKey)
  {
    var byKey: map<MonthKey, seq<Entry>> := map[];
    var order: seq<MonthKey> := [];   // the dictionary's insertion order
    for i := 0 to |entries|
      invariant Folded(byKey, order, entries[..i], monthKey)
    {
      var entry := entries[i];
      var k := monthKey(entry.date);
      assert entries[..i + 1] == entries[..i] + [entry];
      FoldStep(byKey, order, entries[..i], entry, monthKey);
      if k !in byKey {
        byKey := byKey[k := []];
        order := order + [k];
      }
      byKey := byKey[k := byKey[k] + [entry]];
    }
    assert entries[..|entries|] == entries;
    groups := seq(|order|, j requires 0 <= j < |order| => (order[j], byKey[order[j]]));
  }

  // ----- Properties of the grouping -----

  /** Labels are pairwise distinct, and every member of a group carries the group's label. */
  lemma GroupsAreLabelled(s: seq<Entry>, monthKey: Date -> MonthKey)
    ensures var g := Grouping(s, monthKey);
      && (forall a, b :: 0 <= a < b < |g| ==> g[a].0 != g[b].0)
      && (forall a, e :: 0 <= a < |g| && e in g[a].1 ==> monthKey(e.date) == g[a].0)
  {
    var g := Grouping(s, monthKey);
    KeysAreTheLabels(s, monthKey);
    forall a | 0 <= a < |g|
      ensures forall e :: e in g[a].1 ==> monthKey(e.date) == g[a].0
    {
      MembersAreTheLabelled(s, monthKey, g[a].0);
    }
  }

  /** Every input entry lies in the group of its own label, and in no other. */
  lemma EachEntryInItsGroup(s: seq<Entry>, monthKey: Date -> MonthKey)
    ensures var g := Grouping(s, monthKey);
      forall q :: 0 <= q < |s| ==>
        && (exists a :: 0 <= a < |g| && g[a].0 == monthKey(s[q].date))
        && (forall a :: 0 <= a < |g| ==> (s[q] in g[a].1 <==> g[a].0 == monthKey(s[q].date)))
  {
    var g := Grouping(s, monthKey);
    var ks := Keys(s, monthKey);
    KeysAreTheLabels(s, monthKey);
    forall q | 0 <= q < |s|
      ensures exists a :: 0 <= a < |g| && g[a].0 == monthKey(s[q].date)
      ensures forall a :: 0 <= a < |g| ==> (s[q] in g[a].1 <==> g[a].0 == monthKey(s[q].date))
    {
      var a :| 0 <= a < |ks| && ks[a] == monthKey(s[q].date);
      assert g[a].0 == monthKey(s[q].date);
      forall b | 0 <= b < |g|
        ensures s[q] in g[b].1 <==> g[b].0 == monthKey(s[q].date)
      {
        MembersAreTheLabelled(s, monthKey, g[b].0);
      }
    }
  }

  /** One more entry with a new label opens a new group at the end. */
  lemma GroupingSnocNew(s: seq<Entry>, e: Entry, monthKey: Date -> MonthKey)
    requires monthKey(e.date) !in Keys(s, monthKey)
    ensures Grouping(s + [e], monthKey) == Grouping(s, monthKey) + [(monthKey(e.date), [e])]
  {
    var k := monthKey(e.date);
    var ks := Keys(s, monthKey);
    KeysSnoc(s, e, monthKey);
    assert Keys(s + [e], monthKey) == ks + [k];
    MembersSnoc(s, e, monthKey);
    MembersOfUnlisted(s, monthKey, k);
    assert Members(s + [e], monthKey, k) == [e];
    var g := Grouping(s, monthKey);
    var g' := Grouping(s + [e], monthKey);
    forall a | 0 <= a < |g|
      ensures g'[a] == g[a]
    {
      assert ks[a] != k;
    }
    assert g'[|g|] == (k, [e]);
  }

  /** One more entry with the label listed at `a` joins the end of group `a`. */
  lemma GroupingSnocListed(s: seq<Entry>, e: Entry, monthKey: Date -> MonthKey, a: nat)
    requires a < |Keys(s, monthKey)| && Keys(s, monthKey)[a] == monthKey(e.date)
    ensures var g := Grouping(s, monthKey);
      Grouping(s + [e], monthKey) == g[a := (monthKey(e.date), g[a].1 + [e])]
  {
    var k := monthKey(e.date);
    KeysSnoc(s, e, monthKey);
    MembersSnoc(s, e, monthKey);
    KeysAreTheLabels(s, monthKey);
    var ks := Keys(s, monthKey);
    var g := Grouping(s, monthKey);
    var g' := Grouping(s + [e], monthKey);
    assert |g'| == |g|;
    forall b | 0 <= b < |g|
      ensures g'[b] == g[a := (k, g[a].1 + [e])][b]
    {
      assert g'[b] == (ks[b], Members(s + [e], monthKey, ks[b]));
      assert g[b] == (ks[b], Members(s, monthKey, ks[b]));
      if b != a {
        assert ks[b] != k;
      }
    }
  }

  lemma {:induction false} FlattenAppend(g: seq<Group>, p: Group)
    ensures Flatten(g + [p]) == Flatten(g) + p.1
  {
    if g != [] {
      assert (g + [p])[1..] == g[1..] + [p];
      FlattenAppend(g[1..], p);
    } else {
      assert [p][1..] == [];
    }
  }

  /** Extending one group by `q` extends the flattened multiset by `q`. */
  lemma {:induction false} FlattenExtend(g: seq<Group>, a: nat, q: seq<Entry>)
    requires a < |g|
    ensures multiset(Flatten(g[a := (g[a].0, g[a].1 + q)])) == multiset(Flatten(g)) + multiset(q)
  {
    var h := g[a := (g[a].0, g[a].1 + q)];
    assert Flatten(h) == h[0].1 + Flatten(h[1..]);
    assert Flatten(g) == g[0].1 + Flatten(g[1..]);
    if a == 0 {
      assert h[1..] == g[1..];
      calc {
        multiset(Flatten(h));
        multiset(g[0].1 + q) + multiset(Flatten(g[1..]));
        multiset(g[0].1) + multiset(q) + multiset(Flatten(g[1..]));
        multiset(g[0].1) + multiset(Flatten(g[1..])) + multiset(q);
      }
    } else {
      assert h[0] == g[0] && h[1..] == g[1..][a - 1 := (g[a].0, g[a].1 + q)];
      assert g[1..][a - 1] == g[a];
      FlattenExtend(g[1..], a - 1, q);
      calc {
        multiset(Flatten(h));
        multiset(g[0].1) + multiset(Flatten(h[1..]));
        multiset(g[0].1) + (multiset(Flatten(g[1..])) + multiset(q));
        multiset(g[0].1) + multiset(Flatten(g[1..])) + multiset(q);
      }
    }
  }

  /** Extending the last group extends the flattening at its end. */
  lemma FlattenExtendLast(g: seq<Group>, q: seq<Entry>)
    requires g != []
    ensures var last := |g| - 1;
      Flatten(g[last := (g[last].0, g[last].1 + q)]) == Flatten(g) + q
  {
    var last := |g| - 1;
    var p := (g[last].0, g[last].1 + q);
    assert g[last := p] == g[..last] + [p];
    assert g == g[..last] + [g[last]];
    FlattenAppend(g[..last], p);
    FlattenAppend(g[..last], g[last]);
  }

  /** No entry is lost or duplicated: the groups hold exactly the input, so
      their sizes add up to the input's length. */
  lemma {:induction false} GroupingIsPartition(s: seq<Entry>, monthKey: Date -> MonthKey)
    ensures multiset(Flatten(Grouping(s, monthKey))) == multiset(s)
    ensures |Flatten(Grouping(s, monthKey))| == |s|
    decreases |s|
  {
    if s != [] {
      var init := s[..|s| - 1];
      var e := s[|s| - 1];
      assert s == init + [e];
      GroupingIsPartition(init, monthKey);
      var k := monthKey(e.date);
      var g := Grouping(init, monthKey);
      var ks := Keys(init, monthKey);
      if k in ks {
        var a :| 0 <= a < |ks| && ks[a] == k;
        GroupingSnocListed(init, e, monthKey, a);
        FlattenExtend(g, a, [e]);
      } else {
        GroupingSnocNew(init, e, monthKey);
        FlattenAppend(g, (k, [e]));
      }
      assert multiset(s) == multiset(init) + multiset([e]);
    }
    assert |multiset(Flatten(Grouping(s, monthKey)))| == |multiset(s)|;
  }

  /** Within a group, entries keep their relative order from the input. */
  lemma {:induction false} GroupsKeepInputOrder(s: seq<Entry>, monthKey: Date -> MonthKey, k: MonthKey)
    ensures IsSubsequence(Members(s, monthKey, k), s)
    decreases |s|
  {
    if s != [] {
      var init := s[..|s| - 1];
      var e := s[|s| - 1];
      assert s == init + [e];
      var m := Members(init, monthKey, k);
      GroupsKeepInputOrder(init, monthKey, k);
      MembersSnoc(init, e, monthKey);
      if monthKey(e.date) == k {
        assert Members(s, monthKey, k) == m + [e];
        SubsequenceSnocBoth(m, init, e);
      } else {
        assert Members(s, monthKey, k) == m;
        SubsequenceSnocRight(m, init, e);
      }
    }
  }

  lemma {:induction false} SubsequenceOfSingle<T>(x: T, b: seq<T>)
    ensures IsSubsequence([x], b + [x])
    decreases |b|
  {
    if b != [] {
      assert (b + [x])[1..] == b[1..] + [x];
      if b[0] != x {
        SubsequenceOfSingle(x, b[1..]);
      }
    }
  }

  lemma {:induction false} SubsequenceSnocRight<T>(a: seq<T>, b: seq<T>, x: T)
    requires IsSubsequence(a, b)
    ensures IsSubsequence(a, b + [x])
    decreases |b|
  {
    if a != [] {
      assert (b + [x])[1..] == b[1..] + [x];
      if a[0] == b[0] {
        SubsequenceSnocRight(a[1..], b[1..], x);
      } else {
        SubsequenceSnocRight(a, b[1..], x);
      }
    }
  }

  lemma {:induction false} SubsequenceSnocBoth<T>(a: seq<T>, b: seq<T>, x: T)
    requires IsSubsequence(a, b)
    ensures IsSubsequence(a + [x], b + [x])
    decreases |b|
  {
    if a == [] {
      assert [] + [x] == [x];
      SubsequenceOfSingle(x, b);
    } else {
      assert (b + [x])[1..] == b[1..] + [x];
      assert (a + [x])[1..] == a[1..] + [x];
      if a[0] == b[0] {
        SubsequenceSnocBoth(a[1..], b[1..], x);
      } else {
        SubsequenceSnocBoth(a, b[1..], x);
      }
    }
  }

  /** The position of the first entry labelled `k`. */
  function FirstIndex(s: seq<Entry>, monthKey: Date -> MonthKey, k: MonthKey): (r: nat)
    requires k in Keys(s, monthKey)
    ensures r < |s| && monthKey(s[r].date) == k
    ensures forall q :: 0 <= q < r ==> monthKey(s[q].date) != k
  {
    var init := s[..|s| - 1];
    assert forall q :: 0 <= q < |init| ==> init[q] == s[q];
    KeysAreTheLabels(init, monthKey);
    if k in Keys(init, monthKey) then FirstIndex(init, monthKey, k) else |s| - 1
  }

  /** Groups appear in the order in which their labels first occur in the input. */
  lemma {:induction false} GroupsInFirstOccurrenceOrder(s: seq<Entry>, monthKey: Date -> MonthKey, a: nat, b: nat)
    requires a < b < |Grouping(s, monthKey)|
    ensures FirstIndex(s, monthKey, Grouping(s, monthKey)[a].0) < FirstIndex(s, monthKey, Grouping(s, monthKey)[b].0)
  {
    KeysOrder(s, monthKey, a, b);
  }

  /** Labels are listed in the order of their first occurrences. */
  lemma {:induction false} KeysOrder(s: seq<Entry>, monthKey: Date -> MonthKey, a: nat, b: nat)
    requires a < b < |Keys(s, monthKey)|
    ensures FirstIndex(s, monthKey, Keys(s, monthKey)[a]) < FirstIndex(s, monthKey, Keys(s, monthKey)[b])
    decreases |s|
  {
    var init := s[..|s| - 1];
    var ks := Keys(s, monthKey);
    var ki := Keys(init, monthKey);
    var last := monthKey(s[|s| - 1].date);
    if last !in ki && b == |ki| {
      assert ks[b] == last && ks[a] == ki[a];
    } else {
      KeysOrder(init, monthKey, a, b);
    }
  }

  lemma {:induction false} DistinctCard(ks: seq<MonthKey>)
    requires forall a, b :: 0 <= a < b < |ks| ==> ks[a] != ks[b]
    ensures |set k | k in ks| == |ks|
  {
    if ks != [] {
      var rest := ks[1..];
      DistinctCard(rest);
      assert (set k | k in ks) == (set k | k in rest) + {ks[0]};
      assert ks[0] !in rest;
    }
  }

  /** There are as many groups as distinct labels among the entries. */
  lemma GroupCount(s: seq<Entry>, monthKey: Date -> MonthKey)
    ensures |Grouping(s, monthKey)| == |set q | 0 <= q < |s| :: monthKey(s[q].date)|
  {
    var ks := Keys(s, monthKey);
    KeysAreTheLabels(s, monthKey);
    DistinctCard(ks);
    assert (set k | k in ks) == (set q | 0 <= q < |s| :: monthKey(s[q].date));
  }

  // ----- Concatenating the groups of a sorted list -----

  /** Each label covers a run of consecutive dates: a label shared by two
      dates is shared by every date between them. */
  ghost predicate RunsOfDates(monthKey: Date -> MonthKey)
  {
    forall d1, d2, d3 :: d1 >= d2 >= d3 && monthKey(d1) == monthKey(d3) ==> monthKey(d2) == monthKey(d1)
  }

  /** Entry `b` lies between two entries `a` and `c` and, when those share a
      label, carries it too. */
  predicate SharedBetween(s: seq<Entry>, monthKey: Date -> MonthKey, a: int, b: int, c: int)
    requires 0 <= a < b < c < |s|
  {
    monthKey(s[a].date) == monthKey(s[c].date) ==> monthKey(s[b].date) == monthKey(s[a].date)
  }

  /** Entries with the same label are adjacent: every entry between two
      entries of one label carries that label too. */
  ghost predicate LabelsContiguous(s: seq<Entry>, monthKey: Date -> MonthKey)
  {
    forall a, b, c :: 0 <= a < b < c < |s| ==> SharedBetween(s, monthKey, a, b, c)
  }

  lemma SortedLabelsContiguous(s: seq<Entry>, monthKey: Date -> MonthKey)
    requires Sorted(s) && RunsOfDates(monthKey)
    ensures LabelsContiguous(s, monthKey)
  {
    forall a, b, c | 0 <= a < b < c < |s|
      ensures SharedBetween(s, monthKey, a, b, c)
    {
      assert s[a].date >= s[b].date >= s[c].date;
    }
  }

  /** Contiguity survives dropping the last entry. */
  lemma ContiguousPrefix(s: seq<Entry>, monthKey: Date -> MonthKey)
    requires s != [] && LabelsContiguous(s, monthKey)
    ensures LabelsContiguous(s[..|s| - 1], monthKey)
  {
    var init := s[..|s| - 1];
    forall a, b, c | 0 <= a < b < c < |init|
      ensures SharedBetween(init, monthKey, a, b, c)
    {
      assert SharedBetween(s, monthKey, a, b, c);
      assert init[a] == s[a] && init[b] == s[b] && init[c] == s[c];
    }
  }

  /** The last label listed after one more entry, given the last label before. */
  lemma KeysLast(init: seq<Entry>, x: Entry, monthKey: Date -> MonthKey)
    requires init != [] && Keys(init, monthKey) != []
    requires Keys(init, monthKey)[|Keys(init, monthKey)| - 1] == monthKey(init[|init| - 1].date)
    requires monthKey(x.date) in Keys(init, monthKey) ==> monthKey(init[|init| - 1].date) == monthKey(x.date)
    ensures Keys(init + [x], monthKey) != []
    ensures Keys(init + [x], monthKey)[|Keys(init + [x], monthKey)| - 1] == monthKey(x.date)
  {
    KeysSnoc(init, x, monthKey);
    var ks := Keys(init, monthKey);
    if monthKey(x.date) in ks {
      assert Keys(init + [x], monthKey) == ks;
    } else {
      assert Keys(init + [x], monthKey) == ks + [monthKey(x.date)];
    }
  }

  /** With contiguous labels, the last label listed is that of the last entry. */
  lemma {:induction false} LastKey(s: seq<Entry>, monthKey: Date -> MonthKey)
    requires s != [] && LabelsContiguous(s, monthKey)
    ensures Keys(s, monthKey) != [] && Keys(s, monthKey)[|Keys(s, monthKey)| - 1] == monthKey(s[|s| - 1].date)
    decreases |s|
  {
    var init := s[..|s| - 1];
    var x := s[|s| - 1];
    assert s == init + [x];
    if init == [] {
      KeysSnoc(init, x, monthKey);
    } else {
      ContiguousPrefix(s, monthKey);
      LastKey(init, monthKey);
      if monthKey(x.date) in Keys(init, monthKey) {
        var q := FirstIndex(init, monthKey, monthKey(x.date));
        if q < |init| - 1 {
          assert init[q] == s[q] && init[|init| - 1] == s[|init| - 1];
          assert SharedBetween(s, monthKey, q, |init| - 1, |s| - 1);
        }
      }
      KeysLast(init, x, monthKey);
    }
  }

  /**
   * When the list is sorted by date, newest first, and each label covers a
   * run of dates, reading the groups in order gives back the list itself.
   */
  lemma GroupsOfSortedListReassemble(s: seq<Entry>, monthKey: Date -> MonthKey)
    requires Sorted(s) && RunsOfDates(monthKey)
    ensures Flatten(Grouping(s, monthKey)) == s
  {
    SortedLabelsContiguous(s, monthKey);
    ContiguousReassemble(s, monthKey);
  }

  lemma {:induction false} ContiguousReassemble(s: seq<Entry>, monthKey: Date -> MonthKey)
    requires LabelsContiguous(s, monthKey)
    ensures Flatten(Grouping(s, monthKey)) == s
    decreases |s|
  {
    if s != [] {
      var init := s[..|s| - 1];
      var e := s[|s| - 1];
      assert s == init + [e];
      ContiguousPrefix(s, monthKey);
      ContiguousReassemble(init, monthKey);
      var k := monthKey(e.date);
      var g := Grouping(init, monthKey);
      var ks := Keys(init, monthKey);
      if k in ks {
        LastKey(s, monthKey);
        KeysSnoc(init, e, monthKey);
        var last := |g| - 1;
        assert ks[last] == k;
        GroupingSnocListed(init, e, monthKey, last);
        FlattenExtendLast(g, [e]);
      } else {
        GroupingSnocNew(init, e, monthKey);
        FlattenAppend(g, (k, [e]));
      }
    }
  }
}
