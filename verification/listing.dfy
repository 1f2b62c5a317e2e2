/** The dashboard list view (main.py, display_all_dashboards): the ownership
    filter and the four stable sorts applied to the fetched catalog. */
module Listing {
  import opened Outcomes
  import opened Strings
  import opened Catalog

  /** The "Filtrer par" choices: "Tous", "Mes dashboards", "Dashboards publics". */
  datatype FilterOption = AllDashboards | MyDashboards | PublicDashboards

  /** Whether the filter keeps a dashboard (`is_owner` is always set by the fetch). */
  predicate Keeps(opt: FilterOption, d: Dashboard) {
    match opt
    case AllDashboards => true
    case MyDashboards => d.isOwner
    case PublicDashboards => !d.isOwner
  }

  /** The filter loop: the kept dashboards, in list order. */
  function FilterDashboards(ds: seq<Dashboard>, opt: FilterOption): (r: seq<Dashboard>)
    ensures |r| <= |ds|
    ensures forall i :: 0 <= i < |r| ==> Keeps(opt, r[i])
  {
    if |ds| == 0 then []
    else (if Keeps(opt, ds[0]) then [ds[0]] else []) + FilterDashboards(ds[1..], opt)
  }

  /** A dashboard survives the filter exactly when it is listed and kept. */
  lemma {:induction false} FilterMembership(ds: seq<Dashboard>, opt: FilterOption, d: Dashboard)
    ensures d in FilterDashboards(ds, opt) <==> d in ds && Keeps(opt, d)
  {
    if |ds| > 0 {
      FilterMembership(ds[1..], opt, d);
      assert ds == [ds[0]] + ds[1..];
    }
  }

  /** "Mes dashboards" and "Dashboards publics" split the list between them,
      and "Tous" keeps it whole. */
  lemma {:induction false} OwnershipFilterPartitions(ds: seq<Dashboard>)
    ensures FilterDashboards(ds, AllDashboards) == ds
    ensures multiset(FilterDashboards(ds, MyDashboards)) + multiset(FilterDashboards(ds, PublicDashboards))
      == multiset(ds)
    ensures |FilterDashboards(ds, MyDashboards)| + |FilterDashboards(ds, PublicDashboards)| == |ds|
  {
    FilterAllKeepsAll(ds);
    FilterSplits(ds);
    assert |multiset(ds)| == |ds|;
  }

  lemma {:induction false} FilterAllKeepsAll(ds: seq<Dashboard>)
    ensures FilterDashboards(ds, AllDashboards) == ds
  {
    if |ds| > 0 {
      FilterAllKeepsAll(ds[1..]);
      assert ds == [ds[0]] + ds[1..];
    }
  }

  lemma {:induction false} FilterSplits(ds: seq<Dashboard>)
    ensures multiset(FilterDashboards(ds, MyDashboards)) + multiset(FilterDashboards(ds, PublicDashboards))
      == multiset(ds)
  {
    if |ds| > 0 {
      var d, rest := ds[0], ds[1..];
      var mine, pub := multiset(FilterDashboards(rest, MyDashboards)), multiset(FilterDashboards(rest, PublicDashboards));
      FilterSplits(rest);
      assert mine + pub == multiset(rest);
      FilterHead(ds, MyDashboards);
      FilterHead(ds, PublicDashboards);
      assert multiset(ds) == multiset{d} + multiset(rest) by {
        assert ds == [d] + rest;
      }
      if d.isOwner {
        calc {
          multiset(FilterDashboards(ds, MyDashboards)) + multiset(FilterDashboards(ds, PublicDashboards));
          (multiset{d} + mine) + pub;
          multiset{d} + (mine + pub);
        }
      } else {
        calc {
          multiset(FilterDashboards(ds, MyDashboards)) + multiset(FilterDashboards(ds, PublicDashboards));
          mine + (multiset{d} + pub);
          multiset{d} + (mine + pub);
        }
      }
    }
  }

  lemma FilterHead(ds: seq<Dashboard>, opt: FilterOption)
    requires |ds| > 0
    ensures multiset(FilterDashboards(ds, opt))
      == (if Keeps(opt, ds[0]) then multiset{ds[0]} else multiset{}) + multiset(FilterDashboards(ds[1..], opt))
  {
  }

  /** A sort key: a string compared by code points, or an integer. */
  datatype Key = StrKey(s: string) | IntKey(n: int)

  /** Python's `<` on strings: lexicographic by code point, a proper prefix first. */
  predicate StrLess(a: string, b: string)
    decreases |a|
  {
    if |a| == 0 then |b| > 0
    else if |b| == 0 then false
    else if a[0] != b[0] then a[0] < b[0]
    else StrLess(a[1..], b[1..])
  }

  /** `<` on keys; a string key and an integer key never meet in one sort. */
  predicate KeyLess(a: Key, b: Key) {
    match (a, b)
    case (StrKey(x), StrKey(y)) => StrLess(x, y)
    case (IntKey(x), IntKey(y)) => x < y
    case (StrKey(_), IntKey(_)) => true
    case (IntKey(_), StrKey(_)) => false
  }

  lemma {:induction false} StrLessIrreflexive(a: string)
    ensures !StrLess(a, a)
    decreases |a|
  {
    if |a| > 0 {
      StrLessIrreflexive(a[1..]);
    }
  }

  lemma {:induction false} StrLessTransitive(a: string, b: string, c: string)
    requires StrLess(a, b) && StrLess(b, c)
    ensures StrLess(a, c)
    decreases |a|
  {
    if |a| > 0 && a[0] == b[0] && b[0] == c[0] {
      StrLessTransitive(a[1..], b[1..], c[1..]);
    }
  }

  lemma {:induction false} StrLessTotal(a: string, b: string)
    requires a != b
    ensures StrLess(a, b) || StrLess(b, a)
    decreases |a|
  {
    if |a| > 0 && |b| > 0 && a[0] == b[0] {
      assert a == [a[0]] + a[1..] && b == [b[0]] + b[1..];
      StrLessTotal(a[1..], b[1..]);
    }
  }

  /** `<` on keys is a strict total order. */
  lemma KeyLessIsStrictTotalOrder()
    ensures forall a :: !KeyLess(a, a)
    ensures forall a, b, c :: KeyLess(a, b) && KeyLess(b, c) ==> KeyLess(a, c)
    ensures forall a, b :: a != b ==> KeyLess(a, b) || KeyLess(b, a)
  {
    forall a ensures !KeyLess(a, a) {
      if a.StrKey? { StrLessIrreflexive(a.s); }
    }
    forall a, b, c | KeyLess(a, b) && KeyLess(b, c) ensures KeyLess(a, c) {
      if a.StrKey? && b.StrKey? && c.StrKey? { StrLessTransitive(a.s, b.s, c.s); }
    }
    forall a, b | a != b ensures KeyLess(a, b) || KeyLess(b, a) {
      if a.StrKey? && b.StrKey? { StrLessTotal(a.s, b.s); }
    }
  }

  /** The "Trier par" choices: "Nom (A-Z)", "Nom (Z-A)", "Date création", "Nombre d'éléments". */
  datatype SortOption = NameAscending | NameDescending | CreatedDescending | ItemCountDescending

  /** The sort key of each choice: the lower-cased name (absent read as ""),
      the `created` string (absent read as ""), or the number of items (absent
      read as none). A JSON `null` in the key's field makes `SortListing` fail
      before any key is used, except a null `created` in a list of at most one
      dashboard, which is never compared and is read as "" here. */
  function SortKey(d: Dashboard, opt: SortOption): Key {
    match opt
    case NameAscending => StrKey(Lower(StringOr(d.raw.name)))
    case NameDescending => StrKey(Lower(StringOr(d.raw.name)))
    case CreatedDescending => StrKey(StringOr(d.raw.created))
    case ItemCountDescending => IntKey(if d.raw.items.Present? then |d.raw.items.value| else 0)
  }

  function StringOr(f: Field<string>): string {
    if f.Present? then f.value else ""
  }

  /** The field the option sorts on is JSON `null` in this dashboard. */
  predicate NullKey(d: Dashboard, opt: SortOption) {
    match opt
    case NameAscending => d.raw.name.Null?
    case NameDescending => d.raw.name.Null?
    case CreatedDescending => d.raw.created.Null?
    case ItemCountDescending => d.raw.items.Null?
  }

  /** `str(e)` of the AttributeError raised by `None.lower()`. */
  const NoLowerMessage: string := "'NoneType' object has no attribute 'lower'"

  /** `str(e)` of the TypeError raised by `len(None)`. */
  const NoLenMessage: string := "object of type 'NoneType' has no len()"

  /** The start of `str(e)` for the TypeError raised by `<` between `None` and a
      string key (or two `None` keys); the operand names that follow depend on
      which pair the sort compares first. */
  const NoLessPrefix: string := "'<' not supported between instances of "

  /** All but "Nom (A-Z)" sort with `reverse=True`. */
  predicate Descending(opt: SortOption) {
    opt != NameAscending
  }

  /** Python's stable `list.sort` as an order on positions: position `i`
      comes before `j` when its key is strictly earlier in the sort's
      direction, or when the keys are equal and `i` came first. */
  predicate Before(keys: seq<Key>, desc: bool, i: nat, j: nat)
    requires i < |keys| && j < |keys|
  {
    (if desc then KeyLess(keys[j], keys[i]) else KeyLess(keys[i], keys[j]))
    || (keys[i] == keys[j] && i < j)
  }

  lemma BeforeIsStrictTotalOrder(keys: seq<Key>, desc: bool)
    ensures forall i :: 0 <= i < |keys| ==> !Before(keys, desc, i, i)
    ensures forall i, j, k ::
      (0 <= i < |keys| && 0 <= j < |keys| && 0 <= k < |keys| && Before(keys, desc, i, j) && Before(keys, desc, j, k))
      ==> Before(keys, desc, i, k)
    ensures forall i, j ::
      (0 <= i < |keys| && 0 <= j < |keys| && i != j) ==> (Before(keys, desc, i, j) || Before(keys, desc, j, i))
  {
    KeyLessIsStrictTotalOrder();
  }

  predicate InRange(keys: seq<Key>, s: seq<nat>) {
    forall p :: 0 <= p < |s| ==> s[p] < |keys|
  }

  /** `s` lists positions in stable-sort order. */
  predicate SortedBy(keys: seq<Key>, desc: bool, s: seq<nat>)
    requires InRange(keys, s)
  {
    forall p, q :: 0 <= p < q < |s| ==> Before(keys, desc, s[p], s[q])
  }

  /** Insert position `j` in front of the first position it comes before. */
  function Insert(keys: seq<Key>, desc: bool, s: seq<nat>, j: nat): (r: seq<nat>)
    requires j < |keys| && InRange(keys, s)
    ensures InRange(keys, r)
    ensures multiset(r) == multiset(s) + multiset{j}
  {
    if |s| == 0 then [j]
    else if Before(keys, desc, j, s[0]) then [j] + s
    else
      assert s == [s[0]] + s[1..];
      [s[0]] + Insert(keys, desc, s[1..], j)
  }

  lemma {:induction false} InsertKeepsOrder(keys: seq<Key>, desc: bool, s: seq<nat>, j: nat)
    requires j < |keys| && InRange(keys, s) && SortedBy(keys, desc, s)
    requires j !in s
    ensures SortedBy(keys, desc, Insert(keys, desc, s, j))
  {
    if |s| > 0 && !Before(keys, desc, j, s[0]) {
      var tail := s[1..];
      assert forall q :: 0 <= q < |tail| ==> tail[q] == s[q + 1];
      InsertKeepsOrder(keys, desc, tail, j);
      var r := Insert(keys, desc, tail, j);
      BeforeIsStrictTotalOrder(keys, desc);
      assert Before(keys, desc, s[0], j);
      HeadBeforeInserted(keys, desc, s, j);
      ConsSorted(keys, desc, s[0], r);
    } else if |s| > 0 {
      forall q | 0 <= q < |s| ensures Before(keys, desc, j, s[q]) {
        if q > 0 {
          assert Before(keys, desc, s[0], s[q]);
          BeforeIsStrictTotalOrder(keys, desc);
        }
      }
      ConsSorted(keys, desc, j, s);
    }
  }

  /** The head of a sorted list comes before everything the insertion into
      its tail produces, when it comes before the inserted position. */
  lemma HeadBeforeInserted(keys: seq<Key>, desc: bool, s: seq<nat>, j: nat)
    requires j < |keys| && InRange(keys, s) && SortedBy(keys, desc, s) && |s| > 0
    requires Before(keys, desc, s[0], j)
    ensures forall q :: 0 <= q < |Insert(keys, desc, s[1..], j)| ==>
      Before(keys, desc, s[0], Insert(keys, desc, s[1..], j)[q])
  {
    var tail := s[1..];
    var r := Insert(keys, desc, tail, j);
    forall q | 0 <= q < |r| ensures Before(keys, desc, s[0], r[q]) {
      assert r[q] in multiset(r);
      assert r[q] in multiset(tail) + multiset{j};
      if r[q] != j {
        assert r[q] in tail;
        var t :| 0 <= t < |tail| && tail[t] == r[q];
        assert tail[t] == s[t + 1];
      }
    }
  }

  /** A position that comes before every element of a sorted list can lead it. */
  lemma ConsSorted(keys: seq<Key>, desc: bool, x: nat, r: seq<nat>)
    requires x < |keys| && InRange(keys, r) && SortedBy(keys, desc, r)
    requires forall q :: 0 <= q < |r| ==> Before(keys, desc, x, r[q])
    ensures InRange(keys, [x] + r) && SortedBy(keys, desc, [x] + r)
  {
    var full := [x] + r;
    forall p, q | 0 <= p < q < |full| ensures Before(keys, desc, full[p], full[q]) {
      if p > 0 {
        assert full[p] == r[p - 1] && full[q] == r[q - 1];
      } else {
        assert full[q] == r[q - 1];
      }
    }
  }

  function Range(n: nat): seq<nat> {
    seq(n, i requires 0 <= i < n => i)
  }

  /** Insertion sort of positions 0..n-1 of `keys`. */
  function SortPositions(keys: seq<Key>, desc: bool, n: nat): (r: seq<nat>)
    requires n <= |keys|
    ensures InRange(keys, r)
    ensures multiset(r) == multiset(Range(n))
    ensures SortedBy(keys, desc, r)
  {
    if n == 0 then []
    else
      var prev := SortPositions(keys, desc, n - 1);
      assert Range(n) == Range(n - 1) + [n - 1];
      assert n - 1 !in multiset(Range(n - 1));
      InsertKeepsOrder(keys, desc, prev, n - 1);
      Insert(keys, desc, prev, n - 1)
  }

  function KeysOf(ds: seq<Dashboard>, opt: SortOption): (keys: seq<Key>)
    ensures |keys| == |ds|
  {
    seq(|ds|, i requires 0 <= i < |ds| => SortKey(ds[i], opt))
  }

  /** The permutation the chosen sort applies: `SortOrder(ds, opt)[p]` is the
      original position of the dashboard shown at position `p`. */
  function SortOrder(ds: seq<Dashboard>, opt: SortOption): seq<nat> {
    SortPositions(KeysOf(ds, opt), Descending(opt), |ds|)
  }

  /** The dashboards at the given positions, in that order. */
  function Pick<T>(ds: seq<T>, order: seq<nat>): (r: seq<T>)
    requires forall p :: 0 <= p < |order| ==> order[p] < |ds|
    ensures |r| == |order|
    ensures forall p :: 0 <= p < |order| ==> r[p] == ds[order[p]]
  {
    seq(|order|, p requires 0 <= p < |order| => ds[order[p]])
  }

  lemma RangeBounds(n: nat, order: seq<nat>)
    requires multiset(order) == multiset(Range(n))
    ensures |order| == n
    ensures forall p :: 0 <= p < |order| ==> order[p] < n
  {
    assert |order| == |multiset(Range(n))| == n;
    forall p | 0 <= p < |order| ensures order[p] < n {
      assert order[p] in multiset(Range(n));
    }
  }

  /** `filtered_dashboards.sort(key=..., reverse=...)` for the chosen option. */
  function SortDashboards(ds: seq<Dashboard>, opt: SortOption): (r: seq<Dashboard>)
    ensures |r| == |ds|
  {
    var order := SortOrder(ds, opt);
    RangeBounds(|ds|, order);
    Pick(ds, order)
  }

  /** The sort rearranges the list: position `p` shows the dashboard from
      original position `SortOrder(ds, opt)[p]`, and every original position is
      shown exactly once. */
  lemma SortIsPermutation(ds: seq<Dashboard>, opt: SortOption)
    ensures |SortOrder(ds, opt)| == |ds|
    ensures forall p :: 0 <= p < |ds| ==>
      SortOrder(ds, opt)[p] < |ds| && SortDashboards(ds, opt)[p] == ds[SortOrder(ds, opt)[p]]
    ensures forall p, q :: 0 <= p < q < |ds| ==> SortOrder(ds, opt)[p] != SortOrder(ds, opt)[q]
    ensures forall i :: 0 <= i < |ds| ==> i in SortOrder(ds, opt)
  {
    var order := SortOrder(ds, opt);
    var keys := KeysOf(ds, opt);
    RangeBounds(|ds|, order);
    BeforeIsStrictTotalOrder(keys, Descending(opt));
    forall i | 0 <= i < |ds| ensures i in order {
      assert Range(|ds|)[i] == i;
      assert i in multiset(Range(|ds|));
    }
  }

  /** The sorted list is ordered by key in the option's direction, and
      dashboards with equal keys keep their original relative order. */
  lemma SortIsStable(ds: seq<Dashboard>, opt: SortOption)
    ensures forall p, q :: 0 <= p < q < |ds| ==>
      SortedPair(SortKey(SortDashboards(ds, opt)[p], opt), SortKey(SortDashboards(ds, opt)[q], opt), Descending(opt))
    ensures forall p, q :: 0 <= p < q < |ds| ==>
      SortKey(SortDashboards(ds, opt)[p], opt) == SortKey(SortDashboards(ds, opt)[q], opt)
      ==> SortOrder(ds, opt)[p] < SortOrder(ds, opt)[q]
  {
    var order := SortOrder(ds, opt);
    var keys := KeysOf(ds, opt);
    var sorted := SortDashboards(ds, opt);
    RangeBounds(|ds|, order);
    forall p, q | 0 <= p < q < |ds|
      ensures SortedPair(SortKey(sorted[p], opt), SortKey(sorted[q], opt), Descending(opt))
      ensures SortKey(sorted[p], opt) == SortKey(sorted[q], opt) ==> order[p] < order[q]
    {
      assert Before(keys, Descending(opt), order[p], order[q]);
      assert sorted[p] == ds[order[p]] && sorted[q] == ds[order[q]];
      assert keys[order[p]] == SortKey(sorted[p], opt) && keys[order[q]] == SortKey(sorted[q], opt);
      BeforeIsSortedPair(keys, Descending(opt), order[p], order[q]);
    }
  }

  lemma BeforeIsSortedPair(keys: seq<Key>, desc: bool, i: nat, j: nat)
    requires i < |keys| && j < |keys| && Before(keys, desc, i, j)
    ensures SortedPair(keys[i], keys[j], desc)
    ensures keys[i] == keys[j] ==> i < j
  {
    KeyLessIsStrictTotalOrder();
  }

  /** Keys `a` then `b` are in order for the sort's direction. */
  predicate SortedPair(a: Key, b: Key, desc: bool) {
    if desc then !KeyLess(a, b) else !KeyLess(b, a)
  }

  /** A list of at most one dashboard is left as it is, whatever its keys. */
  lemma ShortListUnsorted(ds: seq<Dashboard>, opt: SortOption)
    requires |ds| <= 1
    ensures SortDashboards(ds, opt) == ds
  {
  }

  /** The sort statement of the list view, with its exceptions: the key
      function runs on every dashboard first, so a null name (name sorts) or a
      null `dashboardItems` (item-count sort) raises at once; a null `created`
      raises only when the sort compares it, which it does as soon as the list
      holds two dashboards. The exception is not caught and ends the page run. */
  function SortListing(ds: seq<Dashboard>, opt: SortOption): (r: Result<seq<Dashboard>>)
    ensures r.Err? <==>
      (exists i :: 0 <= i < |ds| && NullKey(ds[i], opt)) && (opt == CreatedDescending ==> |ds| >= 2)
    ensures r.Err? && (opt == NameAscending || opt == NameDescending) ==> r.message == NoLowerMessage
    ensures r.Err? && opt == ItemCountDescending ==> r.message == NoLenMessage
    ensures r.Err? && opt == CreatedDescending ==> StartsWith(r.message, NoLessPrefix)
    ensures r.Ok? ==> r.value == SortDashboards(ds, opt)
    ensures r.Ok? ==> |r.value| == |ds| && multiset(r.value) == multiset(ds)
    ensures r.Ok? && |ds| <= 1 ==> r.value == ds
  {
    if (exists i :: 0 <= i < |ds| && NullKey(ds[i], opt)) && (opt == CreatedDescending ==> |ds| >= 2) then
      Err(match opt
          case ItemCountDescending => NoLenMessage
          case CreatedDescending => NoLessPrefix + "'NoneType' and 'str'"
          case _ => NoLowerMessage)
    else
      SortPreservesMultiset(ds, opt);
      if |ds| <= 1 then ShortListUnsorted(ds, opt); Ok(SortDashboards(ds, opt))
      else Ok(SortDashboards(ds, opt))
  }

  /** The sorted list holds the same dashboards, as many times each. */
  lemma SortPreservesMultiset(ds: seq<Dashboard>, opt: SortOption)
    ensures multiset(SortDashboards(ds, opt)) == multiset(ds)
  {
    var order := SortOrder(ds, opt);
    var sorted := SortDashboards(ds, opt);
    SortIsPermutation(ds, opt);
    PickPermutation(ds, order);
  }

  /** Picking by a rearrangement of all positions yields a rearrangement of the list. */
  lemma PickPermutation<T>(ds: seq<T>, order: seq<nat>)
    requires multiset(order) == multiset(Range(|ds|))
    ensures forall p :: 0 <= p < |order| ==> order[p] < |ds|
    ensures multiset(Pick(ds, order)) == multiset(ds)
  {
    RangeBounds(|ds|, order);
    var all := Range(|ds|);
    PickSameMultiset(ds, order, all);
    assert Pick(ds, all) == ds;
  }

  lemma {:induction false} PickSameMultiset<T>(ds: seq<T>, o1: seq<nat>, o2: seq<nat>)
    requires forall p :: 0 <= p < |o1| ==> o1[p] < |ds|
    requires forall p :: 0 <= p < |o2| ==> o2[p] < |ds|
    requires multiset(o1) == multiset(o2)
    ensures multiset(Pick(ds, o1)) == multiset(Pick(ds, o2))
    decreases |o1|
  {
    if |o1| == 0 {
      assert |o2| == |multiset(o2)| == 0;
    } else {
      var x := o1[0];
      assert x in multiset(o2);
      var t :| 0 <= t < |o2| && o2[t] == x;
      var rest := RemoveAt(o2, t);
      assert o1 == [x] + o1[1..];
      assert multiset(o1[1..]) == multiset(rest);
      PickSameMultiset(ds, o1[1..], rest);
      PickRemoveAt(ds, o2, t);
      PickRemoveAt(ds, o1, 0);
      assert RemoveAt(o1, 0) == o1[1..];
    }
  }

  /** `o` without its element at position `t`. */
  function RemoveAt(o: seq<nat>, t: nat): (r: seq<nat>)
    requires t < |o|
    ensures multiset(r) == multiset(o) - multiset{o[t]}
    ensures forall p :: 0 <= p < |r| ==> r[p] in o
  {
    assert o == o[..t] + [o[t]] + o[t + 1..];
    o[..t] + o[t + 1..]
  }

  lemma PickRemoveAt<T>(ds: seq<T>, o: seq<nat>, t: nat)
    requires t < |o|
    requires forall p :: 0 <= p < |o| ==> o[p] < |ds|
    ensures multiset(Pick(ds, o)) == multiset{ds[o[t]]} + multiset(Pick(ds, RemoveAt(o, t)))
  {
    var front, back, y := o[..t], o[t + 1..], o[t];
    var pf, pb := Pick(ds, front), Pick(ds, back);
    PickSplit(ds, o, t);
    PickAppend(ds, front, back);
    assert multiset(pf + [ds[y]] + pb) == multiset(pf) + multiset{ds[y]} + multiset(pb);
  }

  lemma PickSplit<T>(ds: seq<T>, o: seq<nat>, t: nat)
    requires t < |o|
    requires forall p :: 0 <= p < |o| ==> o[p] < |ds|
    ensures Pick(ds, o) == Pick(ds, o[..t]) + [ds[o[t]]] + Pick(ds, o[t + 1..])
  {
  }

  lemma PickAppend<T>(ds: seq<T>, a: seq<nat>, b: seq<nat>)
    requires forall p :: 0 <= p < |a| ==> a[p] < |ds|
    requires forall p :: 0 <= p < |b| ==> b[p] < |ds|
    ensures Pick(ds, a + b) == Pick(ds, a) + Pick(ds, b)
  {
  }
}
