/** The least free number of a list, and the label allocator that lives on it. */
module Labels {
  import opened Tries
  import opened Sets

  // ------------------------------------------------------------ sorting

  predicate Ascending(s: seq<int>) {
    forall i, j | 0 <= i < j < |s| :: s[i] <= s[j]
  }

  function Inserted(s: seq<int>, x: int): (r: seq<int>)
    requires Ascending(s)
    ensures Ascending(r) && |r| == |s| + 1 && forall y :: y in r <==> y == x || y in s
  {
    if s == [] || s[|s| - 1] <= x then s + [x]
    else
      var n := |s| - 1;
      var front := Inserted(s[..n], x);
      assert s == s[..n] + [s[n]];
      assert forall y | y in s[..n] :: y <= s[n];
      assert forall y | y in front :: y <= s[n];
      assert forall i | 0 <= i < |front| :: front[i] in front;
      front + [s[n]]
  }

  /** A list in ascending order. */
  function Sorted(s: seq<int>): (r: seq<int>)
    ensures Ascending(r) && |r| == |s| && forall y :: y in r <==> y in s
  {
    if s == [] then []
    else
      assert s == [s[0]] + s[1..];
      Inserted(Sorted(s[1..]), s[0])
  }

  predicate Distinct(s: seq<int>) {
    forall i, j | 0 <= i < j < |s| :: s[i] != s[j]
  }

  function Elements(s: seq<int>): set<int> {
    set x | x in s
  }

  lemma DistinctSnoc(s: seq<int>, x: int)
    ensures Distinct(s + [x]) <==> Distinct(s) && x !in s
  {
    var t := s + [x];
    if Distinct(t) {
      assert forall i | 0 <= i < |s| :: s[i] == t[i] && t[i] != t[|s|];
    }
  }

  /** Taking one place out of a list without duplicates takes one element out. */
  lemma DistinctDrop(s: seq<int>, i: nat, t: seq<int>)
    requires Distinct(s) && i < |s| && t == s[..i] + s[i + 1..]
    ensures Distinct(t) && forall x :: x in t <==> x in s && x != s[i]
  {
    forall x ensures x in t <==> x in s && x != s[i] {
      if x in s && x != s[i] {
        var j :| 0 <= j < |s| && s[j] == x;
        assert t[if j < i then j else j - 1] == x;
      }
    }
  }

  /** A list has no duplicate exactly when it has as many elements as places. */
  lemma {:induction false} DistinctCount(s: seq<int>)
    ensures |Elements(s)| <= |s|
    ensures Distinct(s) <==> |Elements(s)| == |s|
  {
    if s != [] {
      var n := |s| - 1;
      var front, x := s[..n], s[n];
      DistinctCount(front);
      assert s == front + [x];
      assert Elements(s) == Elements(front) + {x};
      assert Distinct(s) <==> Distinct(front) && x !in front by { DistinctSnoc(front, x); }
    }
  }

  /** Sorting keeps a list free of duplicates. */
  lemma SortedDistinct(s: seq<int>)
    requires Distinct(s)
    ensures Distinct(Sorted(s))
  {
    DistinctCount(s);
    DistinctCount(Sorted(s));
    assert Elements(s) == Elements(Sorted(s));
  }

  // ------------------------------------------------------------ the least free number

  /** `r` is the least number from 0 on that is not in the list. */
  ghost predicate LeastFree(s: seq<int>, r: int) {
    r >= 0 && r !in s && forall k | 0 <= k < r :: k in s
  }

  function Below(n: nat): (s: set<int>)
    ensures |s| == n && forall k :: k in s <==> 0 <= k < n
  {
    if n == 0 then {} else Below(n - 1) + {n - 1}
  }

  /** As many numbers as are used below `r` are in the list. */
  lemma UsedBelow(s: seq<int>, r: nat)
    requires forall k | 0 <= k < r :: k in s
    ensures r <= |s|
  {
    DistinctCount(s);
    Subset(Below(r), Elements(s));
  }

  lemma {:induction false} Subset(a: set<int>, b: set<int>)
    requires a <= b
    ensures |a| <= |b|
  {
    if a != {} {
      var x := Member(a);
      Subset(a - {x}, b - {x});
    }
  }

  /** Right after place `i` of a sorted list that starts with 0 and has every number up to
      there comes a gap. */
  lemma Gap(s: seq<int>, i: nat, r: nat)
    requires Ascending(s) && i < |s| && s[0] >= 0 && r == s[i] + 1 && (i + 1 < |s| ==> r < s[i + 1])
    requires forall k | 0 <= k < r :: k in s
    ensures LeastFree(s, r) && r <= |s| && forall x | x in s :: x >= 0
  {
    UsedBelow(s, r);
    assert forall j | 0 <= j < |s| :: if j <= i then s[j] <= s[i] else s[j] >= s[i + 1];
  }

  /** Sorts the list and finds a number for it. The number is the least free one unless the
      list holds a negative number and 0, when it is 0 and taken. */
  method GenAvailableMiniNum4List(numList: seq<int>) returns (num: nat, sorted: seq<int>)
    ensures sorted == Sorted(numList)
    ensures num <= |numList| && forall k | 0 <= k < num :: k in numList
    ensures LeastFree(numList, num) <==> 0 !in numList || forall x | x in numList :: x >= 0
  {
    if numList == [] {
      return 0, [];
    }
    sorted := Sorted(numList);
    var maxNum, minNum := sorted[|sorted| - 1], sorted[0];
    assert minNum in numList;
    if minNum != 0 {
      assert minNum > 0 ==> 0 !in sorted;
      return 0, sorted;
    }
    for i := 0 to |sorted| - 1
      invariant forall k | 0 <= k <= sorted[i] :: k in sorted
    {
      var currentNum, nextNum := sorted[i], sorted[i + 1];
      if nextNum - currentNum > 1 {
        num := currentNum + 1;
        Gap(sorted, i, num);
        return;
      }
    }
    num := maxNum + 1;
    Gap(sorted, |sorted| - 1, num);
  }

  // ------------------------------------------------------------ labels of chain instances

  type Pair = (int, int)

  ghost predicate AllMapped(list: seq<int>, m: map<Pair, int>) {
    forall x | x in list :: MappedTo(m, x)
  }

  ghost predicate MappedTo(m: map<Pair, int>, x: int) {
    exists p :: p in m && m[p] == x
  }

  ghost predicate Injective(m: map<Pair, int>) {
    forall p, q | p in m && q in m && p != q :: m[p] != m[q]
  }

  ghost predicate Consistent(list: seq<int>, m: map<Pair, int>) {
    && Distinct(list)
    && (forall x | x in list :: 0 <= x <= MAX_MPLS_LABEL)
    && (forall p | p in m :: m[p] in list)
    && Injective(m)
  }

  lemma AssignConsistent(list: seq<int>, m: map<Pair, int>, p: Pair, x: int)
    requires Consistent(list, m) && 0 <= x <= MAX_MPLS_LABEL && x !in list
    ensures Consistent(list + [x], m[p := x])
    ensures forall y :: y in list + [x] <==> y in list || y == x
  {
    DistinctSnoc(list, x);
  }

  lemma SortedConsistent(list: seq<int>, m: map<Pair, int>)
    requires Consistent(list, m)
    ensures Consistent(Sorted(list), m)
    ensures AllMapped(Sorted(list), m) <==> AllMapped(list, m)
  {
    SortedDistinct(list);
  }

  /** Overwriting a pair's label orphans the old one. */
  lemma AssignLeak(list: seq<int>, m: map<Pair, int>, p: Pair, x: int)
    requires Injective(m) && x !in list && forall q | q in m :: m[q] in list
    ensures AllMapped(list + [x], m[p := x]) <==> AllMapped(list, m) && p !in m
  {
    var n := m[p := x];
    assert MappedTo(n, x) by { assert n[p] == x; }
    forall y | y in list ensures MappedTo(n, y) <==> MappedTo(m, y) && !(p in m && m[p] == y) {
      if q :| q in m && m[q] == y && q != p { assert n[q] == y; }
    }
    assert p in m ==> m[p] in list + [x] && !MappedTo(n, m[p]);
    assert forall y :: y in list + [x] <==> y in list || y == x;
  }

  lemma DelLeak(list: seq<int>, m: map<Pair, int>, rest: seq<int>, p: Pair)
    requires Injective(m) && p in m && forall q | q in m :: m[q] in list
    requires forall x :: x in rest <==> x in list && x != m[p]
    ensures AllMapped(rest, m - {p}) <==> AllMapped(list, m)
  {
    var n := m - {p};
    assert MappedTo(m, m[p]);
    forall y | y != m[p] ensures MappedTo(n, y) <==> MappedTo(m, y) {
      if q :| q in m && m[q] == y { assert n[q] == y; }
    }
  }

  const MIN_MPLS_LABEL: int := 0
  const MAX_MPLS_LABEL: int := 0x10_0000
  const OVS_MPLSLabel_OFFSET: int := 0

  /** A label has 20 bits on the wire (section 2.1 of RFC 3032). */
  const LABEL_SPACE: int := 0x10_0000

  /** The label for a list fits its 20 bits exactly when one of them is free, so always when
      fewer are listed. When all are listed the source's bound still lets the next one pass. */
  lemma LabelFits(list: seq<int>, x: int)
    requires LeastFree(list, x)
    ensures x < LABEL_SPACE <==> exists k :: 0 <= k < LABEL_SPACE && k !in list
    ensures |list| < LABEL_SPACE ==> x < LABEL_SPACE
    ensures (forall y | y in list :: 0 <= y < LABEL_SPACE) ==> x <= MAX_MPLS_LABEL
  {
    UsedBelow(list, x);
    assert x > MAX_MPLS_LABEL ==> LABEL_SPACE in list;
  }

  class NotViaMPLSIBMaintainer {
    var mplsLabelList: seq<int>
    var labelAndSFCIMapping: map<Pair, int>

    /** No label is listed twice or mapped to twice, and every mapped label is listed. */
    ghost predicate Valid()
      reads this
    {
      Consistent(mplsLabelList, labelAndSFCIMapping)
    }

    /** Every listed label is mapped to. */
    ghost predicate NoLeak()
      reads this
    {
      AllMapped(mplsLabelList, labelAndSFCIMapping)
    }

    constructor ()
      ensures Valid() && NoLeak() && labelAndSFCIMapping == map[]
    {
      mplsLabelList, labelAndSFCIMapping := [], map[];
    }

    /** Without leaks there are as many listed labels as mapped pairs. */
    lemma ListedAreLive()
      requires Valid()
      ensures |labelAndSFCIMapping| <= |mplsLabelList|
      ensures NoLeak() <==> |labelAndSFCIMapping| == |mplsLabelList|
    {
      DistinctCount(mplsLabelList);
      ValuesCount(labelAndSFCIMapping);
      MappedValues(mplsLabelList, labelAndSFCIMapping);
      Subset(labelAndSFCIMapping.Values, Elements(mplsLabelList));
      if |labelAndSFCIMapping| == |mplsLabelList| {
        SubsetFull(labelAndSFCIMapping.Values, Elements(mplsLabelList));
      }
    }

    /** Gives a pair a label; `None` when the source finds no valid one. A pair that already
        has a label gets another one, and then the old label is never freed. */
    method AssignMPLSLabel(sfciID: int, pathID: int) returns (got: Option<int>)
      requires Valid()
      modifies this
      ensures Valid()
      ensures got == None <==> forall k | 0 <= k <= MAX_MPLS_LABEL :: k in old(mplsLabelList)
      ensures got == None ==> labelAndSFCIMapping == old(labelAndSFCIMapping)
      ensures got.Some? ==> LeastFree(old(mplsLabelList), got.value)
      ensures got.Some? ==> labelAndSFCIMapping == old(labelAndSFCIMapping)[(sfciID, pathID) := got.value]
      ensures got.Some? ==> got.value <= |old(mplsLabelList)|
      ensures forall x :: x in mplsLabelList <==> x in old(mplsLabelList) || (got.Some? && x == got.value)
      ensures NoLeak() <==> old(NoLeak()) && (got.Some? ==> (sfciID, pathID) !in old(labelAndSFCIMapping))
    {
      SortedConsistent(mplsLabelList, labelAndSFCIMapping);
      ghost var m := labelAndSFCIMapping;
      var newMPLSLabel, sorted := GenAvailableMiniNum4List(mplsLabelList);
      mplsLabelList := sorted;
      if newMPLSLabel < MIN_MPLS_LABEL || newMPLSLabel > MAX_MPLS_LABEL {
        return None;
      }
      AssignLeak(mplsLabelList, m, (sfciID, pathID), newMPLSLabel);
      var longer := mplsLabelList + [newMPLSLabel];
      AssignConsistent(mplsLabelList, m, (sfciID, pathID), newMPLSLabel);
      mplsLabelList := longer;
      labelAndSFCIMapping := labelAndSFCIMapping[(sfciID, pathID) := newMPLSLabel];
      return Some(newMPLSLabel + OVS_MPLSLabel_OFFSET);
    }

    method GetMPLSLabel(sfciID: int, pathID: int) returns (found: Option<int>)
      ensures found ==
        if (sfciID, pathID) in labelAndSFCIMapping then Some(labelAndSFCIMapping[(sfciID, pathID)]) else None
    {
      if (sfciID, pathID) in labelAndSFCIMapping {
        return Some(labelAndSFCIMapping[(sfciID, pathID)] + OVS_MPLSLabel_OFFSET);
      }
      return None;
    }

    /** Frees the label of a pair; `ok` is false, and nothing changes, for an unknown pair. */
    method DelMPLSLabel(sfciID: int, pathID: int) returns (ok: bool)
      requires Valid()
      modifies this
      ensures Valid()
      ensures ok == ((sfciID, pathID) in old(labelAndSFCIMapping))
      ensures labelAndSFCIMapping == old(labelAndSFCIMapping) - {(sfciID, pathID)}
      ensures forall x :: x in mplsLabelList <==>
        x in old(mplsLabelList) && !(ok && x == old(labelAndSFCIMapping)[(sfciID, pathID)])
      ensures NoLeak() <==> old(NoLeak())
    {
      if (sfciID, pathID) !in labelAndSFCIMapping {
        return false;
      }
      ghost var m := labelAndSFCIMapping;
      var mplsLabel := labelAndSFCIMapping[(sfciID, pathID)];
      labelAndSFCIMapping := labelAndSFCIMapping - {(sfciID, pathID)};
      var i := 0;
      while mplsLabelList[i] != mplsLabel
        invariant i < |mplsLabelList| && forall j | 0 <= j < i :: mplsLabelList[j] != mplsLabel
        decreases |mplsLabelList| - i
      {
        i := i + 1;
      }
      var rest := mplsLabelList[..i] + mplsLabelList[i + 1..];
      DistinctDrop(mplsLabelList, i, rest);
      DelLeak(mplsLabelList, m, rest, (sfciID, pathID));
      mplsLabelList := rest;
      return true;
    }
  }

  lemma MappedValues(list: seq<int>, m: map<Pair, int>)
    requires forall p | p in m :: m[p] in list
    ensures m.Values <= Elements(list)
    ensures AllMapped(list, m) <==> m.Values == Elements(list)
  {
    forall x ensures x in m.Values <==> MappedTo(m, x) {}
    forall x ensures x in Elements(list) <==> x in list {}
    if AllMapped(list, m) {
      forall x ensures x in m.Values <==> x in Elements(list) {
        assert x in list ==> MappedTo(m, x);
      }
    } else {
      var x :| x in list && !MappedTo(m, x);
      assert x in Elements(list) && x !in m.Values;
    }
  }

  lemma {:induction false} ValuesCount(m: map<Pair, int>)
    requires Injective(m)
    ensures |m.Values| == |m|
  {
    if m != map[] {
      var p :| p in m;
      var rest := m - {p};
      ValuesCount(rest);
      assert m.Values == rest.Values + {m[p]};
      assert |m| == |rest| + 1;
    }
  }

  lemma SubsetFull(a: set<int>, b: set<int>)
    requires a <= b && |a| == |b|
    ensures a == b
  {
    if b - a != {} {
      var x := Member(b - a);
      Subset(a, b - {x});
    } else {
      assert forall x | x in b :: x !in b - a;
    }
  }
}
