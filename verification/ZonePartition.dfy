/** Dividing a fat tree among orchestrators: pods in intervals, and the switches that come
    with an interval. */
module ZonePartitions {
  import opened Tries

  // ------------------------------------------------------------ shares

  /** The size of the `i`-th of `n` shares of `x`: the larger ones come last. */
  function ShareOf(x: nat, n: nat, i: nat): nat
    requires n > 0
  {
    x / n + if i >= n - x % n then 1 else 0
  }

  /** Where the `i`-th share starts. */
  function StartOf(x: nat, n: nat, i: nat): nat
    requires n > 0
  {
    i * (x / n) + if i > n - x % n then i - (n - x % n) else 0
  }

  lemma StartNext(x: nat, n: nat, i: nat)
    requires n > 0
    ensures StartOf(x, n, i + 1) == StartOf(x, n, i) + ShareOf(x, n, i)
  {
    assert (i + 1) * (x / n) == i * (x / n) + x / n;
  }

  lemma StartLast(x: nat, n: nat)
    requires n > 0
    ensures StartOf(x, n, 0) == 0 && StartOf(x, n, n) == x
  {
    assert n * (x / n) + x % n == x;
  }

  function Sum(s: seq<int>): int {
    if s == [] then 0 else Sum(s[..|s| - 1]) + s[|s| - 1]
  }

  predicate AreShares(s: seq<int>, x: nat, n: nat)
    requires n > 0
  {
    |s| == n && forall i | 0 <= i < n :: s[i] == ShareOf(x, n, i)
  }

  /** Before share `i` come exactly the shares that end where it starts. */
  lemma {:induction false} SumOfShares(s: seq<int>, x: nat, n: nat, i: nat)
    requires n > 0 && AreShares(s, x, n) && i <= n
    ensures Sum(s[..i]) == StartOf(x, n, i)
  {
    if i > 0 {
      SumOfShares(s, x, n, i - 1);
      StartNext(x, n, i - 1);
      assert s[..i][..i - 1] == s[..i - 1];
    } else {
      StartLast(x, n);
    }
  }

  /** The parts add up to `x`, no two differ by more than 1, and the larger ones come last. */
  ghost predicate IsEvenSplit(s: seq<int>, x: nat, n: nat) {
    && |s| == n && Sum(s) == x
    && (forall i, j | 0 <= i < |s| && 0 <= j < |s| :: s[i] <= s[j] + 1)
    && forall i, j | 0 <= i < j < |s| :: s[i] <= s[j]
  }

  lemma SharesAreEven(s: seq<int>, x: nat, n: nat)
    requires n > 0 && AreShares(s, x, n)
    ensures IsEvenSplit(s, x, n)
  {
    SumOfShares(s, x, n, n);
    StartLast(x, n);
    assert s[..n] == s;
  }

  /** Pods from `minPodIdx` to `maxPodIdx`. */
  datatype OrchInfo = OrchInfo(minPodIdx: int, maxPodIdx: int)

  ghost predicate AreZones(zones: seq<OrchInfo>, podNum: nat, n: nat)
    requires n > 0
  {
    |zones| == n && forall i | 0 <= i < n ::
      zones[i] == OrchInfo(StartOf(podNum, n, i), StartOf(podNum, n, i) + ShareOf(podNum, n, i) - 1)
  }

  class OrchestratorManager {
    const podNum: nat

    constructor (podNum: nat)
      ensures this.podNum == podNum
    {
      this.podNum := podNum;
    }

    /** Splits `x` into `n` parts; `None` where the source raises. */
    method SplitInteger(x: nat, n: nat) returns (res: Option<seq<int>>)
      ensures res == None <==> x < n || n == 0
      ensures res.Some? ==> AreShares(res.value, x, n) && IsEvenSplit(res.value, x, n)
    {
      if x < n || n == 0 {
        return None;
      }
      var parts: seq<int> := [];
      if x % n == 0 {
        for i := 0 to n
          invariant |parts| == i && forall j | 0 <= j < i :: parts[j] == ShareOf(x, n, j)
        {
          parts := parts + [x / n];
        }
      } else {
        var zp, pp := n - x % n, x / n;
        for i := 0 to n
          invariant |parts| == i && forall j | 0 <= j < i :: parts[j] == ShareOf(x, n, j)
        {
          parts := parts + [if i >= zp then pp + 1 else pp];
        }
      }
      SharesAreEven(parts, x, n);
      return Some(parts);
    }

    /** The pod interval of each orchestrator. */
    method ComputeOrchInstanceInfoList(minOrchNum: nat) returns (res: Option<seq<OrchInfo>>)
      ensures res == None <==> podNum < minOrchNum || minOrchNum == 0
      ensures res.Some? ==> AreZones(res.value, podNum, minOrchNum)
    {
      var split := SplitInteger(podNum, minOrchNum);
      if split == None {
        return None;
      }
      var oPodNumList := split.value;
      var oInfoList: seq<OrchInfo> := [];
      for idx := 0 to |oPodNumList|
        invariant |oInfoList| == idx && forall i | 0 <= i < idx ::
          oInfoList[i] == OrchInfo(StartOf(podNum, minOrchNum, i),
                                   StartOf(podNum, minOrchNum, i) + ShareOf(podNum, minOrchNum, i) - 1)
      {
        SumOfShares(oPodNumList, podNum, minOrchNum, idx);
        var minPodIdx := Sum(oPodNumList[..idx]);
        oInfoList := oInfoList + [OrchInfo(minPodIdx, minPodIdx + oPodNumList[idx] - 1)];
      }
      return Some(oInfoList);
    }
  }

  // ------------------------------------------------------------ the intervals

  predicate HasPod(zone: OrchInfo, pod: int) {
    zone.minPodIdx <= pod <= zone.maxPodIdx
  }

  /** Exactly one zone has the pod. */
  ghost predicate PodOnce(zones: seq<OrchInfo>, pod: int) {
    exists i :: 0 <= i < |zones| && HasPod(zones[i], pod)
      && forall j | 0 <= j < |zones| && HasPod(zones[j], pod) :: j == i
  }

  lemma {:induction false} StartsGrow(x: nat, n: nat, i: nat, j: nat)
    requires n > 0 && i <= j
    ensures StartOf(x, n, i) <= StartOf(x, n, j)
  {
    if i < j {
      StartsGrow(x, n, i, j - 1);
      StartNext(x, n, j - 1);
    }
  }

  /** A number below `x` lies in some share. */
  lemma {:induction false} FindShare(x: nat, n: nat, pod: nat, m: nat) returns (i: nat)
    requires n > 0 && m <= n && pod < StartOf(x, n, m)
    ensures i < m && StartOf(x, n, i) <= pod < StartOf(x, n, i + 1)
  {
    StartLast(x, n);
    StartNext(x, n, m - 1);
    if StartOf(x, n, m - 1) <= pod {
      i := m - 1;
    } else {
      i := FindShare(x, n, pod, m - 1);
    }
  }

  /** A zone after another starts after its end. */
  lemma ZonesApart(zones: seq<OrchInfo>, podNum: nat, n: nat, i: nat, j: nat)
    requires n > 0 && AreZones(zones, podNum, n) && i < j < n
    ensures zones[i].maxPodIdx < zones[j].minPodIdx
  {
    StartNext(podNum, n, i);
    StartsGrow(podNum, n, i + 1, j);
  }

  /** Every pod belongs to exactly one orchestrator. */
  lemma PodsCovered(zones: seq<OrchInfo>, podNum: nat, n: nat, pod: nat)
    requires 0 < n <= podNum && AreZones(zones, podNum, n) && pod < podNum
    ensures PodOnce(zones, pod)
  {
    StartLast(podNum, n);
    var i := FindShare(podNum, n, pod, n);
    StartNext(podNum, n, i);
    assert HasPod(zones[i], pod);
    forall j | 0 <= j < n && HasPod(zones[j], pod) ensures j == i {
      if j < i { ZonesApart(zones, podNum, n, j, i); }
      if i < j { ZonesApart(zones, podNum, n, i, j); }
    }
  }

  /** No orchestrator is without pods, and none has pods there are not. */
  lemma ZonesInside(zones: seq<OrchInfo>, podNum: nat, n: nat, i: nat)
    requires 0 < n <= podNum && AreZones(zones, podNum, n) && i < n
    ensures 0 <= zones[i].minPodIdx <= zones[i].maxPodIdx < podNum
  {
    StartLast(podNum, n);
    StartNext(podNum, n, i);
    StartsGrow(podNum, n, 0, i);
    StartsGrow(podNum, n, i + 1, n);
    assert podNum / n >= 1 by {
      assert podNum == n * (podNum / n) + podNum % n;
    }
  }

  // ------------------------------------------------------------ arithmetic

  lemma DivUnique(a: int, m: int, q: int, r: int)
    requires m > 0 && a == m * q + r && 0 <= r < m
    ensures a / m == q && a % m == r
  {
    var d := a / m - q;
    assert m * d == r - a % m;
    assert d >= 1 ==> m * d >= m;
    assert d <= -1 ==> m * d <= -m;
  }

  /** `q` lies in the `h`-blocks from `lo` to `hi` exactly when its block does. */
  lemma InBlocks(q: int, h: int, lo: int, hi: int)
    requires h > 0
    ensures lo * h <= q <= (hi + 1) * h - 1 <==> lo <= q / h <= hi
  {
    FromBlock(q, h, lo);
    FromBlock(q, h, hi + 1);
  }

  lemma FromBlock(q: int, h: int, lo: int)
    requires h > 0
    ensures lo * h <= q <==> lo <= q / h
  {
    var b, r := q / h, q % h;
    assert q == h * b + r;
    if b < lo { Product(h, b + 1, lo); } else { Product(h, lo, b); }
  }

  lemma Product(h: int, a: int, b: int)
    requires h > 0 && a <= b
    ensures h * a <= h * b
  {
  }

  // ------------------------------------------------------------ the switches of a zone

  function RangeCount(start: int, stop: int, step: int): nat
    requires step > 0
  {
    if start >= stop then 0 else (stop - start + step - 1) / step
  }

  /** The numbers from `start` up to `stop`, `step` apart. */
  function Range(start: int, stop: int, step: int): seq<int>
    requires step > 0
  {
    seq(RangeCount(start, stop, step), i requires 0 <= i < RangeCount(start, stop, step) => start + step * i)
  }

  lemma RangeIndex(start: int, stop: int, step: int, i: nat)
    requires step > 0
    ensures i < RangeCount(start, stop, step) <==> start + step * i < stop
  {
    var n, a := RangeCount(start, stop, step), stop - start + step - 1;
    if start < stop {
      assert a == step * n + a % step;
      if i < n { Product(step, i + 1, n); } else { Product(step, n, i); }
    } else {
      Product(step, 0, i);
    }
  }

  lemma RangeHas(start: int, stop: int, step: int, x: int)
    requires step > 0
    ensures x in Range(start, stop, step) <==> start <= x < stop && (x - start) % step == 0
  {
    var r := Range(start, stop, step);
    if x in r {
      var i :| 0 <= i < |r| && r[i] == x;
      RangeIndex(start, stop, step, i);
      Product(step, 0, i);
      DivUnique(x - start, step, i, 0);
    }
    if start <= x < stop && (x - start) % step == 0 {
      var i := (x - start) / step;
      assert x - start == step * i;
      RangeIndex(start, stop, step, i);
      assert r[i] == x;
    }
  }

  /** How far apart the core switches of a zone are. */
  function ZoneNum(podNum: nat, zone: OrchInfo): int
    requires zone.minPodIdx <= zone.maxPodIdx
  {
    podNum / (zone.maxPodIdx - zone.minPodIdx + 1)
  }

  /** Which switches of a fat tree with `2 * h` pods a zone has. The `h * h` core switches
      come first, then the aggregation and then the top-of-rack switches, `h` for each pod. */
  predicate IsCoreOf(h: nat, zone: OrchInfo, id: int)
    requires 0 <= zone.minPodIdx <= zone.maxPodIdx < 2 * h
  {
    SomeDistance(2 * h, zone);
    zone.minPodIdx <= id < h * h && (id - zone.minPodIdx) % ZoneNum(2 * h, zone) == 0
  }

  predicate IsAggOf(h: nat, zone: OrchInfo, id: int)
    requires h > 0
  {
    var base := h * h;
    base <= id < base + 2 * h * h && HasPod(zone, (id - base) / h)
  }

  predicate IsTorOf(h: nat, zone: OrchInfo, id: int)
    requires h > 0
  {
    var base := h * h + 2 * h * h;
    base <= id < base + 2 * h * h && HasPod(zone, (id - base) / h)
  }

  /** A zone has at most all pods, so its distance is positive. */
  lemma SomeDistance(podNum: nat, zone: OrchInfo)
    requires 0 <= zone.minPodIdx <= zone.maxPodIdx < podNum
    ensures ZoneNum(podNum, zone) >= 1
  {
    var size := zone.maxPodIdx - zone.minPodIdx + 1;
    assert podNum == size * (podNum / size) + podNum % size;
    var q := podNum / size;
    if q <= 0 { Product(size, q, 0); }
  }

  /** The switches of a zone's pods, `h` for each pod, are a block of consecutive ids. */
  lemma PodBlock(h: nat, base: int, zone: OrchInfo, id: int, low: int, high: int)
    requires h > 0 && 0 <= zone.minPodIdx <= zone.maxPodIdx < 2 * h
    requires low == base + zone.minPodIdx * h && high == low + h * (zone.maxPodIdx - zone.minPodIdx + 1) - 1
    ensures low <= id <= high <==> base <= id < base + 2 * h * h && HasPod(zone, (id - base) / h)
  {
    var lo, hi := zone.minPodIdx, zone.maxPodIdx;
    BlockEnds(h, lo, hi);
    InBlocks(id - base, h, lo, hi);
  }

  lemma BlockEnds(h: nat, lo: int, hi: int)
    requires h > 0 && 0 <= lo <= hi < 2 * h
    ensures h * (hi - lo + 1) == (hi + 1) * h - lo * h
    ensures 0 <= lo * h && (hi + 1) * h <= 2 * h * h
  {
    Product(h, 0, lo);
    Product(h, hi + 1, 2 * h);
  }

  lemma Halves(h: nat, lo: int)
    ensures 2 * h * (2 * h) / 2 == 2 * h * h
    ensures lo * (2 * h) / 2 == lo * h
  {
    assert 2 * h * (2 * h) == 2 * (2 * h * h);
    assert lo * (2 * h) == 2 * (lo * h);
  }

  class Orchestrator {
    const podNum: nat
    const zone: OrchInfo
    var coreSwitchIdxList: seq<int>
    var minAggSwitchIdx: int
    var maxAggSwitchIdx: int
    var minTorSwitchIdx: int
    var maxTorSwitchIdx: int

    constructor (podNum: nat, zone: OrchInfo)
      ensures this.podNum == podNum && this.zone == zone
    {
      this.podNum, this.zone := podNum, zone;
    }

    /** An even number of pods, and pod indices there are. */
    ghost predicate Valid() {
      podNum % 2 == 0 && 0 <= zone.minPodIdx <= zone.maxPodIdx < podNum
    }

    /** The index fields say which switches are the zone's. */
    ghost predicate Prepared()
      requires Valid()
      reads this
    {
      var h := podNum / 2;
      && (forall id :: id in coreSwitchIdxList <==> IsCoreOf(h, zone, id))
      && (forall id :: minAggSwitchIdx <= id <= maxAggSwitchIdx <==> IsAggOf(h, zone, id))
      && (forall id :: minTorSwitchIdx <= id <= maxTorSwitchIdx <==> IsTorOf(h, zone, id))
    }

    method PrepareSubZoneSwitchesIdxInfo()
      requires Valid()
      modifies this
      ensures Prepared()
    {
      ghost var h, lo := podNum / 2, zone.minPodIdx;
      Halves(h, lo);
      var coreSwitchNum := (podNum / 2) * (podNum / 2);
      var aggSwitchNum := podNum * podNum / 2;
      var podNumInSubZone := zone.maxPodIdx - zone.minPodIdx + 1;
      var zoneNum := podNum / podNumInSubZone;
      SomeDistance(podNum, zone);
      coreSwitchIdxList := Range(zone.minPodIdx, coreSwitchNum, zoneNum);
      minAggSwitchIdx := coreSwitchNum + zone.minPodIdx * podNum / 2;
      maxAggSwitchIdx := minAggSwitchIdx + podNum / 2 * podNumInSubZone - 1;
      minTorSwitchIdx := coreSwitchNum + aggSwitchNum + zone.minPodIdx * podNum / 2;
      maxTorSwitchIdx := minTorSwitchIdx + podNum / 2 * podNumInSubZone - 1;
      forall id ensures id in coreSwitchIdxList <==> IsCoreOf(h, zone, id) {
        RangeHas(zone.minPodIdx, coreSwitchNum, zoneNum, id);
      }
      forall id ensures minAggSwitchIdx <= id <= maxAggSwitchIdx <==> IsAggOf(h, zone, id) {
        PodBlock(h, h * h, zone, id, minAggSwitchIdx, maxAggSwitchIdx);
      }
      forall id ensures minTorSwitchIdx <= id <= maxTorSwitchIdx <==> IsTorOf(h, zone, id) {
        PodBlock(h, h * h + 2 * h * h, zone, id, minTorSwitchIdx, maxTorSwitchIdx);
      }
    }

    method IsSwitchInSubTopologyZone(switchID: int) returns (r: bool)
      requires Valid() && Prepared()
      ensures r == IsOf(podNum / 2, zone, switchID)
    {
      return switchID in coreSwitchIdxList
        || (switchID >= minAggSwitchIdx && switchID <= maxAggSwitchIdx)
        || (switchID >= minTorSwitchIdx && switchID <= maxTorSwitchIdx);
    }
  }

  predicate IsOf(h: nat, zone: OrchInfo, id: int)
    requires h > 0 && 0 <= zone.minPodIdx <= zone.maxPodIdx < 2 * h
  {
    IsCoreOf(h, zone, id) || IsAggOf(h, zone, id) || IsTorOf(h, zone, id)
  }

  // ------------------------------------------------------------ who has which switch

  ghost predicate AllInside(h: nat, zones: seq<OrchInfo>) {
    forall i | 0 <= i < |zones| :: 0 <= zones[i].minPodIdx <= zones[i].maxPodIdx < 2 * h
  }

  /** Exactly one zone has the switch. */
  ghost predicate SwitchOnce(h: nat, zones: seq<OrchInfo>, id: int)
    requires h > 0 && AllInside(h, zones)
  {
    exists i :: 0 <= i < |zones| && IsOf(h, zones[i], id)
      && forall j | 0 <= j < |zones| && IsOf(h, zones[j], id) :: j == i
  }

  lemma AllZonesInside(h: nat, zones: seq<OrchInfo>, n: nat)
    requires h > 0 && 0 < n <= 2 * h && AreZones(zones, 2 * h, n)
    ensures AllInside(h, zones)
  {
    forall i | 0 <= i < n ensures 0 <= zones[i].minPodIdx <= zones[i].maxPodIdx < 2 * h {
      ZonesInside(zones, 2 * h, n, i);
    }
  }

  /** Which pod an aggregation or top-of-rack switch belongs to. */
  function PodOf(h: nat, id: int): int
    requires h > 0
  {
    if id < h * h + 2 * h * h then (id - h * h) / h else (id - (h * h + 2 * h * h)) / h
  }

  lemma OfItsPod(h: nat, zone: OrchInfo, id: int)
    requires h > 0 && 0 <= zone.minPodIdx <= zone.maxPodIdx < 2 * h
    requires h * h <= id < h * h + 2 * h * h + 2 * h * h
    ensures IsOf(h, zone, id) <==> HasPod(zone, PodOf(h, id))
    ensures 0 <= PodOf(h, id) < 2 * h
  {
    var q := if id < h * h + 2 * h * h then id - h * h else id - (h * h + 2 * h * h);
    assert 2 * h * h == (2 * h - 1 + 1) * h;
    InBlocks(q, h, 0, 2 * h - 1);
  }

  /** Every aggregation and every top-of-rack switch belongs to exactly one orchestrator. */
  lemma PodSwitchesCovered(h: nat, zones: seq<OrchInfo>, n: nat, id: int)
    requires h > 0 && 0 < n <= 2 * h && AreZones(zones, 2 * h, n)
    requires h * h <= id < h * h + 2 * h * h + 2 * h * h
    ensures AllInside(h, zones) && SwitchOnce(h, zones, id)
  {
    AllZonesInside(h, zones, n);
    forall j | 0 <= j < n ensures IsOf(h, zones[j], id) <==> HasPod(zones[j], PodOf(h, id)) {
      OfItsPod(h, zones[j], id);
    }
    OfItsPod(h, zones[0], id);
    PodsCovered(zones, 2 * h, n, PodOf(h, id));
    var i :| 0 <= i < |zones| && HasPod(zones[i], PodOf(h, id))
      && forall j | 0 <= j < |zones| && HasPod(zones[j], PodOf(h, id)) :: j == i;
    assert IsOf(h, zones[i], id);
  }

  // ------------------------------------------------------------ core switches

  ghost predicate CoreOnce(h: nat, zones: seq<OrchInfo>)
    requires h > 0 && AllInside(h, zones)
  {
    forall id | 0 <= id < h * h :: SwitchOnce(h, zones, id)
  }

  /** Below `k` only the remainder of `id` is a multiple of `k` away from it. */
  lemma DealtTo(k: nat, id: nat, j: nat)
    requires j < k
    ensures (id - j) % k == 0 <==> j == id % k
  {
    var i, q := id % k, id / k;
    assert id == k * q + i;
    if j == i {
      assert id - i == k * q;
      DivUnique(id - i, k, q, 0);
    } else if (id - j) % k == 0 {
      var d := (id - j) / k;
      assert id == k * d + j;
      DivUnique(id, k, d, j);
    }
  }

  lemma OnePodEach(k: nat, zones: seq<OrchInfo>, i: nat)
    requires i < k && AreZones(zones, k, k)
    ensures zones[i] == OrchInfo(i, i) && ZoneNum(k, zones[i]) == k
  {
    DivUnique(k, k, 1, 0);
    assert i * 1 == i;
    DivUnique(k, 1, k, 0);
  }

  lemma DealtZone(h: nat, zones: seq<OrchInfo>, id: int, k: nat, j: nat)
    requires h > 0 && k == 2 * h && AreZones(zones, k, k) && AllInside(h, zones) && 0 <= id < h * h && j < k
    ensures IsOf(h, zones[j], id) <==> j == id % k
  {
    OnePodEach(k, zones, j);
    DealtTo(k, id, j);
    CoreOnly(h, zones[j], id);
    if j == id % k && id < j { DivUnique(id, k, 0, id); }
  }

  /** Only core switches have the lowest ids. */
  lemma CoreOnly(h: nat, zone: OrchInfo, id: int)
    requires h > 0 && 0 <= zone.minPodIdx <= zone.maxPodIdx < 2 * h && 0 <= id < h * h
    ensures IsOf(h, zone, id) <==> IsCoreOf(h, zone, id)
  {
    assert 2 * h * h >= 0;
  }

  /** With one pod for each orchestrator the core switches are dealt out in turn. */
  lemma CoreDealt(h: nat, zones: seq<OrchInfo>, id: int)
    requires h > 0 && AreZones(zones, 2 * h, 2 * h) && AllInside(h, zones) && 0 <= id < h * h
    ensures SwitchOnce(h, zones, id)
  {
    var k := 2 * h;
    forall j | 0 <= j < k ensures IsOf(h, zones[j], id) <==> j == id % k { DealtZone(h, zones, id, k, j); }
    assert IsOf(h, zones[id % k], id);
  }

  lemma CoreAlone(h: nat, zones: seq<OrchInfo>, id: int)
    requires h > 0 && AreZones(zones, 2 * h, 1) && AllInside(h, zones) && 0 <= id < h * h
    ensures SwitchOnce(h, zones, id)
  {
    DivUnique(2 * h, 1, 2 * h, 0);
    DivUnique(2 * h, 2 * h, 1, 0);
    assert zones[0] == OrchInfo(0, 2 * h - 1);
    DivUnique(id, 1, id, 0);
    assert IsOf(h, zones[0], id);
  }

  /** A core switch that no orchestrator has when there are fewer orchestrators than pods. */
  function MissedCore(h: nat, n: nat): nat
    requires 1 < n < 2 * h
  {
    if 2 * h / n == 1 then 2 * n - 2 * h + 1 else 1
  }

  lemma CoreMissed(h: nat, zones: seq<OrchInfo>, n: nat, i: nat)
    requires 1 < n < 2 * h && AreZones(zones, 2 * h, n) && AllInside(h, zones) && i < n
    ensures MissedCore(h, n) < h * h && !IsOf(h, zones[i], MissedCore(h, n))
  {
    var p := 2 * h / n;
    SquareRoom(h);
    ShareAtLeastOne(2 * h, n);
    if p == 1 {
      MissedAmongShort(h, zones, n, i);
    } else {
      MissedAmongLong(h, zones, n, i);
    }
  }

  lemma SquareRoom(h: nat)
    requires h >= 2
    ensures h * h >= 2 * h
  {
    Product(h, 2, h);
  }

  lemma ShareAtLeastOne(k: nat, n: nat)
    requires 0 < n <= k
    ensures k / n >= 1
  {
    var q := k / n;
    assert k == n * q + k % n;
    if q <= 0 { Product(n, q, 0); }
  }

  lemma MissedAmongLong(h: nat, zones: seq<OrchInfo>, n: nat, i: nat)
    requires 1 < n < 2 * h && AreZones(zones, 2 * h, n) && AllInside(h, zones) && i < n
    requires 2 * h / n >= 2
    ensures !IsCoreOf(h, zones[i], 1)
  {
    var k, p := 2 * h, 2 * h / n;
    StartLast(k, n);
    StartNext(k, n, 0);
    if i > 0 {
      StartsGrow(k, n, 1, i);
    } else {
      assert k == n * p + k % n;
      Product(p, 2, n);
      InBlocks(k, p, 2, k);
      DivUnique(1, k / p, 0, 1);
    }
  }

  lemma MissedAmongShort(h: nat, zones: seq<OrchInfo>, n: nat, i: nat)
    requires 1 < n < 2 * h && AreZones(zones, 2 * h, n) && AllInside(h, zones) && i < n
    requires 2 * h / n == 1 && h >= 2
    ensures !IsCoreOf(h, zones[i], 2 * n - 2 * h + 1)
  {
    var k, zp := 2 * h, 2 * n - 2 * h;
    assert k % n == k - n;
    var c, zone := zp + 1, zones[i];
    assert zone.minPodIdx == i + if i > zp then i - zp else 0;
    if i < zp {
      DivUnique(k, 1, k, 0);
      DivUnique(c - i, k, 0, c - i);
    } else if i == zp {
      DivUnique(k, 2, h, 0);
      DivUnique(1, h, 0, 1);
    }
  }

  /** Every core switch belongs to exactly one orchestrator if and only if there is one
      orchestrator, or one for each pod. */
  lemma CoreOnceExactly(h: nat, zones: seq<OrchInfo>, n: nat)
    requires h > 0 && 0 < n <= 2 * h && AreZones(zones, 2 * h, n)
    ensures AllInside(h, zones)
    ensures CoreOnce(h, zones) <==> n == 1 || n == 2 * h
  {
    AllZonesInside(h, zones, n);
    if n == 1 {
      forall id | 0 <= id < h * h ensures SwitchOnce(h, zones, id) { CoreAlone(h, zones, id); }
    } else if n == 2 * h {
      forall id | 0 <= id < h * h ensures SwitchOnce(h, zones, id) { CoreDealt(h, zones, id); }
    } else {
      forall i | 0 <= i < n ensures !IsOf(h, zones[i], MissedCore(h, n)) { CoreMissed(h, zones, n, i); }
      CoreMissed(h, zones, n, 0);
      assert !SwitchOnce(h, zones, MissedCore(h, n));
    }
  }
}
