/** Turning one shortest path per source into one next hop per source. */
module ShortestPathTrees {
  import opened Tries
  import opened Sets

  type Dpid = int
  type Links = set<(Dpid, Dpid)>

  /** A path over links from `s` to `t`. */
  predicate IsPath(links: Links, p: seq<Dpid>, s: Dpid, t: Dpid) {
    && |p| > 0 && p[0] == s && p[|p| - 1] == t
    && forall i | 0 <= i < |p| - 1 :: (p[i], p[i + 1]) in links
  }

  ghost predicate IsShortest(links: Links, p: seq<Dpid>, s: Dpid, t: Dpid) {
    IsPath(links, p, s, t) && forall q | IsPath(links, q, s, t) :: |p| <= |q|
  }

  /** What the graph library promises: a shortest path from every node that has a path. */
  ghost predicate ShortestPaths(links: Links, paths: map<Dpid, seq<Dpid>>, t: Dpid) {
    && (forall s | s in paths :: IsShortest(links, paths[s], s, t))
    && (forall s, p | IsPath(links, p, s, t) :: s in paths)
  }

  /** The rest of a shortest path is as short as the path given for where it starts. */
  lemma SuffixShortest(links: Links, paths: map<Dpid, seq<Dpid>>, t: Dpid, s: Dpid, i: nat)
    requires ShortestPaths(links, paths, t) && s in paths && i < |paths[s]|
    ensures paths[s][i] in paths && |paths[paths[s][i]]| == |paths[s]| - i
  {
    var p := paths[s];
    var rest := p[i..];
    assert IsPath(links, rest, p[i], t);
    var other := paths[p[i]];
    assert |other| <= |rest|;
    var spliced := p[..i] + other;
    forall k | 0 <= k < |spliced| - 1 ensures (spliced[k], spliced[k + 1]) in links {
      if k + 1 < i {
        assert (p[k], p[k + 1]) in links;
      } else if k + 1 == i {
        assert (p[k], p[k + 1]) in links && spliced[k + 1] == other[0] == p[i];
      } else {
        assert (other[k - i], other[k - i + 1]) in links;
      }
    }
    assert IsPath(links, spliced, s, t);
  }

  // ------------------------------------------------------------ the next-hop map

  /** A next hop is a neighbour one step nearer to the target. */
  ghost predicate Nearer(links: Links, paths: map<Dpid, seq<Dpid>>, spt: map<Dpid, Dpid>) {
    forall a | a in spt ::
      && a in paths && spt[a] in paths && (a, spt[a]) in links
      && |paths[spt[a]]| == |paths[a]| - 1
  }

  /** The nodes met when following next hops, `n` steps far. */
  function Followed(spt: map<Dpid, Dpid>, a: Dpid, n: nat): seq<Dpid>
    decreases n
  {
    if n == 0 || a !in spt then [a] else [a] + Followed(spt, spt[a], n - 1)
  }

  /** Following the next hops from any source is a shortest path to the target, whichever
      of the equal-cost paths gave each of them; so it never comes back to a node. */
  lemma {:induction false} FollowedIsShortest(
    links: Links, paths: map<Dpid, seq<Dpid>>, t: Dpid, spt: map<Dpid, Dpid>, s: Dpid)
    requires ShortestPaths(links, paths, t) && Nearer(links, paths, spt) && s in paths
    requires forall a :: a in spt <==> a in paths && a != t
    ensures var f := Followed(spt, s, |paths[s]| - 1);
      && |f| == |paths[s]| && IsShortest(links, f, s, t)
      && forall i, j | 0 <= i < j < |f| :: f[i] != f[j]
    decreases |paths[s]|
  {
    var f := Followed(spt, s, |paths[s]| - 1);
    assert IsPath(links, paths[s], s, t);
    if s == t {
      assert IsPath(links, [t], t, t);
    } else {
      var rest := Followed(spt, spt[s], |paths[s]| - 2);
      FollowedIsShortest(links, paths, t, spt, spt[s]);
      assert f == [s] + rest;
      forall i | 0 <= i < |f| - 1 ensures (f[i], f[i + 1]) in links {
        if i > 0 { assert (rest[i - 1], rest[i]) in links; }
      }
      assert IsPath(links, f, s, t);
    }
    ShortestIsSimple(links, f, s, t);
  }

  /** A shortest path meets no node twice. */
  lemma ShortestIsSimple(links: Links, p: seq<Dpid>, s: Dpid, t: Dpid)
    requires IsShortest(links, p, s, t)
    ensures forall i, j | 0 <= i < j < |p| :: p[i] != p[j]
  {
    forall i, j | 0 <= i < j < |p| ensures p[i] != p[j] {
      var cut := p[..i] + p[j..];
      if p[i] == p[j] {
        forall k | 0 <= k < |cut| - 1 ensures (cut[k], cut[k + 1]) in links {
          if k < i {
            assert (p[k], p[k + 1]) in links && cut[k + 1] == p[k + 1];
          } else {
            assert (p[k + j - i], p[k + j - i + 1]) in links;
          }
        }
        assert IsPath(links, cut, s, t);
      }
    }
  }

  // ------------------------------------------------------------ the conversion

  function Reversed(p: seq<Dpid>): (r: seq<Dpid>)
    ensures |r| == |p| && forall i | 0 <= i < |p| :: r[i] == p[|p| - 1 - i]
  {
    if p == [] then [] else Reversed(p[1..]) + [p[0]]
  }

  lemma Covers(links: Links, paths: map<Dpid, seq<Dpid>>, spt: map<Dpid, Dpid>, target: Dpid)
    requires Nearer(links, paths, spt) && target !in spt && forall s | s in paths && s != target :: s in spt
    ensures spt.Keys == paths.Keys - {target}
    ensures spt == map[] <==> paths.Keys <= {target}
  {
    forall s ensures s in spt.Keys <==> s in paths.Keys - {target} {
      assert s in spt ==> s in paths && s != target;
    }
    assert spt == map[] <==> spt.Keys == {};
  }

  /** From `a` a link leads to `b`, one step nearer to the target. */
  ghost predicate OneNearer(links: Links, paths: map<Dpid, seq<Dpid>>, a: Dpid, b: Dpid, t: Dpid) {
    a in paths && b in paths && (a, b) in links && |paths[b]| == |paths[a]| - 1 && a != t
  }

  /** Read backwards, a given path goes one step away from the target at a time. */
  ghost predicate StepsAway(links: Links, paths: map<Dpid, seq<Dpid>>, path: seq<Dpid>, t: Dpid) {
    forall i, j | 0 <= i < j < |path| && j == i + 1 :: OneNearer(links, paths, path[j], path[i], t)
  }

  lemma ReversedStepsAway(links: Links, paths: map<Dpid, seq<Dpid>>, t: Dpid, s: Dpid)
    requires ShortestPaths(links, paths, t) && s in paths
    ensures StepsAway(links, paths, Reversed(paths[s]), t)
    ensures var path := Reversed(paths[s]); |path| > 0 && path[|path| - 1] == s
  {
    var p := paths[s];
    var path := Reversed(p);
    forall i, j | 0 <= i < j < |path| && j == i + 1 ensures OneNearer(links, paths, path[j], path[i], t) {
      var k := |p| - 1 - j;
      assert (p[k], p[k + 1]) in links;
      SuffixShortest(links, paths, t, s, k);
      SuffixShortest(links, paths, t, s, k + 1);
      ShortestIsSimple(links, p, s, t);
    }
  }

  /** Takes the next hops of one reversed path, where none was known before. */
  method TakePath(
    ghost links: Links, ghost paths: map<Dpid, seq<Dpid>>, path: seq<Dpid>, ghost target: Dpid, before: map<Dpid, Dpid>)
    returns (spt: map<Dpid, Dpid>)
    requires |path| > 0
    requires StepsAway(links, paths, path, target) && Nearer(links, paths, before) && target !in before
    ensures Nearer(links, paths, spt) && target !in spt
    ensures forall s | s in before :: s in spt && spt[s] == before[s]
    ensures forall i | 0 < i < |path| :: path[i] in spt
  {
    spt := before;
    for index := 0 to |path| - 1
      invariant Nearer(links, paths, spt) && target !in spt
      invariant forall s | s in before :: s in spt && spt[s] == before[s]
      invariant forall i | 0 < i <= index :: path[i] in spt
    {
      var dstDpid, srcDpid := path[index], path[index + 1];
      assert OneNearer(links, paths, srcDpid, dstDpid, target);
      if srcDpid !in spt {
        spt := spt[srcDpid := dstDpid];
      }
    }
  }

  /** Every source met so far, other than the target, has a next hop. */
  ghost predicate Known(sources: set<Dpid>, spt: map<Dpid, Dpid>, t: Dpid) {
    forall s | s in sources && s != t :: s in spt
  }

  lemma KnownMore(all: set<Dpid>, keys: set<Dpid>, key: Dpid, before: map<Dpid, Dpid>, spt: map<Dpid, Dpid>, t: Dpid)
    requires Known(all - keys, before, t) && (forall s | s in before :: s in spt) && (key == t || key in spt)
    ensures Known(all - (keys - {key}), spt, t)
  {
  }

  /** The paths are reversed but for those of `keys`. */
  ghost predicate ReversedBut(paths: map<Dpid, seq<Dpid>>, stsPath: map<Dpid, seq<Dpid>>, keys: set<Dpid>) {
    && keys <= paths.Keys == stsPath.Keys
    && forall s | s in paths :: stsPath[s] == if s in keys then paths[s] else Reversed(paths[s])
  }

  lemma ReverseNext(paths: map<Dpid, seq<Dpid>>, stsPath: map<Dpid, seq<Dpid>>, keys: set<Dpid>, key: Dpid)
    requires ReversedBut(paths, stsPath, keys) && key in keys
    ensures stsPath[key] == paths[key]
    ensures ReversedBut(paths, stsPath[key := Reversed(paths[key])], keys - {key})
  {
  }

  /** Converts the paths; the lists of paths are left reversed. `None` stands for a map
      without an entry, which the source gives back as no map. */
  method Stsp2spt(ghost links: Links, paths: map<Dpid, seq<Dpid>>, ghost target: Dpid)
    returns (result: Option<map<Dpid, Dpid>>, stsPath: map<Dpid, seq<Dpid>>)
    requires ShortestPaths(links, paths, target)
    ensures stsPath.Keys == paths.Keys && forall s | s in paths :: stsPath[s] == Reversed(paths[s])
    ensures result == None <==> paths.Keys <= {target}
    ensures result.Some? ==> Nearer(links, paths, result.value) && result.value.Keys == paths.Keys - {target}
  {
    var spt: map<Dpid, Dpid> := map[];
    stsPath := paths;
    var keys := stsPath.Keys;
    while keys != {}
      invariant ReversedBut(paths, stsPath, keys)
      invariant Nearer(links, paths, spt) && target !in spt
      invariant Known(paths.Keys - keys, spt, target)
    {
      ghost var some := Member(keys);
      var key :| key in keys;
      ReverseNext(paths, stsPath, keys, key);
      var path := Reversed(stsPath[key]);
      stsPath := stsPath[key := path];
      ReversedStepsAway(links, paths, target, key);
      ghost var before := spt;
      spt := TakePath(links, paths, path, target, spt);
      KnownMore(paths.Keys, keys, key, before, spt, target);
      keys := keys - {key};
    }
    Covers(links, paths, spt, target);
    if spt == map[] {
      result := None;
    } else {
      result := Some(spt);
    }
  }
}
