/** Numbering the backup paths of a chain. */
module BackupNumbers {
  /** The two nodes of a hop, and the same with the number of its backup path. */
  type HopEnds = (int, int)
  type NumberedHop = (int, int, int)

  type BackupTable = map<HopEnds, seq<seq<int>>>
  type Numbering = map<NumberedHop, seq<seq<int>>>

  ghost predicate HasNumber(r: Numbering, p: HopEnds) {
    exists n :: (p.0, p.1, n) in r
  }

  /** The entries carry different numbers from 2 up to `next`, and the paths of their hops. */
  ghost predicate Numbers(r: Numbering, paths: BackupTable, next: int) {
    && (forall k | k in r :: 2 <= k.2 < next && (k.0, k.1) in paths && r[k] == paths[(k.0, k.1)])
    && (forall k, l | k in r && l in r && k != l :: k.2 != l.2 && (k.0, k.1) != (l.0, l.1))
  }

  /** Each path has exactly one number, and the numbers start at 2 without a gap. */
  ghost predicate Numbered(r: Numbering, paths: BackupTable) {
    Numbers(r, paths, 2 + |paths|) && forall p | p in paths :: HasNumber(r, p)
  }

  lemma NumberMore(r: Numbering, paths: BackupTable, next: int, key: HopEnds)
    requires Numbers(r, paths, next) && key in paths && !HasNumber(r, key) && next >= 2
    ensures var more := r[(key.0, key.1, next) := paths[key]];
      && Numbers(more, paths, next + 1)
      && forall p :: HasNumber(more, p) <==> HasNumber(r, p) || p == key
  {
    var more := r[(key.0, key.1, next) := paths[key]];
    forall p ensures HasNumber(more, p) <==> HasNumber(r, p) || p == key {
      if n :| (p.0, p.1, n) in r { assert (p.0, p.1, n) in more; }
      assert (key.0, key.1, next) in more;
    }
    assert forall k | k in r :: (k.0, k.1) != key by {
      forall k | k in r ensures (k.0, k.1) != key {
        assert (k.0, k.1, k.2) in r;
      }
    }
  }
}
