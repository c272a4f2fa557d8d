/** What a trie built from rules answers: the longest matching rule, or the default. */
module RuleLookup {
  import opened Tries
  import opened Paths
  import opened Ortc
  import opened BinaryTries

  /** The rule's bits are the first bits of the address.  A rule of length zero matches
      nothing: the source never stores it. */
  predicate Matches(r: Rule, addr: seq<bool>) {
    0 < r.length <= |addr| && forall i | 0 <= i < r.length :: addr[i] == Bit(r.prefix, r.length - 1 - i)
  }

  predicate MatchesUpTo(r: Rule, addr: seq<bool>, k: nat) {
    Matches(r, addr) && r.length <= k
  }

  /** Among the rules of length at most `k`: rule `i` matches, no longer rule does, and no
      earlier rule of its length does. */
  ghost predicate IsBest(rules: seq<Rule>, addr: seq<bool>, k: nat, i: int) {
    && 0 <= i < |rules| && MatchesUpTo(rules[i], addr, k)
    && forall j | 0 <= j < |rules| && MatchesUpTo(rules[j], addr, k) ::
         rules[j].length < rules[i].length || (rules[j].length == rules[i].length && i <= j)
  }

  /** Longest-prefix match over the rule list itself, with rules of length at most `k`. */
  ghost predicate IsAnswer(rules: seq<Rule>, top: Nexthop, addr: seq<bool>, k: nat, x: Nexthop) {
    || (exists i :: IsBest(rules, addr, k, i) && x == Some(rules[i].nexthop))
    || ((forall i | 0 <= i < |rules| :: !MatchesUpTo(rules[i], addr, k)) && x == top)
  }

  lemma {:induction false} MatchesWalk(r: Rule, addr: seq<bool>, n: nat)
    requires n <= r.length && n <= |addr|
    ensures Walk(r, n) == AddrPath(addr, n) <==>
      forall i | 0 <= i < n :: addr[i] == Bit(r.prefix, r.length - 1 - i)
  {
    if n > 0 { MatchesWalk(r, addr, n - 1); }
  }

  lemma {:induction false} AddrDepth(addr: seq<bool>, n: nat)
    requires n <= |addr|
    ensures Depth(AddrPath(addr, n)) == n
  {
    if n > 0 { AddrDepth(addr, n - 1); }
  }

  /** The rule matches exactly when its position lies on the address's path. */
  lemma MatchesPath(r: Rule, addr: seq<bool>, n: nat)
    requires 0 < n <= |addr|
    ensures RulePath(r) == AddrPath(addr, n) <==> r.length == n && Matches(r, addr)
  {
    WalkDepth(r, r.length);
    AddrDepth(addr, n);
    if r.length == n { MatchesWalk(r, addr, n); }
  }

  /** The deepest next hop on the first `k` steps of the address's path. */
  function Deepest(rules: seq<Rule>, top: Nexthop, addr: seq<bool>, k: nat): Nexthop
    requires k <= |addr|
  {
    if k == 0 then top
    else Effective(FirstHop(rules, AddrPath(addr, k)), Deepest(rules, top, addr, k - 1))
  }

  /** The earliest rule for a position, as an index. */
  lemma {:induction false} FirstHopIndex(rules: seq<Rule>, p: Path)
    ensures FirstHop(rules, p).None? ==> forall i | 0 <= i < |rules| :: RulePath(rules[i]) != p
    ensures FirstHop(rules, p).Some? ==>
      exists i :: 0 <= i < |rules| && RulePath(rules[i]) == p && FirstHop(rules, p) == Some(rules[i].nexthop)
                  && forall j | 0 <= j < i :: RulePath(rules[j]) != p
  {
    if rules != [] {
      var before := rules[..|rules| - 1];
      FirstHopIndex(before, p);
      if FirstHop(before, p).Some? {
        var i :| 0 <= i < |before| && RulePath(before[i]) == p && FirstHop(before, p) == Some(before[i].nexthop)
                 && forall j | 0 <= j < i :: RulePath(before[j]) != p;
        assert rules[i] == before[i];
        assert forall j | 0 <= j < i :: rules[j] == before[j];
      } else {
        assert forall j | 0 <= j < |before| :: rules[j] == before[j];
      }
    }
  }

  lemma {:induction false} DeepestAnswers(rules: seq<Rule>, top: Nexthop, addr: seq<bool>, k: nat)
    requires k <= |addr|
    ensures IsAnswer(rules, top, addr, k, Deepest(rules, top, addr, k))
  {
    if k > 0 {
      var p := AddrPath(addr, k);
      DeepestAnswers(rules, top, addr, k - 1);
      FirstHopIndex(rules, p);
      forall i | 0 <= i < |rules| ensures RulePath(rules[i]) == p <==> rules[i].length == k && Matches(rules[i], addr) {
        MatchesPath(rules[i], addr, k);
      }
      if FirstHop(rules, p).Some? {
        var i :| 0 <= i < |rules| && RulePath(rules[i]) == p && FirstHop(rules, p) == Some(rules[i].nexthop)
                 && forall j | 0 <= j < i :: RulePath(rules[j]) != p;
        assert IsBest(rules, addr, k, i);
      } else if exists i :: IsBest(rules, addr, k - 1, i) && Deepest(rules, top, addr, k - 1) == Some(rules[i].nexthop) {
        var i :| IsBest(rules, addr, k - 1, i) && Deepest(rules, top, addr, k - 1) == Some(rules[i].nexthop);
        assert IsBest(rules, addr, k, i);
      }
    }
  }

  lemma {:induction false} NoHopBelow(rules: seq<Rule>, top: Nexthop, addr: seq<bool>, k: nat, n: nat)
    requires k <= n <= |addr| && !Covered(rules, AddrPath(addr, k)) && 0 < k
    ensures Deepest(rules, top, addr, n) == Deepest(rules, top, addr, k - 1)
  {
    AddrUnder(addr, k, n);
    if FirstHop(rules, AddrPath(addr, n)).Some? {
      FirstHopCovered(rules, AddrPath(addr, n));
      var i :| 0 <= i < |rules| && Under(RulePath(rules[i]), AddrPath(addr, n));
      UnderTrans(RulePath(rules[i]), AddrPath(addr, n), AddrPath(addr, k));
    }
    if k < n { NoHopBelow(rules, top, addr, k, n - 1); }
  }

  lemma {:induction false} AddrUnder(addr: seq<bool>, k: nat, n: nat)
    requires k <= n <= |addr|
    ensures Under(AddrPath(addr, n), AddrPath(addr, k))
  {
    if k < n { AddrUnder(addr, k, n - 1); }
  }

  lemma {:induction false} RefinesSingle(m: Table, rules: seq<Rule>, top: Nexthop, p: Path, h: nat)
    requires Refines(m, rules, {top})
    ensures AllSingle(TreeOf(m, p, h))
    decreases h + 1 - Depth(p)
  {
    if p in m && Depth(p) <= h {
      RefinesSingle(m, rules, top, Step(p, false), h);
      RefinesSingle(m, rules, top, Step(p, true), h);
    }
  }

  lemma RefinesDepth(m: Table, rules: seq<Rule>, top: Nexthop, p: Path)
    requires Refines(m, rules, {top}) && p in m
    ensures Depth(p) <= MaxLength(rules)
  {
    if p != Root {
      var i :| 0 <= i < |rules| && Under(RulePath(rules[i]), p);
      UnderDepth(RulePath(rules[i]), p);
      WalkDepth(rules[i], rules[i].length);
      MaxLengthBounds(rules, i);
    }
  }

  lemma {:induction false} LookupBelow(m: Table, rules: seq<Rule>, top: Nexthop, addr: seq<bool>, k: nat, h: nat)
    requires Refines(m, rules, {top}) && MaxLength(rules) <= h && 0 < k <= |addr|
    requires AllSingle(TreeOf(m, AddrPath(addr, k), h))
    ensures Lookup(Label(TreeOf(m, AddrPath(addr, k), h)), addr[k..], Deepest(rules, top, addr, k - 1))
         == Deepest(rules, top, addr, |addr|)
    decreases |addr| - k
  {
    var p := AddrPath(addr, k);
    AddrDepth(addr, k);
    if p !in m {
      NoHopBelow(rules, top, addr, k, |addr|);
    } else if k == |addr| {
      RefinesDepth(m, rules, top, p);
    } else {
      RefinesDepth(m, rules, top, p);
      assert addr[k..][1..] == addr[k + 1..];
      assert The(m[p]) == FirstHop(rules, p);
      LookupBelow(m, rules, top, addr, k + 1, h);
    }
  }

  /** A trie that refines a rule list answers every address by longest-prefix match. */
  lemma LookupIsLongestMatch(m: Table, rules: seq<Rule>, top: Nexthop, addr: seq<bool>, h: nat)
    requires Refines(m, rules, {top}) && MaxLength(rules) <= h
    ensures AllSingle(TreeOf(m, Root, h))
    ensures IsAnswer(rules, top, addr, |addr|, Lookup(Label(TreeOf(m, Root, h)), addr, None))
  {
    RefinesSingle(m, rules, top, Root, h);
    if addr != [] { LookupBelow(m, rules, top, addr, 1, h); }
    DeepestAnswers(rules, top, addr, |addr|);
  }

  /** The trie of a rule list is one that pass one to three accept. */
  lemma RefinesRooted(m: Table, rules: seq<Rule>, top: Nexthop, h: nat)
    requires Refines(m, rules, {top}) && (rules != [] ==> top.Some?)
    ensures AllSingle(TreeOf(m, Root, h)) && Rooted(Label(TreeOf(m, Root, h)))
  {
    RefinesSingle(m, rules, top, Root, h);
    assert The(m[Root]) == top;
    if rules == [] {
      assert forall b :: !Covered(rules, Step(Root, b));
    }
  }
}
