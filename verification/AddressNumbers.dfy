/** Addresses as numbers: which rule a number gets, and how a lookup walks by it.

    The trie is built and searched bit by bit; here the same is said by division and
    remainder, without mention of bits. */
module AddressNumbers {
  import opened Tries
  import opened Paths
  import opened BinaryTries
  import opened RuleLookup

  function Pow2(n: nat): (p: nat)
    ensures p > 0
  {
    if n == 0 then 1 else 2 * Pow2(n - 1)
  }

  // ------------------------------------------------------------ bits and digits

  /** The bits of a number, the highest first. */
  function Bits(n: int, width: nat): (s: seq<bool>)
    ensures |s| == width
  {
    seq(width, i requires 0 <= i < width => Bit(n, width - 1 - i))
  }

  /** The number whose bits these are. */
  function Value(s: seq<bool>): nat {
    if s == [] then 0 else 2 * Value(s[..|s| - 1]) + if s[|s| - 1] then 1 else 0
  }

  lemma {:induction false} ValueInRange(s: seq<bool>)
    ensures Value(s) < Pow2(|s|)
  {
    if s != [] { ValueInRange(s[..|s| - 1]); }
  }

  lemma QuotientIs(n: int, d: int, q: int, r: int)
    requires n == q * d + r && 0 <= r < d
    ensures n / d == q && n % d == r
  {
    var k := q - n / d;
    Distributes(q, n / d, d);
    if k >= 1 { AtLeast(k, d); }
    if k <= -1 { AtLeast(-k, d); }
  }

  lemma Distributes(a: int, b: int, d: int)
    ensures (a - b) * d == a * d - b * d
  {
  }

  lemma AtLeast(k: int, d: int)
    requires k >= 1 && d > 0
    ensures k * d >= d
  {
  }

  /** Halving first and then dividing is dividing by twice as much. */
  lemma Halved(n: int, d: int)
    requires d > 0
    ensures n / (2 * d) == n / 2 / d
    ensures n % (2 * d) == 2 * (n / 2 % d) + n % 2
  {
    var q, r := n / 2 / d, n / 2 % d;
    assert n == q * (2 * d) + (2 * r + n % 2);
    QuotientIs(n, 2 * d, q, 2 * r + n % 2);
  }

  /** A bit is what division and remainder make of it. */
  lemma {:induction false} BitIsDigit(n: int, i: nat)
    ensures Bit(n, i) <==> n / Pow2(i) % 2 == 1
    decreases i
  {
    if i > 0 {
      BitIsDigit(n / 2, i - 1);
      Halved(n, Pow2(i - 1));
    }
  }

  lemma {:induction false} ShiftedBit(n: int, k: nat, i: nat)
    ensures Bit(n / Pow2(k), i) == Bit(n, k + i)
    decreases k
  {
    if k > 0 {
      ShiftedBit(n / 2, k - 1, i);
      Halved(n, Pow2(k - 1));
    }
  }

  lemma HalfOf(q: int, r: int)
    requires 0 <= r < 2
    ensures (2 * q + r) / 2 == q && (2 * q + r) % 2 == r
  {
  }

  lemma {:induction false} MaskedBit(n: int, k: nat, i: nat)
    requires i < k
    ensures Bit(n % Pow2(k), i) == Bit(n, i)
    decreases k
  {
    var m, d := n % Pow2(k), Pow2(k - 1);
    Halved(n, d);
    assert m == 2 * (n / 2 % d) + n % 2;
    HalfOf(n / 2 % d, n % 2);
    if i > 0 { MaskedBit(n / 2, k - 1, i - 1); }
  }

  lemma {:induction false} SameBits(a: int, b: int, width: nat)
    requires 0 <= a < Pow2(width) && 0 <= b < Pow2(width)
    requires forall i: nat | i < width :: Bit(a, i) == Bit(b, i)
    ensures a == b
    decreases width
  {
    if width > 0 {
      forall i: nat | i < width - 1 ensures Bit(a / 2, i) == Bit(b / 2, i) {
        assert Bit(a, i + 1) == Bit(b, i + 1);
      }
      SameBits(a / 2, b / 2, width - 1);
      assert Bit(a, 0) == Bit(b, 0);
    }
  }

  lemma BitsHalved(n: int, width: nat)
    requires width > 0
    ensures Bits(n, width)[..width - 1] == Bits(n / 2, width - 1)
    ensures Bits(n, width)[width - 1] <==> n % 2 == 1
  {
    forall i | 0 <= i < width - 1 ensures Bits(n, width)[i] == Bits(n / 2, width - 1)[i] {
      assert Bits(n, width)[i] == Bit(n, width - 1 - i) == Bit(n / 2, width - 1 - i - 1);
    }
    assert Bits(n, width)[width - 1] == Bit(n, 0);
  }

  /** Writing a number as bits and reading them back gives its low bits. */
  lemma {:induction false} BitsReadBack(n: int, width: nat)
    ensures Value(Bits(n, width)) == n % Pow2(width)
    decreases width
  {
    if width > 0 {
      BitsHalved(n, width);
      BitsReadBack(n / 2, width - 1);
      Halved(n, Pow2(width - 1));
    }
  }

  /** And the other way round. */
  lemma {:induction false} ValueWrittenOut(s: seq<bool>)
    ensures Bits(Value(s), |s|) == s
  {
    if s != [] {
      var n, w := Value(s), |s|;
      ValueWrittenOut(s[..w - 1]);
      assert n / 2 == Value(s[..w - 1]);
      BitsHalved(n, w);
      assert Bits(n, w) == Bits(n, w)[..w - 1] + [Bits(n, w)[w - 1]];
      assert s == s[..w - 1] + [s[w - 1]];
    }
  }

  // ------------------------------------------------------------ which rule a number gets

  /** The rule's length is that of its prefix: the highest bits of the `w`-bit number are
      the low bits of the prefix. */
  ghost predicate Covers(r: Rule, a: int, w: nat) {
    0 < r.length <= w && a / Pow2(w - r.length) == r.prefix % Pow2(r.length)
  }

  /** Rule `i` covers the number, no longer rule does, and no earlier rule of its length. */
  ghost predicate IsLongest(rules: seq<Rule>, a: int, w: nat, i: int) {
    && 0 <= i < |rules| && Covers(rules[i], a, w)
    && forall j | 0 <= j < |rules| && Covers(rules[j], a, w) ::
         rules[j].length < rules[i].length || (rules[j].length == rules[i].length && i <= j)
  }

  /** Longest-prefix match over numbers: the hop of that rule, or the default if no rule
      covers the number. */
  ghost predicate IsHopOf(rules: seq<Rule>, top: Nexthop, a: int, w: nat, x: Nexthop) {
    || (exists i :: IsLongest(rules, a, w, i) && x == Some(rules[i].nexthop))
    || ((forall i | 0 <= i < |rules| :: !Covers(rules[i], a, w)) && x == top)
  }

  lemma QuotientInRange(a: int, w: nat, k: nat)
    requires 0 <= a < Pow2(w) && k <= w
    ensures 0 <= a / Pow2(w - k) < Pow2(k)
    decreases w
  {
    if k < w {
      Halved(a, Pow2(w - k - 1));
      QuotientInRange(a / 2, w - 1, k);
    }
  }

  /** The highest and the lowest bits of a number, by division and remainder. */
  lemma HighAndLow(a: int, prefix: int, k: nat, n: nat, i: nat)
    requires i < n
    ensures Bit(a / Pow2(k), i) == Bit(a, k + i) && Bit(prefix % Pow2(n), i) == Bit(prefix, i)
  {
    ShiftedBit(a, k, i);
    MaskedBit(prefix, n, i);
  }

  lemma MatchIsCover(r: Rule, a: int, w: nat)
    requires 0 <= a < Pow2(w) && Matches(r, Bits(a, w))
    ensures Covers(r, a, w)
  {
    var n := r.length;
    var high, low := a / Pow2(w - n), r.prefix % Pow2(n);
    forall i: nat | i < n ensures Bit(high, i) == Bit(low, i) {
      HighAndLow(a, r.prefix, w - n, n, i);
      assert Bits(a, w)[n - 1 - i] == Bit(r.prefix, n - 1 - (n - 1 - i));
    }
    QuotientInRange(a, w, n);
    SameBits(high, low, n);
  }

  lemma CoverIsMatch(r: Rule, a: int, w: nat)
    requires Covers(r, a, w)
    ensures Matches(r, Bits(a, w))
  {
    var n := r.length;
    forall i | 0 <= i < n ensures Bits(a, w)[i] == Bit(r.prefix, n - 1 - i) {
      HighAndLow(a, r.prefix, w - n, n, n - 1 - i);
    }
  }

  /** A rule covers a number exactly when it matches its bits. */
  lemma CoversMatches(r: Rule, a: int, w: nat)
    requires 0 <= a < Pow2(w)
    ensures Covers(r, a, w) <==> Matches(r, Bits(a, w))
  {
    if Matches(r, Bits(a, w)) { MatchIsCover(r, a, w); }
    if Covers(r, a, w) { CoverIsMatch(r, a, w); }
  }

  /** Longest-prefix match is the same over numbers and over bits. */
  lemma HopIsAnswer(rules: seq<Rule>, top: Nexthop, a: int, w: nat, x: Nexthop)
    requires 0 <= a < Pow2(w)
    ensures IsHopOf(rules, top, a, w, x) <==> IsAnswer(rules, top, Bits(a, w), w, x)
  {
    var addr := Bits(a, w);
    forall i | 0 <= i < |rules| ensures Covers(rules[i], a, w) <==> MatchesUpTo(rules[i], addr, w) {
      CoversMatches(rules[i], a, w);
    }
    assert forall i :: IsLongest(rules, a, w, i) <==> IsBest(rules, addr, w, i);
  }

  // ------------------------------------------------------------ walking by a number

  /** What a `w`-bit number finds in a trie: the walk reads the highest digit first, goes
      right where it is 1, and keeps the deepest next hop. */
  ghost function NumberLookup(t: Trie<Nexthop>, a: int, w: nat, inherited: Nexthop): Nexthop
    decreases w
  {
    if t.Nil? then inherited
    else
      var here := Effective(t.val, inherited);
      if w == 0 then here
      else NumberLookup(if a / Pow2(w - 1) % 2 == 1 then t.right else t.left, a, w - 1, here)
  }

  lemma {:induction false} NumberLookupIsLookup(t: Trie<Nexthop>, a: int, w: nat, inherited: Nexthop)
    ensures NumberLookup(t, a, w, inherited) == Lookup(t, Bits(a, w), inherited)
    decreases w
  {
    if t.Node? && w > 0 {
      var here := Effective(t.val, inherited);
      BitIsDigit(a, w - 1);
      assert Bits(a, w)[1..] == Bits(a, w - 1);
      NumberLookupIsLookup(t.left, a, w - 1, here);
      NumberLookupIsLookup(t.right, a, w - 1, here);
    }
  }

  /** The same walk along the child pointers of the linked trie. */
  ghost function Follow(bT: BinaryTrie, node: BinaryTrieNode, a: int, w: nat, inherited: Nexthop): Nexthop
    requires bT.Valid() && bT.Owns(node) && AllSingle(TreeOf(bT.table, node.path, bT.width))
    reads bT, bT.repr
    decreases w
  {
    var here := Effective(The(node.nexthopSet), inherited);
    if w == 0 then here
    else
      bT.ChildrenOf(node);
      var child := if a / Pow2(w - 1) % 2 == 1 then node.rchild else node.lchild;
      if child == null then here else Follow(bT, child, a, w - 1, here)
  }

  /** The pointers lead where the trie they stand for says. */
  lemma {:induction false} FollowIsLookup(bT: BinaryTrie, node: BinaryTrieNode, a: int, w: nat, inherited: Nexthop)
    requires bT.Valid() && bT.Owns(node) && AllSingle(TreeOf(bT.table, node.path, bT.width))
    ensures Follow(bT, node, a, w, inherited)
         == NumberLookup(Label(TreeOf(bT.table, node.path, bT.width)), a, w, inherited)
    decreases w
  {
    if w > 0 {
      bT.ChildrenOf(node);
      var here := Effective(The(node.nexthopSet), inherited);
      if a / Pow2(w - 1) % 2 == 1 {
        if node.rchild != null { FollowIsLookup(bT, node.rchild, a, w - 1, here); }
      } else {
        if node.lchild != null { FollowIsLookup(bT, node.lchild, a, w - 1, here); }
      }
    }
  }

  /** Every `w`-bit number finds the hop of its longest rule. */
  ghost predicate AnswersAll(rules: seq<Rule>, top: Nexthop, w: nat, t: Trie<Nexthop>) {
    forall a | 0 <= a < Pow2(w) :: IsHopOf(rules, top, a, w, NumberLookup(t, a, w, None))
  }

  /** In a trie that refines a rule list, a number walks to the hop of its longest rule. */
  lemma NumberGetsLongest(m: Table, rules: seq<Rule>, top: Nexthop, a: int, w: nat, h: nat)
    requires Refines(m, rules, {top}) && MaxLength(rules) <= h && 0 <= a < Pow2(w)
    ensures AllSingle(TreeOf(m, Root, h))
    ensures IsHopOf(rules, top, a, w, NumberLookup(Label(TreeOf(m, Root, h)), a, w, None))
  {
    LookupIsLongestMatch(m, rules, top, Bits(a, w), h);
    NumberLookupIsLookup(Label(TreeOf(m, Root, h)), a, w, None);
    HopIsAnswer(rules, top, a, w, NumberLookup(Label(TreeOf(m, Root, h)), a, w, None));
  }

  /** And so it does along the pointers of a trie that has just been built from rules. */
  lemma WalkGetsLongest(bT: BinaryTrie, a: int, w: nat)
    requires bT.Valid() && Refines(bT.table, bT.rules, {bT.mostNexthop}) && bT.width == MaxLength(bT.rules)
    requires 0 <= a < Pow2(w)
    ensures bT.Owns(bT.root) && bT.root.path == Root && AllSingle(bT.Tree())
    ensures IsHopOf(bT.rules, bT.mostNexthop, a, w, Follow(bT, bT.root, a, w, None))
  {
    assert bT.Hangs(Root);
    NumberGetsLongest(bT.table, bT.rules, bT.mostNexthop, a, w, bT.width);
    FollowIsLookup(bT, bT.root, a, w, None);
  }

  ghost predicate SameHops(t: Trie<Nexthop>, u: Trie<Nexthop>, w: nat) {
    forall a | 0 <= a < Pow2(w) :: NumberLookup(t, a, w, None) == NumberLookup(u, a, w, None)
  }

  /** Tries that answer all numbers alike answer all addresses alike. */
  lemma SameByNumber(t: Trie<Nexthop>, u: Trie<Nexthop>, w: nat)
    ensures SameAnswers(t, u, w) <==> SameHops(t, u, w)
  {
    if SameAnswers(t, u, w) {
      forall a | 0 <= a < Pow2(w) ensures NumberLookup(t, a, w, None) == NumberLookup(u, a, w, None) {
        NumberLookupIsLookup(t, a, w, None);
        NumberLookupIsLookup(u, a, w, None);
      }
    }
    if SameHops(t, u, w) {
      forall s: seq<bool> | |s| == w ensures Lookup(t, s, None) == Lookup(u, s, None) {
        ValueWrittenOut(s);
        ValueInRange(s);
        NumberLookupIsLookup(t, Value(s), w, None);
        NumberLookupIsLookup(u, Value(s), w, None);
        assert NumberLookup(t, Value(s), w, None) == NumberLookup(u, Value(s), w, None);
      }
    }
  }
}
