/** The UFRR flow table of the switches, its encoding as addresses, and the trie a switch's
    table becomes. */
module UfrrTables {
  import opened Tries
  import opened Paths
  import opened Ortc
  import opened BinaryTries
  import opened RuleLookup
  import opened AddressNumbers
  import opened OrtcPasses
  import opened Sets

  /** What a packet is subject to, by name: "output nodeID", "goto group". */
  type Actions = map<string, int>
  datatype Entry = Entry(actions: Actions, priority: int)

  /** A key of the nested table; only compressed tables have wildcards. */
  datatype Key = Wildcard | Num(n: int)

  type SecondTable = map<Key, Entry>
  type FirstTable = map<Key, SecondTable>
  type SwitchTable = map<Key, FirstTable>

  const OUTPUT := "output nodeID"

  datatype Encoding = VnfSfcPath | SfcVnfPath | PathVnfSfc | UnknownEncoding

  /** The stored entry for a triple of keys, if any. */
  function At(t: SwitchTable, first: Key, second: Key, third: Key): Option<Entry> {
    if first in t && second in t[first] && third in t[first][second]
    then Some(t[first][second][third]) else None
  }

  /** The node an entry sends packets to, if its actions name one. */
  function OutputOf(e: Option<Entry>): Nexthop {
    if e.Some? && OUTPUT in e.value.actions then Some(e.value.actions[OUTPUT]) else None
  }

  /** The keys of a stored entry, in the order of the nesting. */
  datatype Triple = Triple(first: int, second: int, third: int)

  function Output(t: SwitchTable, k: Triple): Nexthop {
    OutputOf(At(t, Num(k.first), Num(k.second), Num(k.third)))
  }

  /** Only numbers are keys. */
  ghost predicate Plain(t: SwitchTable) {
    forall a, b, c | At(t, a, b, c).Some? :: a.Num? && b.Num? && c.Num?
  }

  // ------------------------------------------------------------ encoding

  /** The low bits of a Python integer that a field has room for. */
  function Mask(n: int, room: int): (r: int)
    requires room > 0
    ensures 0 <= r < room
    ensures 0 <= n < room ==> r == n
  {
    n % room
  }

  function PackV6(first: int, second: int, third: int): int {
    10 * 0x1_0000000000_0000000000_0000000000 + first * 0x1_0000000000_0000000000
    + second * 0x1_0000000000 + third
  }

  function PackV4(first: int, second: int, third: int): int {
    10 * 0x100_0000 + first * 0x1_0000 + second * 0x10 + third
  }

  /** The address of a triple: 8, 40, 40 and 40 bits in IPv6; 8, 8, 12 and 4 in IPv4. */
  function Code(v6: bool, k: Triple): int {
    if v6 then
      PackV6(Mask(k.first, 0x1_0000000000), Mask(k.second, 0x1_0000000000), Mask(k.third, 0x1_0000000000))
    else
      PackV4(Mask(k.first, 0x100), Mask(k.second, 0x1000), Mask(k.third, 0x10))
  }

  function AddressWidth(v6: bool): nat {
    if v6 then 128 else 32
  }

  predicate Fits(v6: bool, k: Triple) {
    if v6 then
      0 <= k.first < 0x1_0000000000 && 0 <= k.second < 0x1_0000000000 && 0 <= k.third < 0x1_0000000000
    else
      0 <= k.first < 0x100 && 0 <= k.second < 0x1000 && 0 <= k.third < 0x10
  }

  lemma Pow2Plus8(n: nat)
    ensures Pow2(n + 8) == 0x100 * Pow2(n)
  {
    assert Pow2(n + 2) == 4 * Pow2(n);
    assert Pow2(n + 4) == 4 * Pow2(n + 2);
    assert Pow2(n + 6) == 4 * Pow2(n + 4);
  }

  lemma Pow2Plus32(n: nat)
    ensures Pow2(n + 32) == 0x1_0000_0000 * Pow2(n)
  {
    Pow2Plus8(n);
    Pow2Plus8(n + 8);
    Pow2Plus8(n + 16);
    Pow2Plus8(n + 24);
  }

  lemma Width32(n: nat)
    requires n == 32
    ensures Pow2(n) == 0x1_0000_0000
  {
    Pow2Plus32(n - 32);
  }

  lemma Width128(n: nat)
    requires n == 128
    ensures Pow2(n) == 0x1_0000_0000_0000_0000_0000_0000_0000_0000
  {
    Width32(n - 96);
    Pow2Plus32(n - 96);
    Pow2Plus32(n - 64);
    Pow2Plus32(n - 32);
  }

  lemma CodeInRange(v6: bool, k: Triple)
    ensures 0 <= Code(v6, k) < Pow2(AddressWidth(v6))
  {
    if v6 { Width128(AddressWidth(v6)); } else { Width32(AddressWidth(v6)); }
  }

  /** Where in the number each key stands: the address family in the highest 8 bits, then the
      keys, as far as their fields go. */
  predicate HasFields(v6: bool, k: Triple, a: int) {
    if v6 then
      && a / 0x1_0000000000_0000000000_0000000000 == 10
      && a / 0x1_0000000000_0000000000 % 0x1_0000000000 == k.first % 0x1_0000000000
      && a / 0x1_0000000000 % 0x1_0000000000 == k.second % 0x1_0000000000
      && a % 0x1_0000000000 == k.third % 0x1_0000000000
    else
      && a / 0x100_0000 == 10
      && a / 0x1_0000 % 0x100 == k.first % 0x100
      && a / 0x10 % 0x1000 == k.second % 0x1000
      && a % 0x10 == k.third % 0x10
  }

  lemma PackedFieldsV6(first: int, second: int, third: int)
    requires 0 <= first < 0x1_0000000000 && 0 <= second < 0x1_0000000000 && 0 <= third < 0x1_0000000000
    ensures var a := PackV6(first, second, third);
      && a / 0x1_0000000000_0000000000_0000000000 == 10
      && a / 0x1_0000000000_0000000000 % 0x1_0000000000 == first
      && a / 0x1_0000000000 % 0x1_0000000000 == second
      && a % 0x1_0000000000 == third
  {
    var a, d := PackV6(first, second, third), 0x1_0000000000;
    QuotientIs(a, 0x1_0000000000_0000000000_0000000000, 10, first * 0x1_0000000000_0000000000 + second * d + third);
    QuotientIs(a, 0x1_0000000000_0000000000, 10 * d + first, second * d + third);
    QuotientIs(10 * d + first, d, 10, first);
    QuotientIs(a, d, 10 * 0x1_0000000000_0000000000 + first * d + second, third);
    QuotientIs(10 * 0x1_0000000000_0000000000 + first * d + second, d, 10 * d + first, second);
  }

  lemma UnpackedV6(a: int)
    requires a / 0x1_0000000000_0000000000_0000000000 == 10
    ensures a == PackV6(a / 0x1_0000000000_0000000000 % 0x1_0000000000, a / 0x1_0000000000 % 0x1_0000000000,
                        a % 0x1_0000000000)
  {
  }

  lemma PackedFieldsV4(first: int, second: int, third: int)
    requires 0 <= first < 0x100 && 0 <= second < 0x1000 && 0 <= third < 0x10
    ensures var a := PackV4(first, second, third);
      a / 0x100_0000 == 10 && a / 0x1_0000 % 0x100 == first && a / 0x10 % 0x1000 == second && a % 0x10 == third
  {
    var a := PackV4(first, second, third);
    QuotientIs(a, 0x100_0000, 10, first * 0x1_0000 + second * 0x10 + third);
    QuotientIs(a, 0x1_0000, 10 * 0x100 + first, second * 0x10 + third);
    QuotientIs(10 * 0x100 + first, 0x100, 10, first);
    QuotientIs(a, 0x10, 10 * 0x10_0000 + first * 0x1000 + second, third);
    QuotientIs(10 * 0x10_0000 + first * 0x1000 + second, 0x1000, 10 * 0x100 + first, second);
  }

  lemma UnpackedV4(a: int)
    requires a / 0x100_0000 == 10
    ensures a == PackV4(a / 0x1_0000 % 0x100, a / 0x10 % 0x1000, a % 0x10)
  {
  }

  lemma FieldsV6(k: Triple, a: int)
    ensures HasFields(true, k, a) <==> a == Code(true, k)
  {
    PackedFieldsV6(Mask(k.first, 0x1_0000000000), Mask(k.second, 0x1_0000000000), Mask(k.third, 0x1_0000000000));
    if HasFields(true, k, a) { UnpackedV6(a); }
  }

  lemma FieldsV4(k: Triple, a: int)
    ensures HasFields(false, k, a) <==> a == Code(false, k)
  {
    PackedFieldsV4(Mask(k.first, 0x100), Mask(k.second, 0x1000), Mask(k.third, 0x10));
    if HasFields(false, k, a) { UnpackedV4(a); }
  }

  /** The address of a triple is the one number with its fields. */
  lemma FieldsAreCode(v6: bool, k: Triple, a: int)
    ensures HasFields(v6, k, a) <==> a == Code(v6, k)
  {
    if v6 { FieldsV6(k, a); } else { FieldsV4(k, a); }
  }

  /** Keys that fit their fields are told apart by the address. */
  lemma CodeInjective(v6: bool, k: Triple, l: Triple)
    requires Fits(v6, k) && Fits(v6, l) && Code(v6, k) == Code(v6, l)
    ensures k == l
  {
    if v6 { PackV6Injective(k.first, k.second, k.third, l.first, l.second, l.third); }
  }

  lemma PackV6Injective(a: int, b: int, c: int, x: int, y: int, z: int)
    requires 0 <= a < 0x1_0000000000 && 0 <= b < 0x1_0000000000 && 0 <= c < 0x1_0000000000
    requires 0 <= x < 0x1_0000000000 && 0 <= y < 0x1_0000000000 && 0 <= z < 0x1_0000000000
    requires PackV6(a, b, c) == PackV6(x, y, z)
    ensures a == x && b == y && c == z
  {
  }

  // ------------------------------------------------------------ rules of a table

  function RuleOf(v6: bool, k: Triple, nexthop: int): Rule {
    Rule(Code(v6, k), AddressWidth(v6), nexthop)
  }

  /** A rule for the triple's whole address. */
  predicate IsRuleOf(v6: bool, k: Triple, r: Rule) {
    r.length == (if v6 then 128 else 32) && HasFields(v6, k, r.prefix)
  }

  /** The rule is that of some stored triple. */
  ghost predicate FromTable(t: SwitchTable, v6: bool, r: Rule) {
    exists k :: Output(t, k) == Some(r.nexthop) && IsRuleOf(v6, k, r)
  }

  ghost predicate InRules(t: SwitchTable, v6: bool, rules: seq<Rule>, k: Triple) {
    Output(t, k).Some? ==> exists r :: r in rules && r.nexthop == Output(t, k).value && IsRuleOf(v6, k, r)
  }

  /** The rules are those of the triples, one for each, and no triple comes twice. */
  ghost predicate Lists(t: SwitchTable, v6: bool, keys: seq<Triple>, rules: seq<Rule>) {
    && |keys| == |rules| && (forall i, j | 0 <= i < j < |keys| :: keys[i] != keys[j])
    && forall i | 0 <= i < |keys| :: Output(t, keys[i]) == Some(rules[i].nexthop) && IsRuleOf(v6, keys[i], rules[i])
  }

  /** The rules are those of the stored triples that name an output, one for each, in any
      order. */
  ghost predicate Encodes(t: SwitchTable, v6: bool, rules: seq<Rule>) {
    exists keys :: Lists(t, v6, keys, rules) && forall k | Output(t, k).Some? :: k in keys
  }

  lemma EncodesEach(t: SwitchTable, v6: bool, rules: seq<Rule>)
    requires Encodes(t, v6, rules)
    ensures forall r | r in rules :: FromTable(t, v6, r)
    ensures forall k :: InRules(t, v6, rules, k)
  {
    var keys :| Lists(t, v6, keys, rules) && forall k | Output(t, k).Some? :: k in keys;
    forall r | r in rules ensures FromTable(t, v6, r) {
      var i :| 0 <= i < |rules| && rules[i] == r;
      assert Output(t, keys[i]) == Some(r.nexthop);
    }
    forall k | Output(t, k).Some? ensures InRules(t, v6, rules, k) {
      var i :| 0 <= i < |keys| && keys[i] == k;
      assert rules[i] in rules;
    }
  }

  lemma ListsMore(t: SwitchTable, v6: bool, keys: seq<Triple>, rules: seq<Rule>, more: seq<Triple>, rest: seq<Rule>)
    requires Lists(t, v6, keys, rules) && Lists(t, v6, more, rest)
    requires forall i, j | 0 <= i < |keys| && 0 <= j < |more| :: keys[i] != more[j]
    ensures Lists(t, v6, keys + more, rules + rest)
  {
  }

  /** Stored triples with the same fields name the same output. */
  ghost predicate Agreeing(t: SwitchTable, v6: bool) {
    forall k, l | Output(t, k).Some? && Output(t, l).Some? && SameFields(v6, k, l) :: Output(t, k) == Output(t, l)
  }

  /** The address of every stored triple that names an output walks there. */
  ghost predicate ForwardsAll(t: SwitchTable, v6: bool, trie: Trie<Nexthop>) {
    forall k, a | Output(t, k).Some? && HasFields(v6, k, a) ::
      NumberLookup(trie, a, AddressWidth(v6), None) == Output(t, k)
  }

  /** A rule of a triple covers exactly the triple's address. */
  lemma CoversOwn(v6: bool, k: Triple, r: Rule, a: int)
    requires IsRuleOf(v6, k, r) && 0 <= a < Pow2(AddressWidth(v6))
    ensures Covers(r, a, AddressWidth(v6)) <==> HasFields(v6, k, a)
  {
    FieldsAreCode(v6, k, r.prefix);
    FieldsAreCode(v6, k, a);
    CodeInRange(v6, k);
    CoversItself(r, a, AddressWidth(v6));
  }

  lemma CoversItself(r: Rule, a: int, w: nat)
    requires 0 < w == r.length && 0 <= r.prefix < Pow2(w)
    ensures Covers(r, a, w) <==> a == r.prefix
  {
    assert Pow2(w - r.length) == 1;
    QuotientIs(r.prefix, Pow2(w), 0, r.prefix);
  }

  /** What the rules answer for the address of a stored triple is the output of a stored
      triple with the same fields. */
  lemma AnswerIsStored(t: SwitchTable, v6: bool, rules: seq<Rule>, top: Nexthop, k: Triple, a: int, x: Nexthop)
    requires Encodes(t, v6, rules) && Output(t, k).Some? && HasFields(v6, k, a)
    requires IsHopOf(rules, top, a, AddressWidth(v6), x)
    ensures exists l :: x.Some? && Output(t, l) == x && SameFields(v6, k, l)
  {
    var w := AddressWidth(v6);
    FieldsAreCode(v6, k, a);
    CodeInRange(v6, k);
    EncodesEach(t, v6, rules);
    var j := OwnRule(t, v6, rules, k, a);
    var i :| IsLongest(rules, a, w, i) && x == Some(rules[i].nexthop);
    assert FromTable(t, v6, rules[i]);
    var l :| Output(t, l) == x && IsRuleOf(v6, l, rules[i]);
    CoversOwn(v6, l, rules[i], a);
  }

  lemma OwnRule(t: SwitchTable, v6: bool, rules: seq<Rule>, k: Triple, a: int) returns (j: nat)
    requires InRules(t, v6, rules, k) && Output(t, k).Some? && HasFields(v6, k, a)
    ensures j < |rules| && Covers(rules[j], a, AddressWidth(v6))
  {
    FieldsAreCode(v6, k, a);
    CodeInRange(v6, k);
    var own :| own in rules && own.nexthop == Output(t, k).value && IsRuleOf(v6, k, own);
    CoversOwn(v6, k, own, a);
    j :| j < |rules| && rules[j] == own;
  }

  /** A trie with the answers of the rules forwards every stored triple to its own output
      exactly when triples that share an address agree. */
  lemma ForwardsIffAgreeing(t: SwitchTable, v6: bool, rules: seq<Rule>, top: Nexthop, trie: Trie<Nexthop>)
    requires Encodes(t, v6, rules) && AnswersAll(rules, top, AddressWidth(v6), trie)
    ensures ForwardsAll(t, v6, trie) <==> Agreeing(t, v6)
  {
    var w := AddressWidth(v6);
    if Agreeing(t, v6) {
      forall k, a | Output(t, k).Some? && HasFields(v6, k, a) ensures NumberLookup(trie, a, w, None) == Output(t, k) {
        FieldsAreCode(v6, k, a);
        CodeInRange(v6, k);
        AnswerIsStored(t, v6, rules, top, k, a, NumberLookup(trie, a, w, None));
      }
    }
    if ForwardsAll(t, v6, trie) {
      forall k, l | Output(t, k).Some? && Output(t, l).Some? && SameFields(v6, k, l)
        ensures Output(t, k) == Output(t, l)
      {
        FieldsAreCode(v6, k, Code(v6, k));
        assert HasFields(v6, l, Code(v6, k));
        assert NumberLookup(trie, Code(v6, k), w, None) == Output(t, k);
      }
    }
  }

  /** Keys that fit their fields never disagree. */
  lemma FittingKeysAgree(t: SwitchTable, v6: bool)
    requires forall k | Output(t, k).Some? :: Fits(v6, k)
    ensures Agreeing(t, v6)
  {
    forall k, l | Output(t, k).Some? && Output(t, l).Some? && SameFields(v6, k, l)
      ensures Output(t, k) == Output(t, l)
    {
      SameAddress(v6, k, l);
      CodeInjective(v6, k, l);
    }
  }

  /** The keys agree as far as their fields go. */
  predicate SameFields(v6: bool, k: Triple, l: Triple) {
    if v6 then
      && k.first % 0x1_0000000000 == l.first % 0x1_0000000000
      && k.second % 0x1_0000000000 == l.second % 0x1_0000000000
      && k.third % 0x1_0000000000 == l.third % 0x1_0000000000
    else
      k.first % 0x100 == l.first % 0x100 && k.second % 0x1000 == l.second % 0x1000 && k.third % 0x10 == l.third % 0x10
  }

  /** Which triples share an address: exactly those whose keys agree modulo the sizes of the
      fields. */
  lemma SameAddress(v6: bool, k: Triple, l: Triple)
    ensures Code(v6, k) == Code(v6, l) <==> SameFields(v6, k, l)
  {
    if v6 && Code(v6, k) == Code(v6, l) {
      PackV6Injective(
        Mask(k.first, 0x1_0000000000), Mask(k.second, 0x1_0000000000), Mask(k.third, 0x1_0000000000),
        Mask(l.first, 0x1_0000000000), Mask(l.second, 0x1_0000000000), Mask(l.third, 0x1_0000000000));
    }
  }

  /** Path ids have four bits in IPv4: two paths of one chain whose ids agree modulo 16 clash
      in every table that sends them to different nodes. */
  lemma PathIdsClashInV4(t: SwitchTable, vnf: int, sfci: int, p: int, q: int)
    requires p % 0x10 == q % 0x10
    requires Output(t, Triple(vnf, sfci, p)).Some? && Output(t, Triple(vnf, sfci, q)).Some?
    requires Output(t, Triple(vnf, sfci, p)) != Output(t, Triple(vnf, sfci, q))
    ensures !Agreeing(t, false)
  {
    assert SameFields(false, Triple(vnf, sfci, p), Triple(vnf, sfci, q));
  }

  // ------------------------------------------------------------ the maintainer

  class UFRRIBMaintainer {
    const encodingFormat: Encoding
    var switchesUFRRTable: map<int, SwitchTable>

    ghost predicate Valid()
      reads this
    {
      forall dpid | dpid in switchesUFRRTable :: Plain(switchesUFRRTable[dpid])
    }

    /** The table of a switch; an unknown switch has an empty one. */
    function TableOf(dpid: int): SwitchTable
      reads this
    {
      if dpid in switchesUFRRTable then switchesUFRRTable[dpid] else map[]
    }

    constructor (encodingFormat: Encoding)
      ensures Valid() && this.encodingFormat == encodingFormat && switchesUFRRTable == map[]
    {
      this.encodingFormat := encodingFormat;
      switchesUFRRTable := map[];
    }

    /** Stores an entry; `ok` is false where the source raises on an unknown encoding. */
    method AddSFCIUFRRFlowTableEntry(dpid: int, sfciID: int, vnfID: int, pathID: int, actions: Actions, priority: int)
      returns (ok: bool)
      requires Valid()
      modifies this
      ensures Valid()
      ensures ok <==> !encodingFormat.UnknownEncoding?
      ensures !ok ==> switchesUFRRTable == old(switchesUFRRTable)
      ensures ok ==>
        var (x, y, z) :=
          (match encodingFormat
           case VnfSfcPath => (vnfID, sfciID, pathID)
           case SfcVnfPath => (sfciID, vnfID, pathID)
           case PathVnfSfc => (pathID, vnfID, sfciID)
           case UnknownEncoding => (0, 0, 0));
        && (forall d, a, b, c | d != dpid || a != Num(x) || b != Num(y) || c != Num(z) ::
              At(TableOf(d), a, b, c) == old(At(TableOf(d), a, b, c)))
        && At(TableOf(dpid), Num(x), Num(y), Num(z)) == Some(Entry(actions, priority))
    {
      var firstKey, secondKey, thirdKey;
      match encodingFormat {
        case VnfSfcPath => firstKey, secondKey, thirdKey := Num(vnfID), Num(sfciID), Num(pathID);
        case SfcVnfPath => firstKey, secondKey, thirdKey := Num(sfciID), Num(vnfID), Num(pathID);
        case PathVnfSfc => firstKey, secondKey, thirdKey := Num(pathID), Num(vnfID), Num(sfciID);
        case UnknownEncoding => return false;
      }
      var switchTable := TableOf(dpid);
      var firstTable := if firstKey in switchTable then switchTable[firstKey] else map[];
      var secondTable := if secondKey in firstTable then firstTable[secondKey] else map[];
      secondTable := secondTable[thirdKey := Entry(actions, priority)];
      firstTable := firstTable[secondKey := secondTable];
      ghost var before := switchTable;
      switchTable := switchTable[firstKey := firstTable];
      assert forall a, b, c | a != firstKey || b != secondKey || c != thirdKey ::
        At(switchTable, a, b, c) == At(before, a, b, c);
      switchesUFRRTable := switchesUFRRTable[dpid := switchTable];
      ok := true;
    }

    /** The rules of a switch, one for each stored triple that names an output. */
    method GenerateRules(dpid: int, v6: bool) returns (rules: seq<Rule>)
      requires Valid() && dpid in switchesUFRRTable
      ensures Encodes(switchesUFRRTable[dpid], v6, rules)
    {
      rules := [];
      var t := switchesUFRRTable[dpid];
      var todo := t.Keys;
      ghost var keys: seq<Triple> := [];
      while todo != {}
        invariant todo <= t.Keys && Lists(t, v6, keys, rules)
        invariant forall k | k in keys :: Num(k.first) !in todo
        invariant forall k: Triple | Output(t, k).Some? && Num(k.first) !in todo :: k in keys
        decreases |todo|
      {
        var firstKey :| firstKey in todo;
        ghost var more;
        var rest;
        rest, more := RulesOfFirstKey(t, v6, firstKey);
        ListsMore(t, v6, keys, rules, more, rest);
        rules, keys := rules + rest, keys + more;
        todo := todo - {firstKey};
      }
    }

    /** The second loop of `GenerateRules`. */
    static method RulesOfFirstKey(t: SwitchTable, v6: bool, firstKey: Key) returns (rules: seq<Rule>, ghost keys: seq<Triple>)
      requires Plain(t) && firstKey in t
      ensures Lists(t, v6, keys, rules)
      ensures forall k: Triple | Output(t, k).Some? :: k in keys <==> Num(k.first) == firstKey
    {
      rules, keys := [], [];
      var todo := t[firstKey].Keys;
      while todo != {}
        invariant todo <= t[firstKey].Keys && Lists(t, v6, keys, rules)
        invariant forall k | k in keys :: Num(k.first) == firstKey && Num(k.second) !in todo
        invariant forall k: Triple | Output(t, k).Some? && Num(k.first) == firstKey && Num(k.second) !in todo :: k in keys
        decreases |todo|
      {
        var secondKey :| secondKey in todo;
        ghost var more;
        var rest;
        rest, more := RulesOfSecondKey(t, v6, firstKey, secondKey);
        ListsMore(t, v6, keys, rules, more, rest);
        rules, keys := rules + rest, keys + more;
        todo := todo - {secondKey};
      }
    }

    /** The innermost loop of `GenerateRules`. */
    static method RulesOfSecondKey(t: SwitchTable, v6: bool, firstKey: Key, secondKey: Key)
      returns (rules: seq<Rule>, ghost keys: seq<Triple>)
      requires Plain(t) && firstKey in t && secondKey in t[firstKey]
      ensures Lists(t, v6, keys, rules)
      ensures forall k: Triple | Output(t, k).Some? ::
        k in keys <==> Num(k.first) == firstKey && Num(k.second) == secondKey
    {
      rules, keys := [], [];
      var todo := t[firstKey][secondKey].Keys;
      while todo != {}
        invariant todo <= t[firstKey][secondKey].Keys && Lists(t, v6, keys, rules)
        invariant forall k | k in keys :: Num(k.first) == firstKey && Num(k.second) == secondKey && Num(k.third) !in todo
        invariant forall k: Triple |
            Output(t, k).Some? && Num(k.first) == firstKey && Num(k.second) == secondKey && Num(k.third) !in todo :: k in keys
        decreases |todo|
      {
        var thirdKey :| thirdKey in todo;
        assert At(t, firstKey, secondKey, thirdKey).Some?;
        var actions := t[firstKey][secondKey][thirdKey].actions;
        if OUTPUT in actions {
          var k := Triple(firstKey.n, secondKey.n, thirdKey.n);
          assert Output(t, k) == Some(actions[OUTPUT]);
          FieldsAreCode(v6, k, Code(v6, k));
          ListsMore(t, v6, keys, rules, [k], [RuleOf(v6, k, actions[OUTPUT])]);
          rules, keys := rules + [RuleOf(v6, k, actions[OUTPUT])], keys + [k];
        }
        todo := todo - {thirdKey};
      }
    }

    /** The trie holds the rules of the switch, and the passes may start. */
    ghost predicate Built(dpid: int, v6: bool, bT: BinaryTrie)
      requires dpid in switchesUFRRTable
      reads this, bT, bT.repr
    {
      && bT.Valid() && AllSingle(bT.Tree()) && Rooted(Label(bT.Tree()))
      && Encodes(switchesUFRRTable[dpid], v6, bT.rules) && Refines(bT.table, bT.rules, {bT.mostNexthop})
      && MaxLength(bT.rules) == bT.width <= AddressWidth(v6)
    }

    /** The compressed trie of the switch answers as its rules do; it forwards every stored
        triple to its own output exactly when triples sharing an address agree; and no table
        with these answers is smaller. */
    ghost predicate Compressed(dpid: int, v6: bool, bT: BinaryTrie)
      requires dpid in switchesUFRRTable
      reads this, bT, bT.repr
    {
      && bT.Valid() && AllSingle(bT.Tree()) && Encodes(switchesUFRRTable[dpid], v6, bT.rules)
      && AnswersAll(bT.rules, bT.mostNexthop, AddressWidth(v6), Label(bT.Tree()))
      && (ForwardsAll(switchesUFRRTable[dpid], v6, Label(bT.Tree())) <==> Agreeing(switchesUFRRTable[dpid], v6))
      && forall c | SameAnswers(c, Label(bT.Tree()), AddressWidth(v6)) :: CountSets(bT.Tree()) <= Count(c)
    }

    /** Along the pointers of the compressed trie every address walks to the hop of its longest
        rule, and if triples sharing an address agree, that of a stored triple to its output. */
    lemma CompressedWalks(dpid: int, v6: bool, bT: BinaryTrie, a: int)
      requires dpid in switchesUFRRTable && Compressed(dpid, v6, bT) && 0 <= a < Pow2(AddressWidth(v6))
      ensures bT.Owns(bT.root) && bT.root.path == Root
      ensures var hop := Follow(bT, bT.root, a, AddressWidth(v6), None);
        && IsHopOf(bT.rules, bT.mostNexthop, a, AddressWidth(v6), hop)
        && forall k | Agreeing(switchesUFRRTable[dpid], v6) && HasFields(v6, k, a) && Output(switchesUFRRTable[dpid], k).Some? ::
             hop == Output(switchesUFRRTable[dpid], k)
    {
      assert bT.Hangs(Root);
      FollowIsLookup(bT, bT.root, a, AddressWidth(v6), None);
    }

    method InitialBinaryTrie(dpid: int, v6: bool) returns (bT: BinaryTrie)
      requires Valid() && dpid in switchesUFRRTable
      ensures fresh(bT) && fresh(bT.repr) && Built(dpid, v6, bT)
    {
      var rules := GenerateRules(dpid, v6);
      bT := new BinaryTrie(rules);
      EncodesEach(switchesUFRRTable[dpid], v6, rules);
      RulesWidth(switchesUFRRTable[dpid], v6, rules);
      RefinesRooted(bT.table, rules, bT.mostNexthop, bT.width);
    }

    method CompressBuilt(dpid: int, v6: bool, bT: BinaryTrie)
      requires dpid in switchesUFRRTable && Built(dpid, v6, bT)
      modifies bT`nodes, bT`repr, bT`table, bT.repr
      ensures Compressed(dpid, v6, bT)
      ensures forall n | n in bT.repr :: n in old(bT.repr) || fresh(n)
    {
      ghost var built := bT.table;
      CompressByORTC(bT);
      CompressedForwards(switchesUFRRTable[dpid], v6, bT.rules, built, bT.mostNexthop, bT.width, bT.table);
    }

    /** Builds the trie of a switch and compresses it. */
    method CompressSwitchByORTC(dpid: int, v6: bool) returns (bT: BinaryTrie)
      requires Valid() && dpid in switchesUFRRTable
      ensures Compressed(dpid, v6, bT)
    {
      bT := InitialBinaryTrie(dpid, v6);
      CompressBuilt(dpid, v6, bT);
    }

    /** Compresses the tables of all switches.  The source first builds all tries; as they
        share nothing, each is compressed here as soon as it is built. */
    method CompressAllSwitchesUFRRTableByORTC(v6: bool) returns (tries: map<int, BinaryTrie>)
      requires Valid()
      ensures tries.Keys == switchesUFRRTable.Keys
      ensures forall d | d in tries :: Compressed(d, v6, tries[d])
    {
      tries := map[];
      var todo := switchesUFRRTable.Keys;
      while todo != {}
        invariant todo <= switchesUFRRTable.Keys && tries.Keys == switchesUFRRTable.Keys - todo
        invariant forall d | d in tries :: Compressed(d, v6, tries[d])
      {
        ghost var some := Member(todo);
        var dpid :| dpid in todo;
        var bT := CompressSwitchByORTC(dpid, v6);
        tries := tries[dpid := bT];
        todo := todo - {dpid};
      }
    }
  }

  /** A table the platform can build: two backup paths of one chain, numbered 2 and 18, leave
      the switch for different nodes.  Its compressed trie does not forward both. */
  method ClashingBackups(dpid: int, sfciID: int, vnfID: int) returns (m: UFRRIBMaintainer, bT: BinaryTrie)
    ensures m.Valid() && dpid in m.switchesUFRRTable && bT.Valid() && AllSingle(bT.Tree())
    ensures Output(m.switchesUFRRTable[dpid], Triple(vnfID, sfciID, 2)) == Some(5)
    ensures Output(m.switchesUFRRTable[dpid], Triple(vnfID, sfciID, 18)) == Some(6)
    ensures !ForwardsAll(m.switchesUFRRTable[dpid], false, Label(bT.Tree()))
  {
    m := new UFRRIBMaintainer(VnfSfcPath);
    var first := m.AddSFCIUFRRFlowTableEntry(dpid, sfciID, vnfID, 2, map[OUTPUT := 5], 0);
    assert At(m.TableOf(dpid), Num(vnfID), Num(sfciID), Num(2)) == Some(Entry(map[OUTPUT := 5], 0));
    var second := m.AddSFCIUFRRFlowTableEntry(dpid, sfciID, vnfID, 18, map[OUTPUT := 6], 0);
    assert At(m.TableOf(dpid), Num(vnfID), Num(sfciID), Num(18)) == Some(Entry(map[OUTPUT := 6], 0));
    assert At(m.TableOf(dpid), Num(vnfID), Num(sfciID), Num(2)) == Some(Entry(map[OUTPUT := 5], 0));
    PathIdsClashInV4(m.TableOf(dpid), vnfID, sfciID, 2, 18);
    bT := m.CompressSwitchByORTC(dpid, false);
  }

  /** From the trie of the rules to its compressed form. */
  lemma CompressedForwards(t: SwitchTable, v6: bool, rules: seq<Rule>, built: Table, top: Nexthop, h: nat, done: Table)
    requires Encodes(t, v6, rules) && Refines(built, rules, {top})
    requires MaxLength(rules) <= h <= AddressWidth(v6)
    requires AllSingle(TreeOf(built, Root, h)) && AllSingle(TreeOf(done, Root, h))
    requires forall w | h <= w :: SameAnswers(Label(TreeOf(done, Root, h)), Label(TreeOf(built, Root, h)), w)
    requires forall w, c | h <= w && SameAnswers(c, Label(TreeOf(built, Root, h)), w) ::
      CountSets(TreeOf(done, Root, h)) <= Count(c)
    ensures AnswersAll(rules, top, AddressWidth(v6), Label(TreeOf(done, Root, h)))
    ensures ForwardsAll(t, v6, Label(TreeOf(done, Root, h))) <==> Agreeing(t, v6)
    ensures forall c | SameAnswers(c, Label(TreeOf(done, Root, h)), AddressWidth(v6)) ::
      CountSets(TreeOf(done, Root, h)) <= Count(c)
  {
    var w := AddressWidth(v6);
    var trie, before := Label(TreeOf(done, Root, h)), Label(TreeOf(built, Root, h));
    assert SameAnswers(trie, before, w);
    forall a | 0 <= a < Pow2(w) ensures IsHopOf(rules, top, a, w, NumberLookup(trie, a, w, None)) {
      NumberGetsLongest(built, rules, top, a, w, h);
      NumberLookupIsLookup(trie, a, w, None);
      NumberLookupIsLookup(before, a, w, None);
    }
    ForwardsIffAgreeing(t, v6, rules, top, trie);
    forall c | SameAnswers(c, trie, w) ensures CountSets(TreeOf(done, Root, h)) <= Count(c) {
      assert SameAnswers(c, before, w);
    }
  }

  lemma {:induction false} RulesWidth(t: SwitchTable, v6: bool, rules: seq<Rule>)
    requires forall r | r in rules :: FromTable(t, v6, r)
    ensures MaxLength(rules) <= AddressWidth(v6)
  {
    if rules != [] {
      assert rules[|rules| - 1] in rules;
      RulesWidth(t, v6, rules[..|rules| - 1]);
    }
  }
}
