/** First-stage compression of a switch's UFRR table: under each first key, the most
    frequent output becomes one wildcard entry. */
module UfrrFirstStage {
  import opened Counters
  import opened Tries
  import opened UfrrTables

  type Cell = (Key, Key)

  function Cells(t: FirstTable): set<Cell> {
    set b, c | b in t && c in t[b] :: (b, c)
  }

  function EntryAt(t: FirstTable, b: Key, c: Key): Option<Entry> {
    if b in t && c in t[b] then Some(t[b][c]) else None
  }

  /** The cells of `s` that send to `x`. */
  function Sends(t: FirstTable, s: set<Cell>, x: int): set<Cell> {
    set p | p in s && OutputOf(EntryAt(t, p.0, p.1)) == Some(x)
  }

  ghost predicate PlainFirst(t: FirstTable) {
    forall p | p in Cells(t) :: p.0.Num? && p.1.Num?
  }

  ghost predicate MostFrequent(t: FirstTable, x: int) {
    && Sends(t, Cells(t), x) != {}
    && forall y :: |Sends(t, Cells(t), y)| <= |Sends(t, Cells(t), x)|
  }

  // ------------------------------------------------------------ counting

  /** The counter starts at zero on the first occurrence. */
  ghost predicate Counted(t: FirstTable, seen: set<Cell>, counter: map<int, nat>) {
    forall x ::
      && (x in counter <==> Sends(t, seen, x) != {})
      && (x in counter ==> counter[x] == |Sends(t, seen, x)| - 1)
  }

  lemma CountStep(t: FirstTable, seen: set<Cell>, p: Cell, counter: map<int, nat>)
    requires Counted(t, seen, counter) && p in Cells(t) && p !in seen
    ensures var out := OutputOf(EntryAt(t, p.0, p.1));
      Counted(t, seen + {p},
        if out.None? then counter
        else counter[out.value := if out.value in counter then counter[out.value] + 1 else 0])
  {
    forall x
      ensures Sends(t, seen + {p}, x) ==
        Sends(t, seen, x) + if OutputOf(EntryAt(t, p.0, p.1)) == Some(x) then {p} else {}
    {
    }
  }

  /** The cells of the rows in `rows`. */
  function CellsOf(t: FirstTable, rows: set<Key>): set<Cell> {
    set p | p in Cells(t) && p.0 in rows
  }

  /** These, and of row `b` the cells that are not in `cols`. */
  function Seen(t: FirstTable, rows: set<Key>, b: Key, cols: set<Key>): set<Cell> {
    CellsOf(t, rows) + set p | p in Cells(t) && p.0 == b && p.1 !in cols
  }

  lemma SeenEnds(t: FirstTable, rows: set<Key>, b: Key)
    requires b in t
    ensures Seen(t, rows, b, t[b].Keys) == CellsOf(t, rows)
    ensures Seen(t, rows, b, {}) == CellsOf(t, rows + {b})
  {
  }

  lemma SeenMore(t: FirstTable, rows: set<Key>, b: Key, cols: set<Key>, c: Key)
    requires b in t && b !in rows && c in cols && cols <= t[b].Keys
    ensures (b, c) in Cells(t) && (b, c) !in Seen(t, rows, b, cols)
    ensures Seen(t, rows, b, cols - {c}) == Seen(t, rows, b, cols) + {(b, c)}
  {
  }

  /** The inner loop: counts the outputs of one row. */
  method CountRow(t: FirstTable, b: Key, before: map<int, nat>, ghost rows: set<Key>) returns (counter: map<int, nat>)
    requires b in t && b !in rows && Counted(t, CellsOf(t, rows), before)
    ensures Counted(t, CellsOf(t, rows + {b}), counter)
  {
    counter := before;
    var cols := t[b].Keys;
    SeenEnds(t, rows, b);
    while cols != {}
      invariant cols <= t[b].Keys && Counted(t, Seen(t, rows, b, cols), counter)
      decreases |cols|
    {
      var c :| c in cols;
      SeenMore(t, rows, b, cols, c);
      CountStep(t, Seen(t, rows, b, cols), (b, c), counter);
      if OUTPUT in t[b][c].actions {
        var x := t[b][c].actions[OUTPUT];
        counter := counter[x := if x in counter then counter[x] + 1 else 0];
      }
      cols := cols - {c};
    }
  }

  method FindFirstKeyTableTheMostFrequentOutput(t: FirstTable) returns (out: Nexthop)
    ensures out.None? ==> forall x :: Sends(t, Cells(t), x) == {}
    ensures out.Some? ==> MostFrequent(t, out.value)
  {
    var counter: map<int, nat> := map[];
    var rows := t.Keys;
    assert CellsOf(t, {}) == {};
    while rows != {}
      invariant rows <= t.Keys && Counted(t, CellsOf(t, t.Keys - rows), counter)
      decreases |rows|
    {
      var b :| b in rows;
      counter := CountRow(t, b, counter, t.Keys - rows);
      assert t.Keys - (rows - {b}) == t.Keys - rows + {b};
      rows := rows - {b};
    }
    assert t.Keys - {} == t.Keys && CellsOf(t, t.Keys) == Cells(t);
    if counter == map[] {
      out := None;
    } else {
      var x := MaxKey(counter);
      out := Some(x);
    }
  }

  // ------------------------------------------------------------ merging

  /** What is left of a row once the entries that send to `x` are gone. */
  function Kept(row: SecondTable, x: int): SecondTable {
    map c | c in row && OutputOf(Some(row[c])) != Some(x) :: row[c]
  }

  function DefaultEntry(x: int): Entry {
    Entry(map[OUTPUT := x], 16)
  }

  /** The table with `x` as its wildcard output. */
  function Merged(t: FirstTable, x: int): FirstTable {
    (map b | b in t && Kept(t[b], x) != map[] :: Kept(t[b], x))[Wildcard := map[Wildcard := DefaultEntry(x)]]
  }

  /** The inner loop: pops the entries of one row that send to `x`. */
  method MergeRow(row: SecondTable, x: int) returns (left: SecondTable)
    ensures left == Kept(row, x)
  {
    left := row;
    var cols := row.Keys;
    while cols != {}
      invariant cols <= row.Keys
      invariant left == map c | c in row && (c in cols || OutputOf(Some(row[c])) != Some(x)) :: row[c]
      decreases |cols|
    {
      var c :| c in cols;
      cols := cols - {c};
      if OUTPUT in row[c].actions && row[c].actions[OUTPUT] == x {
        left := left - {c};
      }
    }
  }

  /** Half way through: the rows in `rows` are still to be merged. */
  ghost predicate MergedBut(t: FirstTable, merged: FirstTable, x: int, rows: set<Key>) {
    && (forall b :: b in merged <==> b in t && (b in rows || Kept(t[b], x) != map[]))
    && forall b | b in merged :: merged[b] == if b in rows then t[b] else Kept(t[b], x)
  }

  lemma MergedAll(t: FirstTable, merged: FirstTable, x: int)
    requires MergedBut(t, merged, x, {})
    ensures merged[Wildcard := map[Wildcard := DefaultEntry(x)]] == Merged(t, x)
  {
    assert merged == map b | b in t && Kept(t[b], x) != map[] :: Kept(t[b], x);
  }

  method MergeEntry4FirstStage(t: FirstTable, outputNodeID: Nexthop) returns (merged: FirstTable)
    ensures merged == if outputNodeID.None? then t else Merged(t, outputNodeID.value)
  {
    merged := t;
    if outputNodeID.None? {
      return;
    }
    var x := outputNodeID.value;
    var rows := t.Keys;
    while rows != {}
      invariant rows <= t.Keys && MergedBut(t, merged, x, rows)
      decreases |rows|
    {
      var b :| b in rows;
      var left := MergeRow(t[b], x);
      merged := merged[b := left];
      if merged[b] == map[] {
        merged := merged - {b};
      }
      rows := rows - {b};
    }
    MergedAll(t, merged, x);
    merged := merged[Wildcard := map[Wildcard := DefaultEntry(x)]];
  }

  /** The source's lookup in a compressed table: the exact keys, then a wildcard third key,
      then the wildcard of the first key. */
  function ComSubEntry(t: FirstTable, b: Key, c: Key): Option<Entry> {
    if EntryAt(t, b, c).Some? then EntryAt(t, b, c)
    else if EntryAt(t, b, Wildcard).Some? then EntryAt(t, b, Wildcard)
    else EntryAt(t, Wildcard, Wildcard)
  }

  /** Merging keeps the output of every stored entry that names one, and keeps the whole
      actions exactly when the entry stayed or had nothing but its output. */
  lemma MergedForwards(t: FirstTable, x: int, b: Key, c: Key)
    requires PlainFirst(t) && (b, c) in Cells(t)
    ensures var found := ComSubEntry(Merged(t, x), b, c);
      && found.Some?
      && OutputOf(found) == OutputOf(Some(t[b][c]))
      && (found.value.actions == t[b][c].actions <==>
            OutputOf(Some(t[b][c])) != Some(x) || t[b][c].actions == map[OUTPUT := x])
  {
    assert b.Num? && c.Num?;
    if OutputOf(Some(t[b][c])) != Some(x) {
      assert c in Kept(t[b], x);
      assert EntryAt(Merged(t, x), b, c) == Some(t[b][c]);
    } else {
      assert EntryAt(Merged(t, x), b, c).None?;
      assert b in t && Wildcard in t[b] ==> (b, Wildcard) in Cells(t);
      assert EntryAt(Merged(t, x), b, Wildcard).None?;
      assert ComSubEntry(Merged(t, x), b, c) == Some(DefaultEntry(x));
    }
  }

  lemma MergedCell(t: FirstTable, x: int, b: Key, c: Key)
    requires PlainFirst(t)
    ensures (b, c) in Cells(Merged(t, x)) <==>
      (b, c) in Cells(t) - Sends(t, Cells(t), x) || (b, c) == (Wildcard, Wildcard)
  {
    if (b, c) in Cells(t) {
      assert OutputOf(Some(t[b][c])) != Some(x) ==> c in Kept(t[b], x);
    }
  }

  lemma MergedSize(t: FirstTable, x: int)
    requires PlainFirst(t)
    ensures |Cells(Merged(t, x))| == |Cells(t)| - |Sends(t, Cells(t), x)| + 1
  {
    var star: Cell := (Wildcard, Wildcard);
    var stay := Cells(t) - Sends(t, Cells(t), x);
    forall p: Cell ensures p in Cells(Merged(t, x)) <==> p in stay + {star} {
      MergedCell(t, x, p.0, p.1);
    }
    assert Cells(Merged(t, x)) == stay + {star};
    assert star !in Cells(t);
  }

  /** The most frequent output gives the smallest table a single wildcard can give, and
      one that is no larger than the original. */
  lemma MergedIsSmallest(t: FirstTable, x: int, y: int)
    requires PlainFirst(t) && MostFrequent(t, x)
    ensures |Cells(Merged(t, x))| <= |Cells(Merged(t, y))|
    ensures |Cells(Merged(t, x))| <= |Cells(t)|
  {
    MergedSize(t, x);
    MergedSize(t, y);
    assert |Sends(t, Cells(t), y)| <= |Sends(t, Cells(t), x)|;
  }

  /** One first key's table and its compressed form. */
  ghost predicate FirstStage(t: FirstTable, u: FirstTable) {
    || (u == t && forall x :: Sends(t, Cells(t), x) == {})
    || exists x :: MostFrequent(t, x) && u == Merged(t, x)
  }

  /** Whatever output was chosen, every stored entry still sends where it did, and there are
      no more entries than before. */
  lemma FirstStageKeeps(t: FirstTable, u: FirstTable, b: Key, c: Key)
    requires PlainFirst(t) && FirstStage(t, u) && (b, c) in Cells(t)
    ensures OutputOf(ComSubEntry(u, b, c)) == OutputOf(Some(t[b][c]))
    ensures |Cells(u)| <= |Cells(t)|
  {
    if u != t {
      var x :| MostFrequent(t, x) && u == Merged(t, x);
      MergedForwards(t, x, b, c);
      MergedIsSmallest(t, x, x);
    }
  }

  /** Compressing every first key of a switch's table. */
  method CompressFirstStage(t: SwitchTable) returns (out: SwitchTable)
    ensures out.Keys == t.Keys
    ensures forall a | a in t :: FirstStage(t[a], out[a])
  {
    out := t;
    var todo := t.Keys;
    while todo != {}
      invariant todo <= t.Keys && out.Keys == t.Keys
      invariant forall a | a in todo :: out[a] == t[a]
      invariant forall a | a in t && a !in todo :: FirstStage(t[a], out[a])
      decreases |todo|
    {
      var a :| a in todo;
      todo := todo - {a};
      var outputNodeID := FindFirstKeyTableTheMostFrequentOutput(out[a]);
      var merged := MergeEntry4FirstStage(out[a], outputNodeID);
      out := out[a := merged];
    }
  }
}
