/** The names of multi-layer graph nodes, such as "12_Layer3", and how they are read back. */
module NodeNames {
  import opened Tries

  function DigitChar(d: nat): char
    requires d < 10
  {
    '0' + d as char
  }

  function Digits(n: nat): string {
    if n < 10 then [DigitChar(n)] else Digits(n / 10) + [DigitChar(n % 10)]
  }

  /** Python's `str` of a whole number. */
  function Str(n: int): string {
    if n < 0 then "-" + Digits(-n) else Digits(n)
  }

  predicate IsDigit(c: char) {
    '0' <= c <= '9'
  }

  predicate AllDigits(s: string) {
    forall i | 0 <= i < |s| :: IsDigit(s[i])
  }

  function Value(s: string): nat
    requires AllDigits(s)
  {
    if s == "" then 0 else 10 * Value(s[..|s| - 1]) + (s[|s| - 1] as nat - '0' as nat)
  }

  /** Python's `int` of a string of digits with an optional sign; `None` where it raises. */
  function IntOf(s: string): Option<int> {
    if |s| > 1 && s[0] == '-' && AllDigits(s[1..]) then Some(-(Value(s[1..]) as int))
    else if |s| > 0 && AllDigits(s) then Some(Value(s))
    else None
  }

  lemma {:induction false} DigitsRead(n: nat)
    ensures |Digits(n)| > 0 && AllDigits(Digits(n))
    ensures Value(Digits(n)) == n
  {
    if n >= 10 {
      DigitsRead(n / 10);
      assert Digits(n)[..|Digits(n)| - 1] == Digits(n / 10);
    }
  }

  /** Writing a number and reading it back gives the number. */
  lemma StrRead(n: int)
    ensures IntOf(Str(n)) == Some(n)
    ensures forall i | 0 <= i < |Str(n)| :: Str(n)[i] != '_'
  {
    DigitsRead(if n < 0 then -n else n);
    if n < 0 {
      assert Str(n)[1..] == Digits(-n);
    } else {
      assert IsDigit(Str(n)[0]);
    }
  }

  // ------------------------------------------------------------ splitting

  predicate StartsAt(s: string, sep: string, j: nat) {
    j + |sep| <= |s| && s[j..j + |sep|] == sep
  }

  /** Where `sep` first starts in the string from `i` on, or the string's length. */
  function Find(s: string, sep: string, i: nat): (k: nat)
    requires i <= |s|
    ensures i <= k <= |s|
    ensures k < |s| ==> StartsAt(s, sep, k)
    ensures forall j | i <= j < k :: !StartsAt(s, sep, j)
    decreases |s| - i
  {
    if i == |s| then |s|
    else if StartsAt(s, sep, i) then i
    else Find(s, sep, i + 1)
  }

  /** Python's `split` with a separator. */
  function Split(s: string, sep: string): seq<string>
    requires sep != ""
  {
    var k := Find(s, sep, 0);
    if k == |s| then [s] else [s[..k]] + Split(s[k + |sep|..], sep)
  }

  lemma StartsChar(s: string, sep: string, j: nat)
    requires sep != "" && StartsAt(s, sep, j)
    ensures s[j] == sep[0]
  {
    assert s[j..j + |sep|][0] == s[j];
  }

  lemma SplitFirst(a: string, b: string, sep: string)
    requires sep != "" && forall i | 0 <= i < |a| :: a[i] != sep[0]
    ensures Split(a + sep + b, sep) == [a] + Split(b, sep)
  {
    var s := a + sep + b;
    assert StartsAt(s, sep, |a|);
    var k := Find(s, sep, 0);
    if k < |a| { StartsChar(s, sep, k); }
    assert s[..k] == a && s[k + |sep|..] == b;
  }

  lemma SplitNone(a: string, sep: string)
    requires sep != "" && forall i | 0 <= i < |a| :: a[i] != sep[0]
    ensures Split(a, sep) == [a]
  {
    var k := Find(a, sep, 0);
    if k < |a| { StartsChar(a, sep, k); }
  }

  function Name(id: int, stage: nat): string {
    Str(id) + "_Layer" + Str(stage)
  }

  function ReadID(name: string): Option<int> {
    IntOf(Split(name, "_")[0])
  }

  function ReadStage(name: string): Option<int> {
    var parts := Split(name, "_Layer");
    if |parts| > 1 then IntOf(parts[1]) else None
  }

  /** A name says which node in which layer it stands for. */
  lemma NameRead(id: int, stage: nat)
    ensures ReadID(Name(id, stage)) == Some(id) && ReadStage(Name(id, stage)) == Some(stage)
  {
    StrRead(id);
    StrRead(stage);
    assert Name(id, stage) == Str(id) + "_" + ("Layer" + Str(stage));
    SplitFirst(Str(id), "Layer" + Str(stage), "_");
    SplitFirst(Str(id), Str(stage), "_Layer");
    SplitNone(Str(stage), "_Layer");
  }
}
