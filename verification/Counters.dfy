/** Counting how often something occurs. */
module Counters {
  import opened Sets

  /** A key with the greatest count; the source leaves open which. */
  method MaxKey(counter: map<int, nat>) returns (best: int)
    requires counter != map[]
    ensures best in counter && forall y | y in counter :: counter[y] <= counter[best]
  {
    ghost var some := Member(counter.Keys);
    best :| best in counter;
    var todo := counter.Keys - {best};
    while todo != {}
      invariant best in counter && todo <= counter.Keys
      invariant forall y | y in counter && y !in todo :: counter[y] <= counter[best]
      decreases |todo|
    {
      some := Member(todo);
      var y :| y in todo;
      if counter[y] > counter[best] {
        best := y;
      }
      todo := todo - {y};
    }
  }
}
