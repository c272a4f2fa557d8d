/** A fact about sets that loops over them need. */
module Sets {

  /** A set that is not empty has an element to go on with. */
  lemma Member<T>(s: set<T>) returns (x: T)
    requires s != {}
    ensures x in s
  {
    x :| x in s;
  }
}
