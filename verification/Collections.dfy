/** Iteration in no particular order, as Go ranges over maps. */
module Collections {

  method Any<T(==)>(s: set<T>) returns (x: T)
    requires s != {}
    ensures x in s
  {
    x :| x in s;
  }
}
