/** Values that may be missing, and picking from a set. */
module Options {
  datatype Option<+T> = None | Some(value: T)

  /** Any element: the order in which a map is walked is not fixed. */
  method Pick<T>(s: set<T>) returns (x: T)
    requires s != {}
    ensures x in s
  {
    x :| x in s;
  }
}
