/** What the modules of this project share: options, and picking an element of a set. */
module Wrappers {
  datatype Option<+T> = None | Some(value: T)

  /** Some element: the order in which Python iterates a set or a dictionary is not relied on. */
  method Choose<T>(s: set<T>) returns (t: T)
    requires s != {}
    ensures t in s
  {
    t :| t in s;
  }
}
