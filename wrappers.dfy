/** Optional values, used for the unset connection type, the missing profile of
    the offline mode and an empty timer slot. */
module Wrappers {

  datatype Option<+T> = None | Some(value: T)

  /** The value of an Option as a sequence of at most one element. */
  function ToSeq<T>(o: Option<T>): (r: seq<T>)
    ensures |r| <= 1
    ensures r == [] <==> o.None?
    ensures o.Some? ==> r == [o.value]
  {
    match o
    case None => []
    case Some(v) => [v]
  }
}
