/** Option and Result, the two failure-carrying shapes the loaders return. */
module Wrappers {

  /** `None` stands for a missing value (pandas NaN) or for "no table". */
  datatype Option<+T> = None | Some(value: T)

  datatype Result<+R, +E> = Success(value: R) | Failure(error: E)

  /** Applies `f` under `Some`, leaving `None` alone (pandas string methods keep NaN as NaN). */
  function MapOption<T, U>(o: Option<T>, f: T -> U): (r: Option<U>)
    ensures r.None? <==> o.None?
    ensures o.Some? ==> r.value == f(o.value)
  {
    match o
    case None => None
    case Some(v) => Some(f(v))
  }
}
