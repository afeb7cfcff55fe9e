/** A value that may be missing: the model's stand-in for a pandas NaN / NA / None cell. */
module Optional {

  datatype Option<+T> = None | Some(value: T)

  /** Applies `f` to a present value; a missing value stays missing. */
  function MapOption<T, U>(o: Option<T>, f: T -> U): (r: Option<U>)
    ensures r.Some? <==> o.Some?
    ensures o.Some? ==> r.value == f(o.value)
  {
    match o
    case None => None
    case Some(v) => Some(f(v))
  }
}
