/** Types and facts shared by the other modules. */
module Prelude {

  datatype Option<T> = None | Some(value: T)

  lemma Assoc<T>(a: seq<T>, b: seq<T>, c: seq<T>)
    ensures a + b + c == a + (b + c)
  {
  }

  lemma CancelHead<T>(m: T, x: seq<T>, y: seq<T>)
    requires [m] + x == [m] + y
    ensures x == y
  {
    assert x == ([m] + x)[1..] && y == ([m] + y)[1..];
  }
}
