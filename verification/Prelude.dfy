/** What several of the models share. */
module Prelude {

  datatype Option<+T> = None | Some(value: T)

  lemma AppendIsAssociative<T>(a: seq<T>, b: seq<T>, c: seq<T>)
    ensures a + b + c == a + (b + c)
  {
  }
}
