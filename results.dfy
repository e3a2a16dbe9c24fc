/** Optional values and value-or-error results shared by every stage of the pipeline. */
module Results {

  /** Kotlin's nullable reference: absent, or present with a value. */
  datatype Option<+T> = None | Some(value: T)

  /** The outcome of an operation that may raise: a value, or the error it raised. */
  datatype Result<+T, +E> = Success(value: T) | Failure(error: E)
}

/** Facts about sequences that the proofs of the pipeline's loops use. */
module SeqFacts {

  /** Concatenation is associative; a loop that appends to a log regroups its parts with this. */
  lemma AppendAssociative<T>(a: seq<T>, b: seq<T>, c: seq<T>)
    ensures (a + b) + c == a + (b + c)
  {
  }

  /** Dropping the first element of `[x] + s` leaves `s`. */
  lemma DropFirst<T>(x: T, s: seq<T>)
    ensures ([x] + s)[1..] == s
  {
  }
}
