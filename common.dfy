/** Small datatypes shared by the loaders and the quiz sessions. */
module Common {

  /** A value that may be absent (Python's None). */
  datatype Option<+T> = None | Some(value: T)

  /** The outcome of an operation that either returns a value or raises an error. */
  datatype Result<+T, +E> = Ok(value: T) | Err(error: E)

  /** What a quiz screen shows: the current question, or the final score out of the total. */
  datatype Screen = Asking(prompt: string, options: map<string, string>) | Complete(finalScore: int, total: int)

  /** Appending an element leaves every prefix of the original unchanged. */
  lemma SnocPrefix<T>(s: seq<T>, x: T, n: nat)
    requires n <= |s|
    ensures (s + [x])[..n] == s[..n]
  {
  }

  /** A prefix one element longer is the shorter prefix followed by that element. */
  lemma PrefixStep<T>(s: seq<T>, i: nat)
    requires i < |s|
    ensures s[..i + 1] == s[..i] + [s[i]]
  {
  }
}
