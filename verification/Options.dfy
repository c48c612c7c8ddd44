/** The optional values and sequence helpers shared by every component. */
module Options {

  datatype Option<+T> = None | Some(value: T)

  datatype Result<+T, +E> = Ok(value: T) | Err(error: E)

  /** Rust's `is_none_or(|v| v == actual)`: an absent expectation accepts anything. */
  predicate Accepts<T(==)>(expected: Option<T>, actual: T) {
    expected.None? || expected.value == actual
  }

  /** As `Accepts`, against a value that may itself be absent. */
  predicate AcceptsSome<T(==)>(expected: Option<T>, actual: Option<T>) {
    expected.None? || actual == expected
  }

  function Filter<T>(keep: T -> bool, s: seq<T>): seq<T> {
    if s == [] then []
    else Filter(keep, s[..|s| - 1]) + (if keep(s[|s| - 1]) then [s[|s| - 1]] else [])
  }

  lemma {:induction false} FilterMembers<T>(keep: T -> bool, s: seq<T>, x: T)
    ensures x in Filter(keep, s) <==> x in s && keep(x)
  {
    if s != [] {
      FilterMembers(keep, s[..|s| - 1], x);
      assert s == s[..|s| - 1] + [s[|s| - 1]];
    }
  }
}
