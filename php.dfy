/** The PHP semantics the request handlers depend on. */
module Php {
  import opened Wrappers

  /** `empty()` on a request string: null, "" and "0" are all empty. */
  predicate Empty(s: Option<string>) {
    s.None? || s.value == "" || s.value == "0"
  }

  /** `empty()` on the result of FILTER_VALIDATE_INT: false/null (None) and 0 are empty. */
  predicate EmptyInt(n: Option<int>) {
    n.None? || n.value == 0
  }
}
