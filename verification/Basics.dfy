/** Small functions that several parts of the model share. None of them is specific to a part of the
    program: the smaller and the larger of two numbers, which bound reads, budgets and positions, and what
    Python takes for space when it strips or splits a text, which both the report parser and the typed
    addresses depend on. */
module Basics {

  function Smaller(a: int, b: int): int {
    if a <= b then a else b
  }

  function Larger(a: int, b: int): int {
    if a >= b then a else b
  }

  /** What `str.strip` and `str.split` take for space. */
  predicate IsSpace(c: char) {
    '\t' <= c <= '\r' || '\U{001C}' <= c <= ' ' || c == '\U{0085}' || c == '\U{00A0}' || c == '\U{1680}'
    || '\U{2000}' <= c <= '\U{200A}' || c == '\U{2028}' || c == '\U{2029}' || c == '\U{202F}' || c == '\U{205F}'
    || c == '\U{3000}'
  }
}
