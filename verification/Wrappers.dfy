/** What several models share: values that may be missing, and Python's white space. */
module Wrappers {
  datatype Option<+T> = None | Some(value: T)

  // The characters that `str.strip`, `str.isspace` and `\s` treat as white space.
  predicate Space(c: char) {
    || '\t' <= c <= '\r' || c == ' ' || '\U{1c}' <= c <= '\U{1f}' || c == '\U{85}' || c == '\U{a0}'
    || c == '\U{1680}' || '\U{2000}' <= c <= '\U{200a}' || c == '\U{2028}' || c == '\U{2029}'
    || c == '\U{202f}' || c == '\U{205f}' || c == '\U{3000}'
  }
}
