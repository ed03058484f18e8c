/** Shared vocabulary: optional values, results, and substring search.
    A Go string is a sequence of bytes; here every `char` stands for one byte. */
module Basics {

  datatype Option<+T> = None | Some(value: T)

  datatype Result<+T, +E> = Ok(value: T) | Err(error: E)

  /** `sub` occurs in `s` at position `i` (`strings.HasPrefix` of a suffix). */
  predicate OccursAt(s: string, sub: string, i: int) {
    0 <= i <= |s| - |sub| && s[i..i + |sub|] == sub
  }

  /** `strings.Contains` */
  predicate Contains(s: string, sub: string) {
    exists i :: 0 <= i <= |s| - |sub| && OccursAt(s, sub, i)
  }
}
