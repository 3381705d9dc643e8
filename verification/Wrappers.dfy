module Wrappers {
  datatype Option<+T> = None | Some(value: T)

  datatype Result<+T, +E> = Ok(value: T) | Err(error: E)

  /** Three-valued request field: not submitted, submitted as null, submitted with a value. */
  datatype Patch<+T> = Absent | Clear | Set(value: T)

  predicate Distinct<T(==)>(s: seq<T>) {
    forall i, j :: 0 <= i < j < |s| ==> s[i] != s[j]
  }

  /** `s` lists every member of `t` exactly once, in some order. */
  predicate Enumerates<T(==)>(s: seq<T>, t: set<T>) {
    Distinct(s) && (forall x :: x in t ==> x in s) && (forall i :: 0 <= i < |s| ==> s[i] in t)
  }
}
