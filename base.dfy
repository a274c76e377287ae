/** Shared vocabulary: optional values, JavaScript truthiness of strings,
    prefixes, duplicate-free sequences and ASCII lower-casing. */
module Base {

  /** A JavaScript value that may be `null`/`undefined`. */
  datatype Option<+T> = None | Some(value: T)

  /** JavaScript truthiness of an optional string: a missing value and the
      empty string are both falsy. */
  predicate Truthy(s: Option<string>)
  {
    s.Some? && s.value != ""
  }

  /** `s.startsWith(prefix)` */
  predicate HasPrefix(prefix: string, s: string)
  {
    |prefix| <= |s| && s[..|prefix|] == prefix
  }

  predicate NoDuplicates<T(==)>(s: seq<T>)
  {
    forall i, j :: 0 <= i < j < |s| ==> s[i] != s[j]
  }

  /** The elements of a sequence, as a set. */
  function Elements<T>(s: seq<T>): set<T>
  {
    set x | x in s
  }

  function LowerChar(c: char): char
  {
    if 'A' <= c <= 'Z' then (c as int + 32) as char else c
  }

  /** `s.toLowerCase()`, restricted to the ASCII letters. */
  function Lower(s: string): string
  {
    seq(|s|, i requires 0 <= i < |s| => LowerChar(s[i]))
  }
}
