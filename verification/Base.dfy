/** Values shared by every part of the model: options, bytes and the
    saturating 64-bit counters of the registry. */
module Base {

  datatype Option<+T> = None | Some(value: T)

  newtype byte = x: int | 0 <= x < 256

  type Bytes = seq<byte>

  /** A repository name is identified with its list of path components, which is
      what a normalised name `a/b/c` becomes once it is joined to the cache root. */
  type Repo = seq<string>

  const U64_MAX: nat := 0xFFFF_FFFF_FFFF_FFFF

  function Saturate(n: nat): nat {
    if n <= U64_MAX then n else U64_MAX
  }

  function SaturatingAdd(a: nat, b: nat): nat {
    Saturate(a + b)
  }

  function Min(a: nat, b: nat): nat {
    if a <= b then a else b
  }

  lemma PopPush<T>(s: seq<T>)
    requires s != []
    ensures s == s[..|s| - 1] + [s[|s| - 1]]
  {
  }

  predicate NoDuplicates<T(==)>(s: seq<T>) {
    forall i, j :: 0 <= i < j < |s| ==> s[i] != s[j]
  }

}
