/** Shared vocabulary: optional values, octets, and searching in sequences. */
module Base {

  /** A value that may be absent, as Python's `None` marks it. */
  datatype Option<+T> = None | Some(value: T) {
    function GetOr(default: T): T {
      match this
      case Some(v) => v
      case None => default
    }
  }

  /** Python truthiness of an optional string, such as an XML attribute
      read with `.get`: present and non-empty. */
  predicate Truthy(v: Option<string>) {
    v.Some? && v.value != ""
  }

  /** A value, or the error that prevented it. */
  datatype Result<+T, +E> = Ok(value: T) | Err(error: E)

  /** No element occurs twice. */
  predicate Distinct<T(==)>(s: seq<T>) {
    forall i, j :: 0 <= i < j < |s| ==> s[i] != s[j]
  }

  /** One octet of a TCP stream. */
  newtype byte = x: int | 0 <= x < 0x100

  type Bytes = seq<byte>

  /** `pat` occurs in `s` starting at index `i`. */
  predicate OccursAt<T(==)>(s: seq<T>, pat: seq<T>, i: nat) {
    i + |pat| <= |s| && s[i..i + |pat|] == pat
  }

  /** The first index at or after `from` where `pat` occurs in `s`. */
  function FindFrom<T(==)>(s: seq<T>, pat: seq<T>, from: nat): (r: Option<nat>)
    ensures r.Some? ==> from <= r.value && OccursAt(s, pat, r.value)
    ensures r.Some? ==> forall j: nat :: from <= j < r.value ==> !OccursAt(s, pat, j)
    ensures r.None? ==> forall j: nat :: from <= j ==> !OccursAt(s, pat, j)
    decreases |s| - from
  {
    if from + |pat| > |s| then None
    else if OccursAt(s, pat, from) then Some(from)
    else FindFrom(s, pat, from + 1)
  }

  /** The first index where `pat` occurs in `s`, as Python's `bytes.find`
      (with `None` for its -1); `Find(s, pat).Some?` is `pat in s`. */
  function Find<T(==)>(s: seq<T>, pat: seq<T>): (r: Option<nat>)
    ensures r.Some? ==> OccursAt(s, pat, r.value)
    ensures r.Some? ==> forall j: nat :: j < r.value ==> !OccursAt(s, pat, j)
    ensures r.None? ==> forall j: nat :: !OccursAt(s, pat, j)
  {
    FindFrom(s, pat, 0)
  }

  /** An occurrence with no earlier occurrence is what `Find` returns. */
  lemma FindIs<T>(s: seq<T>, pat: seq<T>, i: nat)
    requires OccursAt(s, pat, i)
    requires forall j: nat :: j < i ==> !OccursAt(s, pat, j)
    ensures Find(s, pat) == Some(i)
  {
  }

  /** An occurrence inside a prefix is an occurrence in the whole sequence, and back. */
  lemma OccursInPrefix<T>(s: seq<T>, n: nat, pat: seq<T>, j: nat)
    requires n <= |s| && j + |pat| <= n
    ensures OccursAt(s[..n], pat, j) <==> OccursAt(s, pat, j)
  {
    assert s[..n][j..j + |pat|] == s[j..j + |pat|];
  }

  /** An occurrence inside a suffix is an occurrence in the whole sequence, shifted. */
  lemma OccursInSuffix<T>(s: seq<T>, m: nat, pat: seq<T>, j: nat)
    requires m <= |s|
    ensures OccursAt(s[m..], pat, j) <==> OccursAt(s, pat, m + j)
  {
    if j + |pat| <= |s| - m {
      assert s[m..][j..j + |pat|] == s[m + j..m + j + |pat|];
    }
  }

  /** Regrouping a concatenation, kept separate so that proofs about long
      sequences do not have to rediscover it. */
  lemma Regroup<T>(a: seq<T>, b: seq<T>, c: seq<T>)
    ensures a + (b + c) == (a + b) + c
  {
  }

  /** The concatenation of a sequence of sequences. */
  function Concat<T>(ss: seq<seq<T>>): seq<T> {
    if ss == [] then [] else ss[0] + Concat(ss[1..])
  }

  lemma ConcatCons<T>(p: seq<T>, ps: seq<seq<T>>)
    ensures Concat([p] + ps) == p + Concat(ps)
  {
    assert ([p] + ps)[1..] == ps;
  }

  /** `sep.join(parts)`: the parts with one separator between neighbours. */
  function Join<T>(sep: seq<T>, parts: seq<seq<T>>): seq<T> {
    if parts == [] then []
    else if |parts| == 1 then parts[0]
    else parts[0] + sep + Join(sep, parts[1..])
  }

  function Min(a: int, b: int): int {
    if a <= b then a else b
  }
}
