/** Types and small functions shared by every part of the model. */
module Common {

  /** One octet of a message, a file or a buffer. */
  type byte = b: int | 0 <= b < 256

  datatype Option<+T> = None | Some(value: T)

  function Min(a: nat, b: nat): nat { if a <= b then a else b }

  /** Position `k` of a circular array of `n` cells, for an index that has gone round at most once. */
  function Wrap(k: nat, n: nat): nat
    requires k < 2 * n
  {
    if k < n then k else k - n
  }

  lemma WrapIsModulo(k: nat, n: nat)
    requires k < 2 * n
    ensures k % n == Wrap(k, n)
  {
    if k >= n {
      assert k % n == (k - n) % n;
    }
  }

  /** The `n` entries of a circular array that start at `from`. */
  function Window<T>(cells: seq<T>, from: nat, n: nat): (window: seq<T>)
    requires n <= |cells| && (from < |cells| || n == 0)
    ensures |window| == n
    ensures forall k :: 0 <= k < n ==> window[k] == cells[Wrap(from + k, |cells|)]
  {
    seq(n, k requires 0 <= k < n => cells[Wrap(from + k, |cells|)])
  }

  /** No value occurs twice. */
  ghost predicate Distinct<T(!new)>(s: seq<T>) {
    forall j, k :: 0 <= j < k < |s| ==> s[j] != s[k]
  }
}
