/** An optional value, the outcome of an operation that can fail, and small helpers shared by the modules. */
module Common {
  datatype Option<+T> = None | Some(value: T)

  datatype Result<+T, +E> = Ok(value: T) | Err(error: E)

  /** No element occurs twice. */
  ghost predicate Distinct<T>(s: seq<T>) {
    forall i, j :: 0 <= i < j < |s| ==> s[i] != s[j]
  }

  function Min(a: int, b: int): int { if a < b then a else b }

  function Max(a: int, b: int): int { if a < b then b else a }

  lemma TimesMonotone(a: int, b: int, c: nat)
    requires a <= b
    ensures a * c <= b * c
  {
  }

  /** Division with remainder has one answer. */
  lemma DivUnique(a: int, d: int, k: int, r: int)
    requires 0 <= r < d && a == k * d + r
    ensures a / d == k && a % d == r
  {
    var q := a / d;
    assert (q + 1) * d == q * d + d && (k + 1) * d == k * d + d;
    if q < k {
      TimesMonotone(q + 1, k, d);
    } else if q > k {
      TimesMonotone(k + 1, q, d);
    }
  }
}
