/** Small definitions shared by every component of the model. */
module Common {

  datatype Option<+T> = None | Some(value: T)

  /** The members of the library's result enumeration that the modelled code uses. */
  datatype Result =
    | E_OK | E_ERROR | E_MEMORY | E_INTERFACE | E_BUSY | E_IDLE
    | E_DEVICE | E_INVALID | E_TIMEOUT | E_FULL | E_VALUE

  const TWO_31: int := 0x8000_0000
  const TWO_32: int := 0x1_0000_0000

  type u32 = x: int | 0 <= x < TWO_32

  function Min(a: nat, b: nat): nat { if a < b then a else b }

  ghost predicate Distinct<T>(s: seq<T>) {
    forall i, j | 0 <= i < j < |s| :: s[i] != s[j]
  }

  /** A sequence without repetitions is no longer than the set it draws from. */
  lemma {:induction false} DistinctFits<T>(s: seq<T>, pool: set<T>)
    requires Distinct(s)
    requires forall x | x in s :: x in pool
    ensures |s| <= |pool|
  {
    if s == [] {
    } else {
      DistinctFits(s[1..], pool - {s[0]});
    }
  }

  /** Quotient and remainder are unique. */
  lemma DivModUnique(x: int, k: int, q: int, r: int)
    requires 0 < k && x == q * k + r && 0 <= r < k
    ensures x / k == q && x % k == r
  {
    QuotientUnique(q, r, x / k, x % k, k);
  }

  lemma QuotientUnique(q: int, r: int, p: int, s: int, k: int)
    requires 0 <= r < k && 0 <= s < k && q * k + r == p * k + s
    ensures q == p && r == s
  {
    var d := q - p;
    assert d * k == s - r;
    if 0 < d {
      MulMonotone(1, d, k);
    } else if d < 0 {
      MulMonotone(d, -1, k);
    }
  }

  lemma MulMonotone(a: int, b: int, k: int)
    requires a <= b && 0 <= k
    ensures a * k <= b * k
  {
    assert (b - a) * k >= 0;
  }
}
