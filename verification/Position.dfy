/**
 Exact arithmetic behind the resampler's cursor: the distance covered in a number
 of steps, whole frames below a rational position, and positions folded into one
 pass over the sound.
 */
module Position {
  /** Distance covered by `j` additions of `step`. */
  function Travel(step: real, j: nat): (x: real)
    ensures step >= 0.0 ==> x >= 0.0
  {
    if j == 0 then 0.0 else Travel(step, j - 1) + step
  }

  /** `pos % total` for a non-negative cursor: whole passes are taken off. */
  function Wrap(pos: real, total: nat): (r: real)
    requires total > 0 && pos >= 0.0
    ensures 0.0 <= r < total as real
    decreases pos.Floor
  {
    if pos < total as real then pos else Wrap(pos - total as real, total)
  }

  /** `n / d` rounded up. */
  function CeilDiv(n: nat, d: nat): nat
    requires d > 0
  {
    (n + d - 1) / d
  }

  lemma {:induction false} TravelAdds(step: real, a: nat, b: nat)
    ensures Travel(step, a + b) == Travel(step, a) + Travel(step, b)
  {
    if b > 0 {
      TravelAdds(step, a, b - 1);
    }
  }

  /** Folding early changes nothing: this is why repeated playback does not drift. */
  lemma {:induction false} WrapAdd(pos: real, step: real, total: nat)
    requires total > 0 && pos >= 0.0 && step >= 0.0
    ensures Wrap(Wrap(pos, total) + step, total) == Wrap(pos + step, total)
    decreases pos.Floor
  {
    if pos >= total as real {
      WrapAdd(pos - total as real, step, total);
    }
  }

  lemma QuotientSplits(a: real, b: real, d: real)
    requires d > 0.0
    ensures (a * d + b) / d == a + b / d
  {
  }

  lemma QuotientLt(r: real, d: real, t: real)
    requires d > 0.0 && 0.0 <= r < t * d
    ensures 0.0 <= r / d < t
  {
  }

  lemma QuotientGe(r: real, d: real, t: real)
    requires d > 0.0 && r >= t * d
    ensures r / d >= t
  {
  }

  /** Floor of an exact quotient is integer division. */
  lemma FloorOfQuotient(n: nat, d: nat)
    requires d > 0
    ensures (n as real / d as real).Floor == n / d
  {
    var q, r := n / d, n % d;
    assert n as real == q as real * d as real + r as real;
    QuotientSplits(q as real, r as real, d as real);
    QuotientLt(r as real, d as real, 1.0);
    assert q as real <= n as real / d as real < (q + 1) as real;
  }

  /** A rational position is below a whole one exactly when the numerators say so. */
  lemma QuotientBelow(n: nat, d: nat, total: nat)
    requires d > 0
    ensures n as real / d as real < total as real <==> n < total * d
  {
  }

  lemma ModuloPeels(n: nat, m: nat)
    requires 0 < m <= n
    ensures n % m == (n - m) % m
  {
    var q, r := (n - m) / m, (n - m) % m;
    assert n == (q + 1) * m + r;
    RemainderUnique(n, m, q + 1, r);
  }

  lemma RemainderUnique(n: nat, m: nat, q: int, r: nat)
    requires m > 0 && r < m && n == q * m + r
    ensures n / m == q && n % m == r
  {
    var k := n / m - q;
    assert k * m == r - n % m;
    assert k >= 1 ==> k * m >= m;
    assert k <= -1 ==> k * m <= -1 * m;
  }

  lemma QuotientSub(a: real, b: real, d: real)
    requires d > 0.0
    ensures (a - b) / d == a / d - b / d
    ensures a < b <==> a / d < b / d
  {
  }

  lemma {:induction false} WrapPeels(n: nat, m: nat, d: nat, total: nat)
    requires d > 0 && total > 0 && m > 0 && m as real / d as real == total as real
    ensures n as real / d as real >= 0.0
    ensures Wrap(n as real / d as real, total) == (n % m) as real / d as real
  {
    QuotientSub(n as real, m as real, d as real);
    if n >= m {
      ModuloPeels(n, m);
      WrapPeels(n - m, m, d, total);
    } else {
      RemainderUnique(n, m, 0, n);
    }
  }

  /** A folded rational position, on integers alone. */
  lemma WrapOfQuotient(n: nat, d: nat, total: nat)
    requires d > 0 && total > 0
    ensures total * d > 0 && n as real / d as real >= 0.0
    ensures Wrap(n as real / d as real, total) == (n % (total * d)) as real / d as real
  {
    var m := total * d;
    assert m > 0;
    assert m as real == total as real * d as real;
    QuotientSplits(total as real, 0.0, d as real);
    WrapPeels(n, m, d, total);
  }

  /** `k` steps of `num` stay below `limit` exactly for the first `ceil(limit / num)` values of `k`. */
  lemma BelowIffBeforeCeil(k: nat, num: nat, limit: nat)
    requires num > 0
    ensures k * num < limit <==> k < CeilDiv(limit, num)
  {
    var c := CeilDiv(limit, num);
    var s := limit + num - 1;
    assert c * num <= s < c * num + num by {
      assert s == (s / num) * num + s % num;
    }
    if k < c {
      assert k * num <= (c - 1) * num == c * num - num;
    } else {
      assert k * num >= c * num;
    }
  }

  /** `k` steps of `num / den` cover `k * num / den`. */
  lemma {:induction false} TravelOfQuotient(num: nat, den: nat, k: nat)
    requires den > 0
    ensures Travel(num as real / den as real, k) == (k * num) as real / den as real
  {
    if k > 0 {
      TravelOfQuotient(num, den, k - 1);
      assert k * num == (k - 1) * num + num;
      QuotientSub((k * num) as real, num as real, den as real);
    }
  }

  lemma IndexBelow(n: nat, den: nat, total: nat)
    requires den > 0 && n < total * den
    ensures n / den < total
  {
  }

  /** Interleaved sample `c` of frame `f` lies inside `total` frames of `ch` channels. */
  lemma InterleavedBelow(f: nat, ch: nat, c: nat, total: nat)
    requires f < total && c < ch
    ensures f * ch + c < total * ch
  {
    assert f * ch + ch == (f + 1) * ch;
    assert (f + 1) * ch <= total * ch;
  }

  lemma Reassemble(i: nat, ch: nat)
    requires ch > 0
    ensures (i / ch) * ch + i % ch % ch == i
  {
    RemainderUnique(i % ch, ch, 0, i % ch);
  }
}
