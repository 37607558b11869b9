/**
  Index arithmetic shared by the two ring buffers of the system (the delay
  engine and the reverb's delay line). Both address a buffer of length `len`
  with Euclidean remainders, so a delay of `d` samples behaves like a delay of
  `EffectiveDelay(d, len)` samples.
 */
module Ring {

  /** The sample a stream `xs` carried at time `n`, with silence before time 0
      (and after its end, which callers never ask for). */
  function Lag(xs: seq<real>, n: int): real
  {
    if 0 <= n < |xs| then xs[n] else 0.0
  }

  /** The delay actually heard for a requested delay `d` in a buffer of `len`
      slots: `d` modulo `len`, except that a multiple of `len` (including 0)
      reads the slot written `len` samples ago. */
  function EffectiveDelay(d: nat, len: nat): (r: nat)
    requires len > 0
    ensures 1 <= r <= len
    ensures (d - r) % len == 0
    ensures 1 <= d <= len ==> r == d
  {
    DivMod(d, len);
    if d % len == 0 then
      ModUnique(d - len, d / len - 1, 0, len);
      ModUnique(len, 1, 0, len);
      len
    else
      ModUnique(d - d % len, d / len, 0, len);
      if d < len then ModUnique(d, 0, d, len); d % len else d % len
  }

  lemma MulAtLeast(m: int, len: int)
    requires len > 0 && m >= 1
    ensures m * len >= len
  {}

  lemma MulAtMost(m: int, len: int)
    requires len > 0 && m <= -1
    ensures m * len <= -len
  {}

  lemma DivMod(a: int, len: int)
    requires len > 0
    ensures a == (a / len) * len + a % len && 0 <= a % len < len
  {}

  /** Euclidean division has exactly one remainder. */
  lemma ModUnique(a: int, q: int, r: int, len: int)
    requires len > 0 && a == q * len + r && 0 <= r < len
    ensures a % len == r
  {
    DivMod(a, len);
    var m := q - a / len;
    assert m * len == a % len - r;
    if m >= 1 { MulAtLeast(m, len); }
    else if m <= -1 { MulAtMost(m, len); }
  }

  /** Two indices less than `len` apart occupy different slots. */
  lemma ModDistinct(a: int, b: int, len: int)
    requires len > 0 && a < b < a + len
    ensures a % len != b % len
  {
    DivMod(a, len);
    DivMod(b, len);
    var m := b / len - a / len;
    if a % len == b % len {
      assert m * len == b - a;
      if m >= 1 { MulAtLeast(m, len); }
      else if m <= -1 { MulAtMost(m, len); }
    }
  }

  /** Moving an index by a multiple of `len` does not change its slot. */
  lemma ModAddMultiple(b: int, q: int, len: int)
    requires len > 0
    ensures (b + q * len) % len == b % len
  {
    DivMod(b, len);
    ModUnique(b + q * len, b / len + q, b % len, len);
  }

  /** Indices that differ by a multiple of `len` occupy the same slot. */
  lemma ModShift(a: int, b: int, len: int)
    requires len > 0 && (a - b) % len == 0
    ensures a % len == b % len
  {
    DivMod(a - b, len);
    ModAddMultiple(b, (a - b) / len, len);
  }

  /** Advancing a reduced index by one and wrapping at `len` is the same as
      reducing the advanced index. */
  lemma ModSucc(t: int, len: int)
    requires len > 0
    ensures (if t % len + 1 == len then 0 else t % len + 1) == (t + 1) % len
  {
    DivMod(t, len);
    if t % len + 1 == len {
      ModUnique(t + 1, t / len + 1, 0, len);
    } else {
      ModUnique(t + 1, t / len, t % len + 1, len);
    }
  }

  /** Reducing the first summand first does not change the slot. */
  lemma ModAddLeft(t: int, d: int, len: int)
    requires len > 0
    ensures (t % len + d) % len == (t + d) % len
  {
    DivMod(t, len);
    ModAddMultiple(t % len + d, t / len, len);
  }

  /** A sum of multiples of `len` is a multiple of `len`. */
  lemma ModSum(a: int, b: int, len: int)
    requires len > 0 && a % len == 0 && b % len == 0
    ensures (a + b) % len == 0 && (a - b) % len == 0
  {
    DivMod(a, len);
    DivMod(b, len);
    ModUnique(a + b, a / len + b / len, 0, len);
    ModUnique(a - b, a / len - b / len, 0, len);
  }
}
