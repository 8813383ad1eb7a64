/** Eight sums of products kept in registers at the same time. */
module Accumulators {
  import opened Strided

  /** The accumulators tempC0 .. tempC7. */
  datatype Eight = Eight(x0: int, x1: int, x2: int, x3: int, x4: int, x5: int, x6: int, x7: int)

  /** The cells of row j from column i on, to the right (d = 1) or to the left (d = -1). */
  ghost function EightAt(v: View, j: int, i: int, d: int): Eight {
    Eight(v.At(j, i), v.At(j, i + d), v.At(j, i + 2 * d), v.At(j, i + 3 * d),
          v.At(j, i + 4 * d), v.At(j, i + 5 * d), v.At(j, i + 6 * d), v.At(j, i + 7 * d))
  }

  /** Eight sums, started at `init`, over the inner indices lo <= k < hi. */
  ghost function EightAfter(a: View, b: View, j: int, i: int, d: int, init: Eight, lo: int, hi: int): Eight {
    Eight(init.x0 + Dot(a, b, j, i, lo, hi), init.x1 + Dot(a, b, j, i + d, lo, hi),
          init.x2 + Dot(a, b, j, i + 2 * d, lo, hi), init.x3 + Dot(a, b, j, i + 3 * d, lo, hi),
          init.x4 + Dot(a, b, j, i + 4 * d, lo, hi), init.x5 + Dot(a, b, j, i + 5 * d, lo, hi),
          init.x6 + Dot(a, b, j, i + 6 * d, lo, hi), init.x7 + Dot(a, b, j, i + 7 * d, lo, hi))
  }

  lemma EightStart(a: View, b: View, j: int, i: int, d: int, init: Eight, k: int)
    ensures init == EightAfter(a, b, j, i, d, init, k, k)
  {
  }
}
