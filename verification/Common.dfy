/** Functions that several modules share. */
module Common {
  function Min(m: nat, n: nat): nat {
    if m < n then m else n
  }

  /** The last `n` elements, or all of them when there are fewer. */
  function Last<T>(n: nat, s: seq<T>): (r: seq<T>)
    ensures |r| == Min(n, |s|)
  {
    if n <= |s| then s[|s| - n..] else s
  }

  /** The sum of the values in `[lo, hi)`. */
  function SumRange(p: seq<real>, lo: nat, hi: nat): real
    requires lo <= hi <= |p|
  {
    if lo == hi then 0.0 else SumRange(p, lo, hi - 1) + p[hi - 1]
  }
}
