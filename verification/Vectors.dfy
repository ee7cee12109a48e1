/** Dot products over the reals, shared by the attention kernel and the cache. */
module Vectors {

  function DotUpTo(x: seq<real>, y: seq<real>, n: nat): real
    requires n <= |x| && n <= |y|
  {
    if n == 0 then 0.0 else DotUpTo(x, y, n - 1) + x[n - 1] * y[n - 1]
  }

  /** The shorter vector decides how many products are summed. */
  function Dot(x: seq<real>, y: seq<real>): real { DotUpTo(x, y, if |x| < |y| then |x| else |y|) }

  method DotProduct(x: seq<real>, y: seq<real>) returns (r: real)
    ensures r == Dot(x, y)
  {
    var n := if |x| < |y| then |x| else |y|;
    r := 0.0;
    for i := 0 to n
      invariant r == DotUpTo(x, y, i)
    {
      r := r + x[i] * y[i];
    }
  }
}
