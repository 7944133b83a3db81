// Shared value types: an optional value, a 2-D vector over reals and a
// few real-valued helpers used by several modules.
module Common {

  datatype Option<T> = None | Some(value: T)

  /** `Option::unwrap_or`. */
  function GetOr<T>(o: Option<T>, d: T): T {
    if o.Some? then o.value else d
  }

  /** A 2-D vector; the source's f32 components are modelled as reals. */
  datatype Vec2 = Vec2(x: real, y: real)

  const Zero: Vec2 := Vec2(0.0, 0.0)

  function Add(a: Vec2, b: Vec2): Vec2 { Vec2(a.x + b.x, a.y + b.y) }

  function Scale(a: Vec2, k: real): Vec2 { Vec2(a.x * k, a.y * k) }

  function Sub(a: Vec2, b: Vec2): Vec2 { Vec2(a.x - b.x, a.y - b.y) }

  /** Squared Euclidean distance, used in place of `distance` so that no square root is needed. */
  function DistSq(a: Vec2, b: Vec2): real {
    (a.x - b.x) * (a.x - b.x) + (a.y - b.y) * (a.y - b.y)
  }

  function MinR(a: real, b: real): real { if a <= b then a else b }

  function MaxR(a: real, b: real): real { if a >= b then a else b }

  /** A float-to-integer `as` cast: rounds toward zero (saturation at the integer width is not modelled). */
  function Trunc(r: real): (n: int)
    ensures 0.0 <= r ==> 0 <= n && n as real <= r < n as real + 1.0
    ensures r < 0.0 ==> n <= 0 && n as real - 1.0 < r <= n as real
  {
    if r >= 0.0 then r.Floor else -((-r).Floor)
  }

  function Sum(s: seq<real>): real {
    if s == [] then 0.0 else s[0] + Sum(s[1..])
  }

  /** Replacing one element changes the sum by the difference. */
  lemma {:induction false} SumUpdate(s: seq<real>, i: nat, v: real)
    requires i < |s|
    ensures Sum(s[i := v]) == Sum(s) - s[i] + v
  {
    if i == 0 {
      assert s[i := v][1..] == s[1..];
    } else {
      assert s[i := v][1..] == s[1..][i - 1 := v];
      SumUpdate(s[1..], i - 1, v);
    }
  }

  /** Appending a value adds it to the sum. */
  lemma {:induction false} SumSnoc(s: seq<real>, v: real)
    ensures Sum(s + [v]) == Sum(s) + v
  {
    if s != [] {
      assert (s + [v])[1..] == s[1..] + [v];
      SumSnoc(s[1..], v);
    }
  }

  /** Values all within [lo, hi] sum to between |s|·lo and |s|·hi. */
  lemma {:induction false} SumBounds(s: seq<real>, lo: real, hi: real)
    requires forall k :: 0 <= k < |s| ==> lo <= s[k] <= hi
    ensures |s| as real * lo <= Sum(s) <= |s| as real * hi
  {
    if s != [] {
      SumBounds(s[1..], lo, hi);
    }
  }

  /** The mean of a sample list, 0 when there are no samples. */
  function Mean(s: seq<real>): (r: real)
    ensures s == [] ==> r == 0.0
    ensures s != [] ==> r * |s| as real == Sum(s)
  {
    if s == [] then 0.0 else Sum(s) / |s| as real
  }

  /** The mean of samples all within [lo, hi] lies within [lo, hi]. */
  lemma MeanWithin(s: seq<real>, lo: real, hi: real)
    requires s != [] && forall k :: 0 <= k < |s| ==> lo <= s[k] <= hi
    ensures lo <= Mean(s) <= hi
  {
    SumBounds(s, lo, hi);
  }

  /** A sequence of zeros sums to zero. */
  lemma {:induction false} SumZeros(n: nat)
    ensures Sum(seq(n, _ => 0.0)) == 0.0
  {
    if n > 0 {
      assert seq(n, _ => 0.0)[1..] == seq(n - 1, _ => 0.0);
      SumZeros(n - 1);
    }
  }

  function Count<T(==)>(s: seq<T>, x: T): nat {
    if s == [] then 0 else (if s[0] == x then 1 else 0) + Count(s[1..], x)
  }

  /** Replacing one element changes the count of x by at most the two occurrences involved. */
  lemma {:induction false} CountUpdate<T>(s: seq<T>, i: nat, v: T, x: T)
    requires i < |s|
    ensures Count(s[i := v], x) == Count(s, x) - (if s[i] == x then 1 else 0) + (if v == x then 1 else 0)
  {
    if i == 0 {
      assert s[i := v][1..] == s[1..];
    } else {
      assert s[i := v][1..] == s[1..][i - 1 := v];
      CountUpdate(s[1..], i - 1, v, x);
    }
  }

  /** Appending one element adds one to its own count and nothing to the others'. */
  lemma {:induction false} CountSnoc<T>(s: seq<T>, v: T, x: T)
    ensures Count(s + [v], x) == Count(s, x) + (if v == x then 1 else 0)
  {
    if s != [] {
      assert (s + [v])[1..] == s[1..] + [v];
      CountSnoc(s[1..], v, x);
    }
  }

  /** The count of x is its multiplicity in the multiset of the elements. */
  lemma {:induction false} CountMultiset<T>(s: seq<T>, x: T)
    ensures Count(s, x) == multiset(s)[x]
  {
    if s != [] {
      assert s == [s[0]] + s[1..];
      CountMultiset(s[1..], x);
    }
  }

  lemma ConcatAssoc<T>(a: seq<T>, b: seq<T>, c: seq<T>)
    ensures (a + b) + c == a + (b + c)
  {
  }

  lemma SplitJoin<T>(s: seq<T>, k: nat)
    requires k <= |s|
    ensures s[..k] + s[k..] == s
  {
  }

  /** Clamp one coordinate into [0, bound) and bounce its velocity at half speed. */
  function Bounce(c: real, v: real, bound: real): (real, real) {
    if c < 0.0 then (0.0, v * -0.5) else if c >= bound then (bound - 1.0, v * -0.5) else (c, v)
  }

  /** `f32::round`: to the nearest integer, halves away from zero. */
  function Round(r: real): (n: int)
    ensures n as real - 0.5 <= r <= n as real + 0.5
  {
    if r >= 0.0 then (r + 0.5).Floor else -((-r + 0.5).Floor)
  }

  /** A float-to-usize `as` cast of an integral value: negative values saturate to 0. */
  function ToUsize(n: int): nat {
    if n < 0 then 0 else n
  }

  /** `push_back` followed by one `pop_front` when the length exceeds cap: a bounded history. */
  function PushBounded<T>(s: seq<T>, x: T, cap: nat): seq<T> {
    if |s| + 1 > cap then (s + [x])[1..] else s + [x]
  }

  /** A bounded push keeps the history within its cap, ends with the newest entry (unless the cap is 0), and drops only the oldest. */
  lemma PushBoundedKeeps<T>(s: seq<T>, x: T, cap: nat)
    requires |s| <= cap
    ensures |PushBounded(s, x, cap)| <= cap
    ensures cap > 0 ==> |PushBounded(s, x, cap)| == |s| + 1 - (if |s| == cap then 1 else 0)
    ensures cap > 0 ==> PushBounded(s, x, cap)[|PushBounded(s, x, cap)| - 1] == x
    ensures PushBounded(s, x, cap) == (s + [x])[|s| + 1 - |PushBounded(s, x, cap)|..]
  {
  }
}
