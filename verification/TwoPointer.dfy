/**
 The shipped two-pointer programs (optimized/MaxArea.java, optimized/SortedTwoSum.java) and the
 nested-loop baseline one of them replaces (baseline/MaxArea.java).
 */
module TwoPointer {
  import opened Common

  // ---------------------------------------------------------------- largest container

  function Area(h: seq<int>, i: int, j: int): int
    requires 0 <= i < j < |h|
  {
    Min(h[i], h[j]) * (j - i)
  }

  predicate Nonnegative(h: seq<int>) {
    forall i | 0 <= i < |h| :: h[i] >= 0
  }

  /** `best` is the largest area over all pairs. */
  ghost predicate IsMaxArea(h: seq<int>, best: int) {
    && (forall i, j | 0 <= i < j < |h| :: Area(h, i, j) <= best)
    && exists i, j | 0 <= i < j < |h| :: Area(h, i, j) == best
  }

  lemma MaxAreaUnique(h: seq<int>, a: int, b: int)
    requires IsMaxArea(h, a) && IsMaxArea(h, b)
    ensures a == b
  {
    var i, j :| 0 <= i < j < |h| && Area(h, i, j) == a;
    var k, l :| 0 <= k < l < |h| && Area(h, k, l) == b;
    assert Area(h, k, l) <= a && Area(h, i, j) <= b;
  }

  /** Best so far: an upper bound on what was seen, and an area that was seen once anything was. */
  ghost predicate Attained(h: seq<int>, best: int) {
    exists i, j | 0 <= i < j < |h| :: Area(h, i, j) == best
  }

  lemma AreaNonnegative(h: seq<int>, i: int, j: int)
    requires Nonnegative(h) && 0 <= i < j < |h|
    ensures Area(h, i, j) >= 0
  {
    assert Min(h[i], h[j]) >= 0;
    ProductMonotone(0, Min(h[i], h[j]), 0, j - i);
  }

  lemma ProductMonotone(a: int, b: int, x: int, y: int)
    requires 0 <= a <= b && 0 <= x <= y
    ensures a * x <= b * y
  {
    assert b * y - a * x == (b - a) * y + a * (y - x);
    assert (b - a) * y >= 0 && a * (y - x) >= 0;
  }

  method BaselineMaxArea(height: array<int>) returns (best: int)
    requires height.Length >= 2 && Nonnegative(height[..])
    ensures IsMaxArea(height[..], best)
  {
    ghost var h := height[..];
    best := 0;
    for i := 0 to height.Length
      invariant 0 <= best && (i == 0 ==> best == 0)
      invariant forall k, l | 0 <= k < i && k < l < |h| :: Area(h, k, l) <= best
      invariant i > 0 ==> best == 0 || Attained(h, best)
    {
      for j := i + 1 to height.Length
        invariant 0 <= best
        invariant forall k, l | 0 <= k < i && k < l < |h| :: Area(h, k, l) <= best
        invariant forall l | i < l < j :: Area(h, i, l) <= best
        invariant best == 0 || Attained(h, best)
      {
        var low := if height[i] <= height[j] then height[i] else height[j];
        var area := low * (j - i);
        assert area == Area(h, i, j);
        if area > best {
          best := area;
        }
      }
    }
    AreaNonnegative(h, 0, 1);
    assert Area(h, 0, 1) <= best;
  }

  method OptimizedMaxArea(height: array<int>) returns (best: int)
    requires height.Length >= 2 && Nonnegative(height[..])
    ensures IsMaxArea(height[..], best)
  {
    ghost var h := height[..];
    var left, right := 0, height.Length - 1;
    best := 0;
    while left < right
      invariant 0 <= left <= right < |h|
      invariant 0 <= best
      invariant best == 0 || Attained(h, best)
      invariant forall i, j | 0 <= i < j < |h| && (i < left || j > right) :: Area(h, i, j) <= best
      decreases right - left
    {
      var low := if height[left] <= height[right] then height[left] else height[right];
      var area := low * (right - left);
      assert area == Area(h, left, right);
      if area > best {
        best := area;
      }
      if height[left] <= height[right] {
        forall j | left < j <= right ensures Area(h, left, j) <= Area(h, left, right) {
          NarrowerLeft(h, left, j, right);
        }
        left := left + 1;
      } else {
        forall i | left <= i < right ensures Area(h, i, right) <= Area(h, left, right) {
          NarrowerRight(h, left, i, right);
        }
        right := right - 1;
      }
    }
    AreaNonnegative(h, 0, 1);
    assert Area(h, 0, 1) <= best;
  }

  /** With the lower wall on the left, no nearer right wall gives more. */
  lemma NarrowerLeft(h: seq<int>, left: int, j: int, right: int)
    requires Nonnegative(h) && 0 <= left < j <= right < |h| && h[left] <= h[right]
    ensures Area(h, left, j) <= Area(h, left, right)
  {
    ProductMonotone(Min(h[left], h[j]), h[left], j - left, right - left);
  }

  lemma NarrowerRight(h: seq<int>, left: int, i: int, right: int)
    requires Nonnegative(h) && 0 <= left <= i < right < |h| && h[left] > h[right]
    ensures Area(h, i, right) <= Area(h, left, right)
  {
    ProductMonotone(Min(h[i], h[right]), h[right], right - i, right - left);
  }

  /** The fast form computes what the baseline computes, on every input the contract admits. */
  method FastEqualsBaseline(height: array<int>) returns (fast: int, slow: int)
    requires height.Length >= 2 && Nonnegative(height[..])
    ensures fast == slow
  {
    fast := OptimizedMaxArea(height);
    slow := BaselineMaxArea(height);
    MaxAreaUnique(height[..], fast, slow);
  }

  /** Within the shipped precondition every area, and so every intermediate value, fits an int. */
  lemma AreasFit(h: seq<int>, i: int, j: int)
    requires |h| <= 1000 && 0 <= i < j < |h|
    requires forall k | 0 <= k < |h| :: 0 <= h[k] <= 10000
    ensures 0 <= Area(h, i, j) <= 10000 * 1000 < 0x8000_0000
  {
    AreaNonnegative(h, i, j);
    ProductMonotone(Min(h[i], h[j]), 10000, j - i, 1000);
  }

  // ---------------------------------------------------------------- sorted two-sum

  predicate Sorted(a: seq<int>) {
    forall i | 0 <= i < |a| - 1 :: a[i] <= a[i + 1]
  }

  lemma {:induction false} SortedPairs(a: seq<int>, i: int, j: int)
    requires Sorted(a) && 0 <= i <= j < |a|
    ensures a[i] <= a[j]
    decreases j - i
  {
    if i < j {
      SortedPairs(a, i, j - 1);
      assert a[j - 1] <= a[j - 1 + 1];
    }
  }

  predicate SumsTo(a: seq<int>, target: int, i: int, j: int) {
    0 <= i < j < |a| && a[i] + a[j] == target
  }

  /** A pair is returned whenever one exists, and (-1, -1) exactly when none does. */
  method TwoSum(nums: array<int>, target: int) returns (i: int, j: int)
    requires Sorted(nums[..])
    ensures SumsTo(nums[..], target, i, j) || (i == -1 && j == -1)
    ensures i == -1 <==> !exists p, q :: SumsTo(nums[..], target, p, q)
  {
    ghost var a := nums[..];
    var left, right := 0, nums.Length - 1;
    while left < right
      invariant 0 <= left <= right + 1 <= nums.Length
      invariant forall p, q | SumsTo(a, target, p, q) :: left <= p && q <= right
      decreases right - left
    {
      var sum := nums[left] + nums[right];
      if sum == target {
        assert SumsTo(a, target, left, right);
        return left, right;
      } else if sum < target {
        forall p, q | SumsTo(a, target, p, q) ensures left + 1 <= p {
          SortedPairs(a, q, right);
        }
        left := left + 1;
      } else {
        forall p, q | SumsTo(a, target, p, q) ensures q <= right - 1 {
          SortedPairs(a, left, p);
        }
        right := right - 1;
      }
    }
    return -1, -1;
  }
}
