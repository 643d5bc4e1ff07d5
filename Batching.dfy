/** The windows of the batch loop in calculateGoogleDistance:
    i = 0, 25, 50, ... below n, each covering [i, min(n, i + 25)). */
module Batching {

  /** The distance-matrix service accepts at most 25 destinations per call. */
  const BatchLimit: nat := 25

  function Min(a: int, b: int): int { if a <= b then a else b }

  /** Windows of the loop once its counter has reached i: each lies in
      [i, n), holds 1 to 25 destinations, and together they run from i to n. */
  function WindowsFrom(i: nat, n: nat): (r: seq<(nat, nat)>)
    ensures r == [] <==> i >= n
    ensures forall w :: w in r ==> i <= w.0 < w.1 <= n && w.1 - w.0 <= BatchLimit
    ensures r != [] ==> r[0].0 == i && r[|r| - 1].1 == n
    decreases n - i
  {
    if i >= n then [] else [(i, Min(n, i + BatchLimit))] + WindowsFrom(i + BatchLimit, n)
  }

  /** Every window the loop visits for n destinations, in order. */
  function Windows(n: nat): seq<(nat, nat)>
  {
    WindowsFrom(0, n)
  }

  /** Number of windows: ceil(n / 25). */
  function WindowCount(n: nat): nat
  {
    (n + BatchLimit - 1) / BatchLimit
  }

  /** Window k starts below n exactly when k < ceil(n / 25). */
  lemma WindowStart(n: nat, k: nat)
    ensures k < WindowCount(n) <==> BatchLimit * k < n
  {
  }

  lemma {:induction false} WindowsFromShape(i: nat, n: nat)
    ensures |WindowsFrom(i, n)| == if i >= n then 0 else WindowCount(n - i)
    ensures forall k :: 0 <= k < |WindowsFrom(i, n)| ==>
              WindowsFrom(i, n)[k] == (i + BatchLimit * k, Min(n, i + BatchLimit * k + BatchLimit))
    decreases n - i
  {
    if i < n {
      WindowsFromShape(i + BatchLimit, n);
      var rest := WindowsFrom(i + BatchLimit, n);
      assert WindowsFrom(i, n) == [(i, Min(n, i + BatchLimit))] + rest;
      forall k | 0 < k < |WindowsFrom(i, n)|
        ensures WindowsFrom(i, n)[k] == (i + BatchLimit * k, Min(n, i + BatchLimit * k + BatchLimit))
      {
        assert WindowsFrom(i, n)[k] == rest[k - 1];
      }
    }
  }

  /** Window k is [25k, min(n, 25k + 25)), and there are ceil(n / 25) of them. */
  lemma WindowsShape(n: nat)
    ensures |Windows(n)| == WindowCount(n)
    ensures forall k :: 0 <= k < |Windows(n)| ==> Windows(n)[k] == (BatchLimit * k, Min(n, BatchLimit * k + BatchLimit))
    ensures forall k :: 0 <= k < |Windows(n)| ==> BatchLimit * k < n
  {
    WindowsFromShape(0, n);
  }

  /** The windows partition [0, n) in order: none is empty or longer than the
      limit, the first starts at 0, each starts where the previous one ended,
      and the last ends at n; no destinations means no window. */
  lemma WindowsPartition(n: nat)
    ensures n == 0 <==> Windows(n) == []
    ensures n > 0 ==> Windows(n)[0].0 == 0 && Windows(n)[|Windows(n)| - 1].1 == n
    ensures forall k :: 0 <= k < |Windows(n)| ==> 0 < Windows(n)[k].1 - Windows(n)[k].0 <= BatchLimit
    ensures forall k :: 0 <= k < |Windows(n)| - 1 ==> Windows(n)[k].1 == Windows(n)[k + 1].0
  {
    WindowsShape(n);
  }

  /** Destination j lies in window j / 25 and in no other, and j % 25 (the
      index the loop reads the response with) is its position in that window. */
  lemma WindowOf(n: nat, j: nat)
    requires j < n
    ensures j / BatchLimit < |Windows(n)|
    ensures Windows(n)[j / BatchLimit].0 <= j < Windows(n)[j / BatchLimit].1
    ensures j % BatchLimit == j - Windows(n)[j / BatchLimit].0
    ensures forall k :: 0 <= k < |Windows(n)| && Windows(n)[k].0 <= j < Windows(n)[k].1 ==> k == j / BatchLimit
  {
    WindowsShape(n);
  }

  /** Inside the window starting at 25k, j / 25 is k and j % 25 is the offset from the start. */
  lemma PositionInWindow(k: nat, j: nat)
    requires BatchLimit * k <= j < BatchLimit * k + BatchLimit
    ensures j / BatchLimit == k
    ensures j % BatchLimit == j - BatchLimit * k
  {
  }

  /** Inside a window that starts at a multiple of 25, j % 25 is the offset of j from the start. */
  lemma OffsetInWindow(i: nat, j: nat)
    requires i % BatchLimit == 0 && i <= j < i + BatchLimit
    ensures j % BatchLimit == j - i
  {
    PositionInWindow(i / BatchLimit, j);
  }
}
