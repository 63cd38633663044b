/**
  The binary heap of nonces: sifting up and down, and the operations built from them. Every operation
  keeps heap order and changes the contents by exactly one nonce, or not at all.
 */
module NonceHeap {

  function Parent(i: int): int
    requires i > 0
  {
    (i - 1) / 2
  }

  /** Edge `k` is in order: a nonce is not below its parent. */
  ghost predicate Edge(h: seq<nat>, k: int)
    requires 0 < k < |h|
  {
    h[Parent(k)] <= h[k]
  }

  /** Heap order among the nodes from `lo` on. */
  ghost predicate HeapFrom(h: seq<nat>, lo: int) {
    forall k {:trigger Edge(h, k)} :: 0 < k < |h| && Parent(k) >= lo ==> Edge(h, k)
  }

  ghost predicate Heap(h: seq<nat>) {
    HeapFrom(h, 0)
  }

  /** The top of a heap is its least element. */
  lemma {:induction false} TopIsLeast(h: seq<nat>, k: nat)
    requires Heap(h) && k < |h|
    ensures h[0] <= h[k]
  {
    if k > 0 {
      TopIsLeast(h, Parent(k));
      assert Edge(h, k);
    }
  }

  function Swap(h: seq<nat>, i: nat, j: nat): seq<nat>
    requires i < |h| && j < |h|
  {
    h[i := h[j]][j := h[i]]
  }

  lemma {:induction false} SwapSame(h: seq<nat>, i: nat, j: nat)
    requires i < |h| && j < |h|
    ensures multiset(Swap(h, i, j)) == multiset(h) && |Swap(h, i, j)| == |h|
  {
  }

  // ----- Sifting up -----

  /** In order except that node `j` may be too small, and its children would fit under its parent. */
  ghost predicate UpReady(h: seq<nat>, j: nat) {
    && j < |h|
    && (forall k {:trigger Edge(h, k)} :: 0 < k < |h| && k != j ==> Edge(h, k))
    && (j > 0 ==> forall k {:trigger h[k]} :: 0 < k < |h| && Parent(k) == j ==> h[Parent(j)] <= h[k])
  }

  method Up(h: seq<nat>, j0: nat) returns (r: seq<nat>)
    requires UpReady(h, j0)
    ensures Heap(r) && multiset(r) == multiset(h) && |r| == |h|
  {
    r := h;
    var j: nat := j0;
    while j > 0 && r[j] < r[Parent(j)]
      invariant UpReady(r, j) && multiset(r) == multiset(h) && |r| == |h|
      decreases j
    {
      var i: nat := Parent(j);
      UpStep(r, j);
      SwapSame(r, i, j);
      r := Swap(r, i, j);
      j := i;
    }
    forall k | 0 < k < |r| ensures Edge(r, k) {
      if k == j {
        assert !(r[j] < r[Parent(j)]);
      }
    }
  }

  lemma {:induction false} UpStep(h: seq<nat>, j: nat)
    requires UpReady(h, j) && j > 0 && h[j] < h[Parent(j)]
    ensures UpReady(Swap(h, Parent(j), j), Parent(j))
  {
    var i := Parent(j);
    var s := Swap(h, i, j);
    forall k | 0 < k < |s| && k != i ensures Edge(s, k) {
      if k == j {
      } else {
        assert Edge(h, k);
      }
    }
    if i > 0 {
      assert Edge(h, i);
      forall k | 0 < k < |s| && Parent(k) == i ensures s[Parent(i)] <= s[k] {
        if k != j {
          assert Edge(h, k);
        }
      }
    }
  }

  // ----- Sifting down -----

  /** In order from `lo` on except that node `i` may be too large. */
  ghost predicate DownReady(h: seq<nat>, lo: int, i: nat) {
    && (forall k {:trigger Edge(h, k)} :: 0 < k < |h| && Parent(k) >= lo && Parent(k) != i ==> Edge(h, k))
    && (i > 0 && Parent(i) >= lo ==> forall k {:trigger h[k]} :: 0 < k < |h| && Parent(k) == i ==> h[Parent(i)] <= h[k])
  }

  /** Are the children of `i` not below it? */
  ghost predicate Settled(h: seq<nat>, i: nat)
    requires i < |h|
  {
    (2 * i + 1 < |h| ==> h[i] <= h[2 * i + 1]) && (2 * i + 2 < |h| ==> h[i] <= h[2 * i + 2])
  }

  method Down(h: seq<nat>, i0: nat, ghost lo: int) returns (r: seq<nat>, moved: bool)
    requires i0 < |h|
    ensures multiset(r) == multiset(h) && |r| == |h|
    ensures Settled(h, i0) ==> r == h && !moved
    ensures !moved ==> r == h && Settled(h, i0)
    ensures DownReady(h, lo, i0) ==> HeapFrom(r, lo)
  {
    r := h;
    var i := i0;
    while true
      invariant i0 <= i < |r| && multiset(r) == multiset(h) && |r| == |h|
      invariant DownReady(h, lo, i0) ==> DownReady(r, lo, i)
      invariant i == i0 ==> r == h
      invariant i > i0 ==> !Settled(h, i0)
      decreases |r| - i
    {
      var j1 := 2 * i + 1;
      if j1 >= |r| {
        break;
      }
      var j := j1;
      if j1 + 1 < |r| && r[j1 + 1] < r[j1] {
        j := j1 + 1;
      }
      if !(r[j] < r[i]) {
        break;
      }
      if DownReady(r, lo, i) {
        DownStep(r, lo, i, j);
      }
      SwapSame(r, i, j);
      r := Swap(r, i, j);
      i := j;
    }
    moved := i > i0;
    if DownReady(r, lo, i) && Settled(r, i) {
      DownDone(r, lo, i);
    }
  }

  lemma {:induction false} DownStep(h: seq<nat>, lo: int, i: nat, j: nat)
    requires DownReady(h, lo, i) && i < |h| && 2 * i + 1 <= j <= 2 * i + 2 && j < |h| && h[j] < h[i]
    requires forall k :: 2 * i + 1 <= k <= 2 * i + 2 && k < |h| ==> h[j] <= h[k]
    ensures DownReady(Swap(h, i, j), lo, j)
  {
    var s := Swap(h, i, j);
    assert Parent(j) == i;
    forall k | 0 < k < |s| && Parent(k) >= lo && Parent(k) != j ensures Edge(s, k) {
      if Parent(k) != i {
        assert Edge(h, k);
      }
    }
    forall k | 0 < k < |s| && Parent(k) == j && Parent(j) >= lo ensures s[Parent(j)] <= s[k] {
      assert Edge(h, k);
    }
  }

  lemma {:induction false} DownDone(h: seq<nat>, lo: int, i: nat)
    requires DownReady(h, lo, i) && i < |h| && Settled(h, i)
    ensures HeapFrom(h, lo)
  {
    forall k | 0 < k < |h| && Parent(k) >= lo ensures Edge(h, k) {
      if Parent(k) == i {
        assert k == 2 * i + 1 || k == 2 * i + 2;
      }
    }
  }

  // ----- The operations -----

  method Push(h: seq<nat>, x: nat) returns (r: seq<nat>)
    requires Heap(h)
    ensures Heap(r) && multiset(r) == multiset(h) + multiset{x} && |r| == |h| + 1
  {
    var s := h + [x];
    forall k | 0 < k < |s| && k != |h| ensures Edge(s, k) {
      assert Edge(h, k);
    }
    r := Up(s, |h|);
  }

  /** `heap.Init`: sift down from the last parent to the top. */
  method Init(h: seq<nat>) returns (r: seq<nat>)
    ensures Heap(r) && multiset(r) == multiset(h) && |r| == |h|
  {
    r := h;
    var i := |h| / 2;
    while i > 0
      invariant 0 <= i <= |h| / 2 && HeapFrom(r, i) && multiset(r) == multiset(h) && |r| == |h|
    {
      i := i - 1;
      var moved;
      assert DownReady(r, i, i);
      r, moved := Down(r, i, i);
    }
  }

  /** `heap.Pop`. */
  method Pop(h: seq<nat>) returns (r: seq<nat>, x: nat)
    requires Heap(h) && h != []
    ensures x == h[0] && Heap(r) && multiset(r) == multiset(h) - multiset{x} && |r| == |h| - 1
  {
    r := RemoveAt(h, 0);
    x := h[0];
  }

  /** `heap.Remove`: the last element takes the place, then sinks or rises. */
  method RemoveAt(h: seq<nat>, i: nat) returns (r: seq<nat>)
    requires Heap(h) && i < |h|
    ensures Heap(r) && multiset(r) == multiset(h) - multiset{h[i]} && |r| == |h| - 1
  {
    var n := |h| - 1;
    var s := Swap(h, i, n);
    SwapSame(h, i, n);
    r := s[..n];
    assert s == r + [h[i]];
    if i < n {
      r := Fix(r, i, h);
    } else {
      PrefixHeap(h, r);
    }
  }

  lemma {:induction false} PrefixHeap(h: seq<nat>, r: seq<nat>)
    requires Heap(h) && r <= h
    ensures Heap(r)
  {
    forall k | 0 < k < |r| ensures Edge(r, k) {
      assert Edge(h, k);
    }
  }

  /** A heap `h` has lost its last element and got another one at `i`. */
  method Fix(t: seq<nat>, i: nat, ghost h: seq<nat>) returns (r: seq<nat>)
    requires Heap(h) && |t| == |h| - 1 && i < |t| && (forall k :: 0 <= k < |t| && k != i ==> t[k] == h[k])
    ensures Heap(r) && multiset(r) == multiset(t) && |r| == |t|
  {
    hide HeapFrom, DownReady, UpReady, Settled;
    if i == 0 || t[Parent(i)] <= t[i] {
      Sinks(h, t, i);
    }
    if !Settled(t, i) {
      MovedDown(h, t, i);
    }
    var moved;
    r, moved := Down(t, i, 0);
    if !moved {
      Rises(h, t, i);
      r := Up(r, i);
    }
  }

  lemma {:induction false} Sinks(h: seq<nat>, r: seq<nat>, i: nat)
    requires Heap(h) && |r| == |h| - 1 && i < |r| && (forall k :: 0 <= k < |r| && k != i ==> r[k] == h[k])
    requires i == 0 || r[Parent(i)] <= r[i]
    ensures DownReady(r, 0, i)
  {
    forall k | 0 < k < |r| && Parent(k) != i ensures Edge(r, k) {
      assert Edge(h, k);
    }
    forall k | 0 < k < |r| && Parent(k) == i && i > 0 ensures r[Parent(i)] <= r[k] {
      assert Edge(h, k) && Edge(h, i);
    }
  }

  /** A last element that did not sink is in place but for its parent. */
  lemma {:induction false} Rises(h: seq<nat>, r: seq<nat>, i: nat)
    requires Heap(h) && |r| == |h| - 1 && i < |r| && (forall k :: 0 <= k < |r| && k != i ==> r[k] == h[k]) && Settled(r, i)
    ensures UpReady(r, i)
  {
    forall k | 0 < k < |r| && k != i ensures Edge(r, k) {
      assert Edge(h, k);
      if Parent(k) == i {
        assert k == 2 * i + 1 || k == 2 * i + 2;
      }
    }
    forall k | 0 < k < |r| && Parent(k) == i && i > 0 ensures r[Parent(i)] <= r[k] {
      assert Edge(h, k) && Edge(h, i);
    }
  }

  /** Only an element that is not below its parent can sink. */
  lemma {:induction false} MovedDown(h: seq<nat>, r: seq<nat>, i: nat)
    requires Heap(h) && |r| == |h| - 1 && i < |r| && (forall k :: 0 <= k < |r| && k != i ==> r[k] == h[k]) && !Settled(r, i)
    ensures i == 0 || r[Parent(i)] <= r[i]
  {
    if i > 0 {
      var k := if 2 * i + 1 < |r| && r[2 * i + 1] < r[i] then 2 * i + 1 else 2 * i + 2;
      assert Edge(h, k) && Edge(h, i);
    }
  }
}
