/**
 topk, bottomk, limitk and limit_ratio at one step (promql/engine.go,
 aggregationK), with the heaps of promql/functions.go.
 */
module TopK {
  import opened Prelude
  import opened RangeEval

  datatype Op = TOPK | BOTTOMK | LIMITK | LIMIT_RATIO

  // ---------------------------------------------------------------- the order of values

  predicate IsNaN(f: Float) {
    f.NaN?
  }

  /** The float of a sample; heaps of limitk and limit_ratio also hold histograms, whose float is zero. */
  function FloatOf(s: VectorSample): Float {
    if s.v.F? then s.v.f else Finite(0.0)
  }

  /** Less of vectorByValueHeap, and of vectorByReverseValueHeap for bottomk. */
  predicate Less(op: Op, a: VectorSample, b: VectorSample) {
    IsNaN(FloatOf(a)) || if op == BOTTOMK then Lt(FloatOf(b), FloatOf(a)) else Lt(FloatOf(a), FloatOf(b))
  }

  /** `a` is no better than `b`: a total preorder with NaN worst in both directions. */
  predicate NoBetter(op: Op, a: VectorSample, b: VectorSample) {
    var x, y := FloatOf(a), FloatOf(b);
    IsNaN(x) || (!IsNaN(y) && if op == BOTTOMK then !Lt(x, y) else !Lt(y, x))
  }

  lemma NoBetterIsPreorder(op: Op, a: VectorSample, b: VectorSample, c: VectorSample)
    ensures NoBetter(op, a, b) || NoBetter(op, b, a)
    ensures NoBetter(op, a, b) && NoBetter(op, b, c) ==> NoBetter(op, a, c)
    ensures Less(op, a, b) ==> NoBetter(op, a, b)
    ensures !Less(op, a, b) ==> NoBetter(op, b, a)
  {
  }

  // ---------------------------------------------------------------- heaps

  type Heap = seq<VectorSample>

  function Parent(i: nat): (p: nat)
    requires 0 < i
    ensures p < i
  {
    (i - 1) / 2
  }

  /** The element at `i` is not worse than its parent. */
  predicate Fits(op: Op, h: Heap, i: nat)
    requires 0 < i < |h|
  {
    NoBetter(op, h[Parent(i)], h[i])
  }

  ghost predicate IsHeap(op: Op, h: Heap) {
    forall i: nat | 0 < i < |h| :: Fits(op, h, i)
  }

  lemma {:induction false} RootIsWorst(op: Op, h: Heap, i: nat)
    requires IsHeap(op, h) && i < |h|
    ensures NoBetter(op, h[0], h[i])
  {
    if i == 0 {
      NoBetterIsPreorder(op, h[0], h[0], h[0]);
    } else {
      RootIsWorst(op, h, Parent(i));
      assert Fits(op, h, i);
      NoBetterIsPreorder(op, h[0], h[Parent(i)], h[i]);
    }
  }

  function Swap(h: Heap, i: nat, j: nat): (r: Heap)
    requires i < |h| && j < |h|
    ensures |r| == |h| && multiset(r) == multiset(h)
  {
    h[i := h[j]][j := h[i]]
  }

  /** Every child of `j` fits under the parent of `j`. */
  ghost predicate ChildrenFitAbove(op: Op, h: Heap, j: nat) {
    j < |h| && forall i: nat | 0 < i < |h| && Parent(i) == j && 0 < j :: NoBetter(op, h[Parent(j)], h[i])
  }

  /** The heap order holds but for the element at `j` under its parent. */
  ghost predicate HeapButUp(op: Op, h: Heap, j: nat) {
    ChildrenFitAbove(op, h, j) && forall i: nat | 0 < i < |h| && i != j :: Fits(op, h, i)
  }

  lemma SwapUp(op: Op, h: Heap, j: nat, p: nat)
    requires HeapButUp(op, h, j) && 0 < j && p == Parent(j) && Less(op, h[j], h[p])
    ensures HeapButUp(op, Swap(h, p, j), p)
  {
    var r := Swap(h, p, j);
    forall i: nat | 0 < i < |r| && i != p ensures Fits(op, r, i) {
      assert i != j ==> Fits(op, h, i);
      NoBetterIsPreorder(op, h[j], h[p], h[i]);
    }
    forall i: nat | 0 < i < |r| && Parent(i) == p && 0 < p ensures NoBetter(op, r[Parent(p)], r[i]) {
      assert Fits(op, h, p) && (i != j ==> Fits(op, h, i));
      NoBetterIsPreorder(op, h[Parent(p)], h[p], h[i]);
    }
  }

  /** container/heap's up. */
  method Up(op: Op, h0: Heap, j0: nat) returns (h: Heap)
    requires HeapButUp(op, h0, j0)
    ensures IsHeap(op, h) && multiset(h) == multiset(h0) && |h| == |h0|
  {
    h := h0;
    var j: nat := j0;
    while j > 0 && Less(op, h[j], h[Parent(j)])
      invariant HeapButUp(op, h, j) && multiset(h) == multiset(h0) && |h| == |h0|
    {
      var p := Parent(j);
      SwapUp(op, h, j, p);
      h, j := Swap(h, p, j), p;
    }
    if j > 0 { NoBetterIsPreorder(op, h[j], h[Parent(j)], h[j]); }
  }

  /** heap.Push. */
  method Push(op: Op, h0: Heap, s: VectorSample) returns (h: Heap)
    requires IsHeap(op, h0)
    ensures IsHeap(op, h) && multiset(h) == multiset(h0) + multiset{s} && |h| == |h0| + 1
  {
    forall i: nat | 0 < i < |h0| ensures Fits(op, h0 + [s], i) {
      assert Fits(op, h0, i);
    }
    h := Up(op, h0 + [s], |h0|);
  }

  /** The heap order holds but for the children of the element at `i`. */
  ghost predicate HeapButDown(op: Op, h: Heap, i: nat) {
    ChildrenFitAbove(op, h, i) && forall c: nat | 0 < c < |h| && Parent(c) != i :: Fits(op, h, c)
  }

  /** `j` is the worst child of `i`. */
  ghost predicate WorstChild(op: Op, h: Heap, i: nat, j: nat) {
    0 < j < |h| && Parent(j) == i && forall c: nat | 0 < c < |h| && Parent(c) == i :: NoBetter(op, h[j], h[c])
  }

  lemma SwapDown(op: Op, h: Heap, i: nat, j: nat)
    requires HeapButDown(op, h, i) && WorstChild(op, h, i, j) && Less(op, h[j], h[i])
    ensures HeapButDown(op, Swap(h, i, j), j)
  {
    var r := Swap(h, i, j);
    forall c: nat | 0 < c < |r| && Parent(c) != j ensures Fits(op, r, c) {
      assert Parent(c) != i ==> Fits(op, h, c);
      NoBetterIsPreorder(op, h[j], h[i], h[i]);
    }
    forall c: nat | 0 < c < |r| && Parent(c) == j ensures NoBetter(op, r[i], r[c]) {
      assert Fits(op, h, c);
    }
  }

  lemma PickedChild(op: Op, h: Heap, i: nat, j: nat)
    requires 2 * i + 1 < |h|
    requires j == if 2 * i + 2 < |h| && Less(op, h[2 * i + 2], h[2 * i + 1]) then 2 * i + 2 else 2 * i + 1
    ensures WorstChild(op, h, i, j)
  {
    forall c: nat | 0 < c < |h| && Parent(c) == i ensures NoBetter(op, h[j], h[c]) {
      NoBetterIsPreorder(op, h[2 * i + 1], h[c], h[c]);
      NoBetterIsPreorder(op, h[c], h[2 * i + 1], h[c]);
    }
  }

  lemma FitsNow(op: Op, h: Heap, i: nat, j: nat)
    requires HeapButDown(op, h, i) && WorstChild(op, h, i, j) && !Less(op, h[j], h[i])
    ensures IsHeap(op, h)
  {
    forall c: nat | 0 < c < |h| ensures Fits(op, h, c) {
      NoBetterIsPreorder(op, h[j], h[i], h[c]);
      NoBetterIsPreorder(op, h[i], h[j], h[c]);
    }
  }

  /** container/heap's down. */
  method Down(op: Op, h0: Heap, i0: nat) returns (h: Heap)
    requires HeapButDown(op, h0, i0)
    ensures IsHeap(op, h) && multiset(h) == multiset(h0) && |h| == |h0|
  {
    h := h0;
    var i: nat := i0;
    while 2 * i + 1 < |h|
      invariant HeapButDown(op, h, i) && multiset(h) == multiset(h0) && |h| == |h0|
      decreases |h| - i
    {
      var j := 2 * i + 1;
      if j + 1 < |h| && Less(op, h[j + 1], h[j]) {
        j := j + 1;
      }
      PickedChild(op, h, i, j);
      if !Less(op, h[j], h[i]) {
        FitsNow(op, h, i, j);
        return;
      }
      SwapDown(op, h, i, j);
      h, i := Swap(h, i, j), j;
    }
  }

  // ---------------------------------------------------------------- the best k

  /** `m` holds as many of the samples as there are, up to k, and none of those left out is better than one of them. */
  ghost predicate Best(op: Op, m: multiset<VectorSample>, xs: seq<VectorSample>, k: nat) {
    && m <= multiset(xs)
    && |m| == Min(k, |xs|)
    && forall x, y | x in multiset(xs) - m && y in m :: NoBetter(op, x, y)
  }

  lemma BestOfFew(op: Op, m: multiset<VectorSample>, xs: seq<VectorSample>, s: VectorSample, k: nat)
    requires Best(op, m, xs, k) && |m| < k
    ensures Best(op, m + multiset{s}, xs + [s], k)
  {
    assert multiset(xs) == m + (multiset(xs) - m);
    assert |multiset(xs) - m| == 0;
    assert multiset(xs + [s]) == multiset(xs) + multiset{s};
  }

  ghost predicate Worst(op: Op, root: VectorSample, m: multiset<VectorSample>) {
    root in m && forall y | y in m :: NoBetter(op, root, y)
  }

  lemma BestReplaced(op: Op, m: multiset<VectorSample>, root: VectorSample, xs: seq<VectorSample>, s: VectorSample,
                     k: nat)
    requires Best(op, m, xs, k) && |m| == k && Worst(op, root, m) && NoBetter(op, root, s)
    ensures Best(op, m - multiset{root} + multiset{s}, xs + [s], k)
  {
    var m' := m - multiset{root} + multiset{s};
    assert multiset(xs + [s]) == multiset(xs) + multiset{s};
    forall x, y | x in multiset(xs + [s]) - m' && y in m' ensures NoBetter(op, x, y) {
      assert x == root || x in multiset(xs) - m;
      assert NoBetter(op, x, root) by { NoBetterIsPreorder(op, x, x, x); }
      assert NoBetter(op, root, y);
      NoBetterIsPreorder(op, x, root, y);
    }
  }

  lemma BestKept(op: Op, m: multiset<VectorSample>, root: VectorSample, xs: seq<VectorSample>, s: VectorSample, k: nat)
    requires Best(op, m, xs, k) && |m| == k && Worst(op, root, m) && NoBetter(op, s, root)
    ensures Best(op, m, xs + [s], k)
  {
    assert multiset(xs + [s]) == multiset(xs) + multiset{s};
    forall x, y | x in multiset(xs + [s]) - m && y in m ensures NoBetter(op, x, y) {
      if x !in multiset(xs) - m {
        NoBetterIsPreorder(op, s, root, y);
      }
    }
  }

  /** The new element is better than the worst one kept. */
  predicate Replaces(op: Op, root: VectorSample, s: VectorSample) {
    var x, y := FloatOf(root), FloatOf(s);
    (if op == BOTTOMK then Lt(y, x) else Lt(x, y)) || (IsNaN(x) && !IsNaN(y))
  }

  /** topk and bottomk: keep the best k in a heap with the worst of them on top. */
  method KeepBest(op: Op, k: nat, heap: Heap, s: VectorSample, ghost xs: seq<VectorSample>) returns (heap': Heap)
    requires k >= 1 && IsHeap(op, heap) && Best(op, multiset(heap), xs, k)
    ensures IsHeap(op, heap') && Best(op, multiset(heap'), xs + [s], k)
  {
    if |heap| < k {
      BestOfFew(op, multiset(heap), xs, s, k);
      heap' := Push(op, heap, s);
      return;
    }
    forall y | y in multiset(heap) ensures NoBetter(op, heap[0], y) {
      var i :| 0 <= i < |heap| && heap[i] == y;
      RootIsWorst(op, heap, i);
    }
    assert Worst(op, heap[0], multiset(heap));
    heap' := heap;
    if Replaces(op, heap[0], s) {
      BestReplaced(op, multiset(heap), heap[0], xs, s, k);
      heap' := heap[0 := s];
      assert multiset(heap') == multiset(heap) - multiset{heap[0]} + multiset{s};
      if k > 1 {
        forall c: nat | 0 < c < |heap'| && Parent(c) != 0 ensures Fits(op, heap', c) {
          assert Fits(op, heap, c);
        }
        heap' := Down(op, heap', 0);
      }
    } else {
      BestKept(op, multiset(heap), heap[0], xs, s, k);
    }
  }

  /** Emitted best first. */
  ghost predicate BestFirst(op: Op, h: Heap) {
    forall i, j | 0 <= i < j < |h| :: NoBetter(op, h[j], h[i])
  }

  lemma InsertedBestFirst(op: Op, h: Heap, s: VectorSample, j: nat)
    requires BestFirst(op, h) && j <= |h|
    requires forall i | j <= i < |h| :: NoBetter(op, h[i], s)
    requires forall i | 0 <= i < j :: NoBetter(op, s, h[i])
    ensures BestFirst(op, h[..j] + [s] + h[j..])
    ensures multiset(h[..j] + [s] + h[j..]) == multiset(h) + multiset{s}
  {
    assert h == h[..j] + h[j..];
    var r := h[..j] + [s] + h[j..];
    forall a, b | 0 <= a < b < |r| ensures NoBetter(op, r[b], r[a]) {
      var x, y := if a < j then a else a - 1, if b < j then b else b - 1;
      assert a != j ==> r[a] == h[x];
      assert b != j ==> r[b] == h[y];
    }
  }

  method Insert(op: Op, h: Heap, s: VectorSample) returns (r: Heap)
    requires BestFirst(op, h)
    ensures BestFirst(op, r) && multiset(r) == multiset(h) + multiset{s}
  {
    var j := |h|;
    while j > 0 && Less(op, h[j - 1], s)
      invariant 0 <= j <= |h|
      invariant forall i | j <= i < |h| :: NoBetter(op, h[i], s)
    {
      NoBetterIsPreorder(op, h[j - 1], s, s);
      j := j - 1;
    }
    forall i | 0 <= i < j ensures NoBetter(op, s, h[i]) {
      NoBetterIsPreorder(op, h[j - 1], s, s);
      NoBetterIsPreorder(op, s, h[j - 1], h[i]);
    }
    InsertedBestFirst(op, h, s, j);
    r := h[..j] + [s] + h[j..];
  }

  /** sort.Sort(sort.Reverse(heap)), as an insertion sort. */
  method SortBestFirst(op: Op, h: Heap) returns (r: Heap)
    ensures BestFirst(op, r) && multiset(r) == multiset(h)
  {
    r := [];
    var i := 0;
    while i < |h|
      invariant 0 <= i <= |h| && BestFirst(op, r) && multiset(r) == multiset(h[..i])
    {
      r := Insert(op, r, h[i]);
      assert h[..i + 1] == h[..i] + [h[i]];
      i := i + 1;
    }
    assert h[..i] == h;
  }

  // ---------------------------------------------------------------- one step

  const MAX_INT64: real := 9223372036854774784.0
  const MIN_INT64: real := -9223372036854775808.0

  /** What the parameter asks for. */
  datatype Demand = Overflow | NotANumber | Nothing | Limit(k: nat) | Ratio(r: Float)
  /** `k` is the integer below the parameter. */
  ghost predicate WholePart(param: Float, k: int) {
    param.Finite? && k as real <= param.x < k as real + 1.0
  }

  /** `r` is the parameter cut to [-1, 1]. */
  ghost predicate CutTo(param: Float, r: real) {
    match param
    case Finite(x) => r == if x < -1.0 then -1.0 else if x > 1.0 then 1.0 else x
    case PosInf => r == 1.0
    case NegInf => r == -1.0
    case NaN(_) => false
  }

  /** The parameter cannot be used. */
  predicate BadParam(op: Op, param: Float) {
    if op == LIMIT_RATIO then param.NaN?
    else !param.Finite? || param.x > 9223372036854774784.0 || param.x < -9223372036854775808.0
  }

  /** `n` is the number of input series. */
  function DemandOf(op: Op, param: Float, n: nat): (d: Demand)
    ensures d.Limit? ==> 1 <= d.k <= n && op != LIMIT_RATIO
    ensures d.Ratio? ==> op == LIMIT_RATIO
    ensures d.Overflow? || d.NotANumber? <==> BadParam(op, param)
    ensures op != LIMIT_RATIO && !BadParam(op, param) ==> forall k | WholePart(param, k) ::
              d == if k < 1 || n == 0 then Nothing else Limit(Min(k, n))
    ensures op == LIMIT_RATIO ==> forall x | CutTo(param, x) ::
              d == if x == 0.0 then Nothing else Ratio(Finite(x))
  {
    if op != LIMIT_RATIO then
      if !param.Finite? || param.x > MAX_INT64 || param.x < MIN_INT64 then Overflow
      else
        var k := Min(Truncate(param.x), n);
        if k < 1 then Nothing else Limit(k)
    else if param.NaN? then NotANumber
    else if param == Finite(0.0) then Nothing
    else if Lt(param, Finite(-1.0)) then Ratio(Finite(-1.0))
    else if Lt(Finite(1.0), param) then Ratio(Finite(1.0))
    else Ratio(param)
  }

  type Sampler = (Float, VectorSample) -> bool

  /** A group; `complete` is used by limitk. */
  datatype Group = Group(seen: bool, heap: Heap, complete: bool)

  function FloatsIn(xs: seq<VectorSample>): seq<VectorSample> {
    if xs == [] then []
    else if xs[|xs| - 1].v.F? then FloatsIn(xs[..|xs| - 1]) + [xs[|xs| - 1]]
    else FloatsIn(xs[..|xs| - 1])
  }

  function Sampled(xs: seq<VectorSample>, r: Float, sampler: Sampler): seq<VectorSample> {
    if xs == [] then []
    else if sampler(r, xs[|xs| - 1]) then Sampled(xs[..|xs| - 1], r, sampler) + [xs[|xs| - 1]]
    else Sampled(xs[..|xs| - 1], r, sampler)
  }

  lemma Snoc(xs: seq<VectorSample>, s: VectorSample, r: Float, sampler: Sampler)
    ensures FloatsIn(xs + [s]) == if s.v.F? then FloatsIn(xs) + [s] else FloatsIn(xs)
    ensures Sampled(xs + [s], r, sampler) ==
            if sampler(r, s) then Sampled(xs, r, sampler) + [s] else Sampled(xs, r, sampler)
  {
    assert (xs + [s])[..|xs|] == xs;
  }

  /** The group after the samples `xs` of it. */
  ghost predicate Holds(op: Op, d: Demand, sampler: Sampler, g: Group, xs: seq<VectorSample>) {
    && (d.Limit? || d.Ratio?)
    && match op
       case LIMITK => d.Limit? && (g.seen <==> xs != []) && (g.seen ==> IsHeap(op, g.heap) && FirstOf(g.heap, xs, d.k))
       case LIMIT_RATIO =>
         d.Ratio? && (g.seen <==> xs != []) &&
           (g.seen ==> IsHeap(op, g.heap) && multiset(g.heap) == multiset(Sampled(xs, d.r, sampler)))
       case _ =>
         var fs := FloatsIn(xs);
         d.Limit? && (g.seen <==> fs != []) && (g.seen ==> IsHeap(op, g.heap) && Best(op, multiset(g.heap), fs, d.k))
  }

  /** The heap holds the first k samples. */
  ghost predicate FirstOf(heap: Heap, xs: seq<VectorSample>, k: nat) {
    multiset(heap) == multiset(xs[..Min(k, |xs|)]) && |heap| == Min(k, |xs|)
  }

  /** limitk: keep a sample while there are fewer than k. */
  method KeepFirst(op: Op, k: nat, heap: Heap, s: VectorSample, ghost xs: seq<VectorSample>) returns (heap': Heap)
    requires k >= 1 && IsHeap(op, heap) && FirstOf(heap, xs, k)
    ensures IsHeap(op, heap') && FirstOf(heap', xs + [s], k)
  {
    heap' := heap;
    if |heap| < k {
      heap' := Push(op, heap, s);
      assert xs[..|xs|] == xs && (xs + [s])[..|xs| + 1] == xs + [s];
    } else {
      assert (xs + [s])[..k] == xs[..k];
    }
  }

  /** Add a sample to its group. */
  method AddSample(op: Op, d: Demand, sampler: Sampler, g: Group, s: VectorSample, ghost xs: seq<VectorSample>)
    returns (g': Group)
    requires (d.Limit? ==> d.k >= 1) && Holds(op, d, sampler, g, xs)
    ensures Holds(op, d, sampler, g', xs + [s])
    ensures !g.seen ==> !g'.complete
    ensures g.seen ==> g'.seen && g'.complete == g.complete
  {
    Snoc(xs, s, if d.Ratio? then d.r else Finite(0.0), sampler);
    match op
    case LIMITK =>
      var heap := KeepFirst(op, d.k, if g.seen then g.heap else [], s, xs);
      g' := Group(true, heap, g.seen && g.complete);
    case LIMIT_RATIO =>
      var heap := if g.seen then g.heap else [];
      if sampler(d.r, s) {
        heap := Push(op, heap, s);
      }
      g' := Group(true, heap, g.seen && g.complete);
    case _ =>
      if s.v.H? {
        g' := if g.seen then g else Group(false, [], false);
      } else {
        var heap := KeepBest(op, d.k, if g.seen then g.heap else [], s, FloatsIn(xs));
        g' := Group(true, heap, g.seen && g.complete);
      }
  }

  /** The samples at `ts` of one group, from the first `n` series. */
  function MembersUpTo(orig: seq<Series>, toGroup: seq<nat>, n: nat, g: nat, ts: int): seq<VectorSample>
    requires n <= |orig| == |toGroup|
  {
    if n == 0 then []
    else
      var before, v := MembersUpTo(orig, toGroup, n - 1, g, ts), ValueAt(orig[n - 1], ts);
      if v.Some? && toGroup[n - 1] == g then before + [VectorSample(orig[n - 1].metric, v.value, orig[n - 1].dropName)]
      else before
  }

  function Members(orig: seq<Series>, toGroup: seq<nat>, g: nat, ts: int): seq<VectorSample>
    requires |orig| == |toGroup|
  {
    MembersUpTo(orig, toGroup, |orig|, g, ts)
  }

  lemma {:induction false} MembersPrefix(orig: seq<Series>, toGroup: seq<nat>, m: nat, n: nat, g: nat, ts: int)
    requires m <= n <= |orig| == |toGroup|
    ensures MembersUpTo(orig, toGroup, m, g, ts) <= MembersUpTo(orig, toGroup, n, g, ts)
  {
    if m < n { MembersPrefix(orig, toGroup, m, n - 1, g, ts); }
  }

  predicate Selects(d: Demand) {
    d.Limit? || d.Ratio?
  }

  /** The groups after the first `si` series. */
  ghost predicate GroupsAfter(op: Op, d: Demand, sampler: Sampler, groups: seq<Group>, orig: seq<Series>,
                              toGroup: seq<nat>, si: nat, ts: int)
    requires si <= |orig| == |toGroup|
  {
    if Selects(d) then
      forall g: nat | g < |groups| :: Holds(op, d, sampler, groups[g], MembersUpTo(orig, toGroup, si, g, ts))
    else
      VectorUpTo(orig, si, ts) == [] && forall g: nat | g < |groups| :: !groups[g].seen
  }

  /** A sample goes to its group and to no other. */
  lemma GroupsAfterSample(op: Op, d: Demand, sampler: Sampler, groups: seq<Group>, g': Group, orig: seq<Series>,
                          toGroup: seq<nat>, si: nat, ts: int)
    requires si < |orig| == |toGroup| && toGroup[si] < |groups| && Selects(d)
    requires ValueAt(orig[si], ts).Some?
    requires GroupsAfter(op, d, sampler, groups, orig, toGroup, si, ts)
    requires Holds(op, d, sampler, g', MembersUpTo(orig, toGroup, si + 1, toGroup[si], ts))
    ensures GroupsAfter(op, d, sampler, groups[toGroup[si] := g'], orig, toGroup, si + 1, ts)
  {
    var groups' := groups[toGroup[si] := g'];
    forall g: nat | g < |groups'| ensures Holds(op, d, sampler, groups'[g], MembersUpTo(orig, toGroup, si + 1, g, ts)) {
      assert Holds(op, d, sampler, groups[g], MembersUpTo(orig, toGroup, si, g, ts));
    }
  }

  // limitk stops early once every group is complete

  ghost function Indices(n: nat): (r: set<nat>)
    ensures |r| == n && forall i: nat :: i in r <==> i < n
  {
    if n == 0 then {} else Indices(n - 1) + {n - 1}
  }

  lemma AllIn(done: set<nat>, n: nat)
    requires done <= Indices(n) && |done| == n
    ensures done == Indices(n)
  {
    assert |Indices(n) - done| == 0;
  }

  /** `done` are the complete groups, which have k samples; `remaining` is the number of the others. */
  ghost predicate Counted(op: Op, d: Demand, groups: seq<Group>, done: set<nat>, remaining: int) {
    && done <= Indices(|groups|) && |done| + remaining == |groups|
    && forall g: nat | g < |groups| ::
         && (g in done <==> groups[g].seen && groups[g].complete)
         && (g in done ==> op == LIMITK && d.Limit? && |groups[g].heap| == d.k)
  }

  lemma FullIsFinal(d: Demand, sampler: Sampler, g: Group, some: seq<VectorSample>, all: seq<VectorSample>)
    requires d.Limit? && Holds(LIMITK, d, sampler, g, some) && g.seen && |g.heap| == d.k && some <= all
    ensures Holds(LIMITK, d, sampler, g, all)
  {
    assert some[..d.k] == all[..d.k];
  }

  /** Once all groups are complete, the series not looked at change nothing. */
  lemma CompleteIsFinal(op: Op, d: Demand, sampler: Sampler, groups: seq<Group>, done: set<nat>, orig: seq<Series>,
                        toGroup: seq<nat>, si: nat, ts: int)
    requires si <= |orig| == |toGroup| && op == LIMITK && d.Limit? && Counted(op, d, groups, done, 0)
    requires GroupsAfter(op, d, sampler, groups, orig, toGroup, si, ts)
    ensures GroupsAfter(op, d, sampler, groups, orig, toGroup, |orig|, ts)
  {
    AllIn(done, |groups|);
    forall g: nat | g < |groups| ensures Holds(op, d, sampler, groups[g], Members(orig, toGroup, g, ts)) {
      MembersPrefix(orig, toGroup, si, |orig|, g, ts);
      assert Holds(op, d, sampler, groups[g], MembersUpTo(orig, toGroup, si, g, ts)) && g in done;
      FullIsFinal(d, sampler, groups[g], MembersUpTo(orig, toGroup, si, g, ts), Members(orig, toGroup, g, ts));
    }
  }

  /** advanceRemainingSeries. */
  method AdvanceRemaining(ts: int, input: array<Series>, from: nat)
    requires from <= input.Length
    modifies input
    ensures forall k | 0 <= k < from :: input[k] == old(input[k])
    ensures forall k | from <= k < input.Length :: input[k] == Pop(old(input[k]), ts)
  {
    var i := from;
    while i < input.Length
      invariant from <= i <= input.Length
      invariant forall k | 0 <= k < from || i <= k < input.Length :: input[k] == old(input[k])
      invariant forall k | from <= k < i :: input[k] == Pop(old(input[k]), ts)
    {
      input[i] := Pop(input[i], ts);
      i := i + 1;
    }
  }

  /** What is emitted for a group, best first for topk and bottomk. */
  ghost predicate Emitted(op: Op, d: Demand, sampler: Sampler, h: Heap, xs: seq<VectorSample>) {
    match op
    case LIMITK => d.Limit? && FirstOf(h, xs, d.k)
    case LIMIT_RATIO => d.Ratio? && multiset(h) == multiset(Sampled(xs, d.r, sampler))
    case _ => d.Limit? && BestFirst(op, h) && Best(op, multiset(h), FloatsIn(xs), d.k)
  }

  method EmitGroup(op: Op, d: Demand, sampler: Sampler, g: Group, ghost xs: seq<VectorSample>) returns (h: Heap)
    requires Holds(op, d, sampler, g, xs)
    ensures Emitted(op, d, sampler, h, xs)
  {
    h := [];
    if !g.seen {
      return;
    }
    h := g.heap;
    if op == TOPK || op == BOTTOMK {
      if |h| > 1 {
        h := SortBestFirst(op, h);
      }
    }
  }

  method EmitGroups(op: Op, d: Demand, sampler: Sampler, groups: array<Group>, ghost orig: seq<Series>,
                    ghost toGroup: seq<nat>, ts: int)
    returns (out: seq<Heap>)
    requires |orig| == |toGroup| && GroupsAfter(op, d, sampler, groups[..], orig, toGroup, |orig|, ts)
    ensures |out| == groups.Length
    ensures Selects(d) ==> forall g: nat | g < |out| :: Emitted(op, d, sampler, out[g], Members(orig, toGroup, g, ts))
    ensures !Selects(d) ==> forall h | h in out :: h == []
  {
    out := [];
    var i := 0;
    while i < groups.Length
      invariant 0 <= i <= groups.Length && |out| == i
      invariant Selects(d) ==> forall g: nat | g < i :: Emitted(op, d, sampler, out[g], Members(orig, toGroup, g, ts))
      invariant !Selects(d) ==> forall h | h in out :: h == []
    {
      var h := [];
      if Selects(d) {
        h := EmitGroup(op, d, sampler, groups[i], Members(orig, toGroup, i, ts));
      }
      out := out + [h];
      i := i + 1;
    }
  }

  /** The first `n` series have had their heads popped. */
  ghost predicate AllPopped(input: seq<Series>, before: seq<Series>, n: nat, ts: int) {
    && |input| == |before|
    && (forall k | 0 <= k < |input| && k < n :: input[k] == Pop(before[k], ts))
    && (forall k | n <= k < |input| :: input[k] == before[k])
  }

  lemma CountedAfter(op: Op, d: Demand, groups: seq<Group>, gi: nat, g': Group, done: set<nat>, remaining: int,
                     full: bool)
    requires Counted(op, d, groups, done, remaining) && gi < |groups|
    requires g'.seen && g'.complete <==> gi in done || full
    requires full ==> gi !in done && op == LIMITK && d.Limit?
    requires gi in done || full ==> d.Limit? && |g'.heap| == d.k
    ensures Counted(op, d, groups[gi := g'],
                    if full then done + {gi} else done, if full then remaining - 1 else remaining)
  {
  }

  /** The groups and the count of unfinished ones after the first `si` series. */
  ghost predicate Progress(op: Op, d: Demand, sampler: Sampler, groups: seq<Group>, orig: seq<Series>,
                           toGroup: seq<nat>, si: nat, ts: int, done: set<nat>, remaining: int)
    requires si <= |orig| == |toGroup|
  {
    GroupsAfter(op, d, sampler, groups, orig, toGroup, si, ts) && Counted(op, d, groups, done, remaining)
  }

  /** Add a sample to its group, and count the group when that makes it complete. */
  method AddToGroup(op: Op, d: Demand, sampler: Sampler, groups: array<Group>, s: VectorSample, gi: nat, remaining: int,
                    ghost orig: seq<Series>, ghost toGroup: seq<nat>, ghost si: nat, ghost ts: int,
                    ghost done: set<nat>)
    returns (remaining': int, ghost done': set<nat>)
    requires (d.Limit? ==> d.k >= 1) && Selects(d)
    requires si < |orig| == |toGroup| && gi == toGroup[si] < groups.Length
    requires ValueAt(orig[si], ts).Some?
    requires s == VectorSample(orig[si].metric, ValueAt(orig[si], ts).value, orig[si].dropName)
    requires Progress(op, d, sampler, groups[..], orig, toGroup, si, ts, done, remaining)
    modifies groups
    ensures Progress(op, d, sampler, groups[..], orig, toGroup, si + 1, ts, done', remaining')
    ensures remaining' == 0 && remaining != 0 ==> op == LIMITK
  {
    ghost var xs := MembersUpTo(orig, toGroup, si, gi, ts);
    ghost var before := groups[..];
    var seen := groups[gi].seen;
    assert Holds(op, d, sampler, before[gi], xs) && (gi in done <==> before[gi].seen && before[gi].complete);
    var g := AddSample(op, d, sampler, groups[gi], s, xs);
    var full := seen && op == LIMITK && !g.complete && |g.heap| == d.k;
    if full {
      g := g.(complete := true);
    }
    remaining', done' := if full then remaining - 1 else remaining, if full then done + {gi} else done;
    GroupsAfterSample(op, d, sampler, before, g, orig, toGroup, si, ts);
    CountedAfter(op, d, before, gi, g, done, remaining, full);
    groups[gi] := g;
    assert groups[..] == before[gi := g];
  }

  /** nextValues: read the head at `ts` and move past it. */
  method NextValues(ts: int, input: array<Series>, si: nat, ghost before: seq<Series>) returns (v: Option<Value>)
    requires si < input.Length && AllPopped(input[..], before, si, ts)
    modifies input
    ensures v == Head(before[si], ts) && AllPopped(input[..], before, si + 1, ts)
  {
    var series := input[si];
    if |series.floats| > 0 && series.floats[0].t == ts {
      v := Some(F(series.floats[0].v));
      input[si] := series.(floats := series.floats[1..]);
    } else if |series.histograms| > 0 && series.histograms[0].t == ts {
      v := Some(H(series.histograms[0].v));
      input[si] := series.(histograms := series.histograms[1..]);
    } else {
      v := None;
    }
  }

  method ResetGroups(groups: array<Group>)
    modifies groups
    ensures forall g | 0 <= g < groups.Length :: !groups[g].seen
  {
    var i := 0;
    while i < groups.Length
      invariant 0 <= i <= groups.Length
      invariant forall g | 0 <= g < i :: !groups[g].seen
    {
      groups[i] := groups[i].(seen := false);
      i := i + 1;
    }
  }

  /** On the way out of the loop, move the other series past `ts` unless this is the last step. */
  method Leave(ts: int, end: int, input: array<Series>, from: nat, ghost before: seq<Series>)
    requires from <= input.Length && AllPopped(input[..], before, from, ts)
    modifies input
    ensures ts != end ==> AllPopped(input[..], before, input.Length, ts)
  {
    if ts != end {
      AdvanceRemaining(ts, input, from);
    }
  }

  lemma {:induction false} SomeSample(orig: seq<Series>, m: nat, n: nat, ts: int)
    requires m < n <= |orig| && ValueAt(orig[m], ts).Some?
    ensures VectorUpTo(orig, n, ts) != []
  {
    if m < n - 1 { SomeSample(orig, m, n - 1, ts); }
  }

  /** What the series loop leaves behind. */
  datatype Outcome = Failed | Empty | Selected

  /** A series without a sample at `ts` changes nothing. */
  lemma {:induction false} ProgressNothing(op: Op, d: Demand, sampler: Sampler, groups: seq<Group>, orig: seq<Series>,
                                           toGroup: seq<nat>, si: nat, ts: int, done: set<nat>, remaining: int)
    requires si < |orig| == |toGroup| && ValueAt(orig[si], ts).None?
    requires Progress(op, d, sampler, groups, orig, toGroup, si, ts, done, remaining)
    ensures Progress(op, d, sampler, groups, orig, toGroup, si + 1, ts, done, remaining)
  {
  }

  /** The sample of a series at `ts`. */
  method NextSample(ts: int, input: array<Series>, si: nat, ghost before: seq<Series>, ghost orig: Series,
                    ghost interval: int)
    returns (s: Option<VectorSample>)
    requires 0 < interval && si < input.Length && AllPopped(input[..], before, si, ts)
    requires TracksSeries(before[si], orig, ts, interval)
    modifies input
    ensures AllPopped(input[..], before, si + 1, ts)
    ensures s.Some? <==> ValueAt(orig, ts).Some?
    ensures s.Some? ==> s.value == VectorSample(orig.metric, ValueAt(orig, ts).value, orig.dropName)
  {
    PopTracks(before[si], orig, ts, ts + interval, interval);
    var v := NextValues(ts, input, si, before);
    s := if v.Some? then Some(VectorSample(input[si].metric, v.value, input[si].dropName)) else None;
  }

  lemma {:induction false} ProgressStart(op: Op, d: Demand, sampler: Sampler, groups: seq<Group>, orig: seq<Series>,
                                         toGroup: seq<nat>, ts: int)
    requires |orig| == |toGroup| && (forall g | 0 <= g < |groups| :: !groups[g].seen)
    requires d.Limit? <==> op != LIMIT_RATIO && Selects(d)
    ensures Progress(op, d, sampler, groups, orig, toGroup, 0, ts, {}, |groups|)
  {
  }

  /** One series: its sample, if it has one, goes to its group, unless the parameter asks for nothing or is out of
      range. */
  method SeriesStep(op: Op, d: Demand, sampler: Sampler, input: array<Series>, toGroup: seq<nat>, groups: array<Group>,
                    ts: int, si: nat, remaining: int, ghost before: seq<Series>, ghost orig: seq<Series>,
                    ghost interval: int, ghost done: set<nat>)
    returns (stop: bool, next: nat, remaining': int, ghost done': set<nat>)
    requires 0 < interval && si < input.Length && |before| == |orig| == |toGroup| == input.Length
    requires toGroup[si] < groups.Length
    requires TracksSeries(before[si], orig[si], ts, interval)
    requires d.Limit? ==> d.k >= 1
    requires AllPopped(input[..], before, si, ts)
    requires Progress(op, d, sampler, groups[..], orig, toGroup, si, ts, done, remaining)
    modifies input, groups
    ensures next == si + 1 && AllPopped(input[..], before, next, ts)
    ensures stop ==> !Selects(d) && VectorAt(orig, ts) != []
    ensures !stop ==> Progress(op, d, sampler, groups[..], orig, toGroup, next, ts, done', remaining')
    ensures !stop && remaining' == 0 && remaining != 0 ==> op == LIMITK && Selects(d)
  {
    stop, next, remaining', done' := false, si + 1, remaining, done;
    ghost var gs := groups[..];
    var s := NextSample(ts, input, si, before, orig[si], interval);
    assert groups[..] == gs;
    if s.None? {
      ProgressNothing(op, d, sampler, groups[..], orig, toGroup, si, ts, done, remaining);
      return;
    }
    if !Selects(d) {
      SomeSample(orig, si, |orig|, ts);
      stop := true;
      return;
    }
    ghost var rest := input[..];
    remaining',
      done' := AddToGroup(op, d, sampler, groups, s.value, toGroup[si], remaining, orig, toGroup, si, ts, done);
    assert input[..] == rest;
  }

  lemma {:induction false} ProgressEnds(op: Op, d: Demand, sampler: Sampler, groups: seq<Group>, orig: seq<Series>,
                                        toGroup: seq<nat>, ts: int, done: set<nat>, remaining: int)
    requires |orig| == |toGroup| && Progress(op, d, sampler, groups, orig, toGroup, |orig|, ts, done, remaining)
    ensures GroupsAfter(op, d, sampler, groups, orig, toGroup, |orig|, ts)
    ensures !Selects(d) ==> VectorAt(orig, ts) == []
  {
  }

  method SeriesLoop(op: Op, d: Demand, sampler: Sampler, input: array<Series>, toGroup: seq<nat>, groups: array<Group>,
                    ts: int, end: int, ghost before: seq<Series>, ghost orig: seq<Series>, ghost interval: int)
    returns (o: Outcome)
    requires 0 < interval && before == input[..] && Tracks(before, orig, ts, interval)
    requires |toGroup| == input.Length && (forall i | 0 <= i < |toGroup| :: toGroup[i] < groups.Length)
    requires (d.Limit? ==> d.k >= 1) && (d.Limit? <==> op != LIMIT_RATIO && Selects(d))
    requires forall g | 0 <= g < groups.Length :: !groups[g].seen
    modifies input, groups
    ensures o == Failed <==> (d.Overflow? || d.NotANumber?) && VectorAt(orig, ts) != []
    ensures o != Failed && ts != end ==> AllPopped(input[..], before, input.Length, ts)
    ensures o == Empty ==> d.Nothing? && VectorAt(orig, ts) != []
    ensures o == Selected ==> GroupsAfter(op, d, sampler, groups[..], orig, toGroup, |orig|, ts)
  {
    var remaining := groups.Length;
    ghost var done: set<nat> := {};
    var si: nat := 0;
    ProgressStart(op, d, sampler, groups[..], orig, toGroup, ts);
    while si < input.Length
      invariant si <= input.Length
      invariant AllPopped(input[..], before, si, ts)
      invariant Progress(op, d, sampler, groups[..], orig, toGroup, si, ts, done, remaining)
      decreases input.Length - si
    {
      var stop;
      var left := remaining;
      stop, si, remaining,
        done := SeriesStep(op, d, sampler, input, toGroup, groups, ts, si, remaining, before, orig, interval, done);
      if stop {
        if !d.Nothing? { return Failed; }
        Leave(ts, end, input, si, before);
        return Empty;
      }
      if remaining != left && remaining == 0 {
        CompleteIsFinal(op, d, sampler, groups[..], done, orig, toGroup, si, ts);
        ghost var gs := groups[..];
        Leave(ts, end, input, si, before);
        assert groups[..] == gs;
        return Selected;
      }
    }
    ProgressEnds(op, d, sampler, groups[..], orig, toGroup, ts, done, remaining);
    return Selected;
  }

  // ---------------------------------------------------------------- what is to be emitted

  /** `a <= b` of numbers that are not NaN. */
  predicate Leq(a: Float, b: Float) {
    match (a, b)
    case (Finite(x), Finite(y)) => x <= y
    case (NegInf, _) => !b.NaN?
    case (_, PosInf) => !a.NaN?
    case _ => false
  }

  /** `x` may be left out, or come later, where `y` is emitted: for topk it is not larger, for bottomk not smaller, and
      NaN comes last. */
  ghost predicate Yields(op: Op, x: VectorSample, y: VectorSample) {
    x.v.F? && y.v.F? &&
      (x.v.f.NaN? || if op == TOPK then Leq(x.v.f, y.v.f) else op == BOTTOMK && Leq(y.v.f, x.v.f))
  }

  /** `h` are `k` of the float samples `fs`, or all if there are fewer: those to which the others yield, in order. */
  ghost predicate Picks(op: Op, h: Heap, fs: seq<VectorSample>, k: nat) {
    && multiset(h) <= multiset(fs) && |h| == Min(k, |fs|)
    && (forall x, y | x in multiset(fs) - multiset(h) && y in multiset(h) :: Yields(op, x, y))
    && (forall i, j | 0 <= i < j < |h| :: Yields(op, h[j], h[i]))
  }

  /** What a group of topk, bottomk or limitk emits for `k`: of topk and bottomk histograms are left out. */
  ghost predicate EmitsK(op: Op, h: Heap, xs: seq<VectorSample>, k: nat) {
    if op == LIMITK then |h| == Min(k, |xs|) && multiset(h) == multiset(xs[..Min(k, |xs|)])
    else Picks(op, h, FloatsIn(xs), k)
  }

  lemma {:induction false} FloatsAreFloats(xs: seq<VectorSample>)
    ensures |FloatsIn(xs)| <= |xs| && forall x | x in FloatsIn(xs) :: x.v.F?
  {
    if xs != [] { FloatsAreFloats(xs[..|xs| - 1]); }
  }

  lemma {:induction false} FewMembers(orig: seq<Series>, toGroup: seq<nat>, n: nat, g: nat, ts: int)
    requires n <= |orig| == |toGroup|
    ensures |MembersUpTo(orig, toGroup, n, g, ts)| <= n
  {
    if n > 0 { FewMembers(orig, toGroup, n - 1, g, ts); }
  }

  lemma BetterYields(op: Op, x: VectorSample, y: VectorSample)
    requires (op == TOPK || op == BOTTOMK) && x.v.F? && y.v.F?
    ensures Yields(op, x, y) <==> NoBetter(op, x, y)
  {
  }

  lemma BestIsPicked(op: Op, h: Heap, fs: seq<VectorSample>, n: nat, k: nat)
    requires (op == TOPK || op == BOTTOMK) && (forall x | x in fs :: x.v.F?) && |fs| <= n
    requires BestFirst(op, h) && Best(op, multiset(h), fs, Min(k, n))
    ensures Picks(op, h, fs, k)
  {
    forall x | x in multiset(h) ensures x.v.F? {
      assert x in multiset(fs);
    }
    forall x, y | x in multiset(fs) - multiset(h) && y in multiset(h) ensures Yields(op, x, y) {
      assert x in multiset(fs);
      BetterYields(op, x, y);
    }
    forall i, j | 0 <= i < j < |h| ensures Yields(op, h[j], h[i]) {
      assert h[i] in multiset(h) && h[j] in multiset(h);
      BetterYields(op, h[j], h[i]);
    }
  }

  lemma EmittedIsRight(op: Op, sampler: Sampler, h: Heap, xs: seq<VectorSample>, n: nat, k: nat)
    requires op != LIMIT_RATIO && |xs| <= n && Emitted(op, Limit(Min(k, n)), sampler, h, xs)
    ensures EmitsK(op, h, xs, k)
  {
    FloatsAreFloats(xs);
    if op != LIMITK { BestIsPicked(op, h, FloatsIn(xs), n, k); }
  }

  lemma {:induction false} NoMembers(orig: seq<Series>, toGroup: seq<nat>, n: nat, g: nat, ts: int)
    requires n <= |orig| == |toGroup| && VectorUpTo(orig, n, ts) == []
    ensures MembersUpTo(orig, toGroup, n, g, ts) == []
  {
    if n > 0 { NoMembers(orig, toGroup, n - 1, g, ts); }
  }

  lemma NoMembersEmitted(op: Op, k: nat)
    requires op != LIMIT_RATIO
    ensures EmitsK(op, [], [], k)
  {
  }

  lemma AllEmitted(op: Op, param: Float, sampler: Sampler, out: seq<Heap>, orig: seq<Series>, toGroup: seq<nat>,
                   ts: int)
    requires |orig| == |toGroup| && (BadParam(op, param) ==> VectorAt(orig, ts) == [])
    requires var d := DemandOf(op, param, |orig|);
             if Selects(d) then
               forall g: nat | g < |out| :: Emitted(op, d, sampler, out[g], Members(orig, toGroup, g, ts))
             else forall h | h in out :: h == []
    ensures op != LIMIT_RATIO ==> forall k | WholePart(param, k) ::
              if k < 1 then forall h | h in out :: h == []
              else forall g: nat | g < |out| :: EmitsK(op, out[g], Members(orig, toGroup, g, ts), k)
    ensures op == LIMIT_RATIO ==> forall x | CutTo(param, x) ::
              if x == 0.0 then forall h | h in out :: h == []
              else forall g: nat | g < |out| ::
                     multiset(out[g]) == multiset(Sampled(Members(orig, toGroup, g, ts), Finite(x), sampler))
  {
    var n := |orig|;
    if op != LIMIT_RATIO {
      forall k, g: nat | WholePart(param, k) && 1 <= k && g < |out|
        ensures EmitsK(op, out[g], Members(orig, toGroup, g, ts), k)
      {
        FewMembers(orig, toGroup, n, g, ts);
        assert Truncate(param.x) == k;
        if n == 0 || BadParam(op, param) {
          assert out[g] in out;
          NoMembers(orig, toGroup, n, g, ts);
          NoMembersEmitted(op, k);
        } else {
          EmittedIsRight(op, sampler, out[g], Members(orig, toGroup, g, ts), n, k);
        }
      }
    }
  }

  /** aggregationK at one step: an error, or for every group what is emitted for it. Unless this is the last step, every
      series is moved past `ts`, whichever way the loop is left. */
  method AggregationK(op: Op, param: Float, sampler: Sampler, input: array<Series>, toGroup: seq<nat>,
                      groups: array<Group>, ts: int, end: int, ghost orig: seq<Series>, ghost next: int,
                      ghost interval: int)
    returns (r: Result<seq<Heap>, Demand>)
    requires 0 < interval && next == ts + interval && Tracks(input[..], orig, ts, interval)
    requires |toGroup| == input.Length && (forall i | 0 <= i < |toGroup| :: toGroup[i] < groups.Length)
    modifies input, groups
    ensures r.Err? <==> BadParam(op, param) && VectorAt(orig, ts) != []
    ensures r.Ok? && op != LIMIT_RATIO ==> forall k | WholePart(param, k) ::
              if k < 1 then forall h | h in r.value :: h == []
              else
                && |r.value| == groups.Length
                && forall g: nat | g < |r.value| :: EmitsK(op, r.value[g], Members(orig, toGroup, g, ts), k)
    ensures r.Ok? && op == LIMIT_RATIO ==> forall x | CutTo(param, x) ::
              if x == 0.0 then forall h | h in r.value :: h == []
              else
                && |r.value| == groups.Length
                && forall g: nat | g < |r.value| ::
                     multiset(r.value[g]) == multiset(Sampled(Members(orig, toGroup, g, ts), Finite(x), sampler))
    ensures r.Ok? && ts != end ==>
              Tracks(input[..], orig, next, interval) && forall i | 0 <= i < input.Length :: Head(input[i], ts).None?
  {
    var d := DemandOf(op, param, input.Length);
    ghost var before := input[..];
    ResetGroups(groups);
    var o := SeriesLoop(op, d, sampler, input, toGroup, groups, ts, end, before, orig, interval);
    if o == Failed {
      return Err(d);
    }
    if ts != end {
      PopsTrack(before, input[..], orig, ts, next, interval);
      forall i | 0 <= i < input.Length ensures Head(input[i], ts).None? {
        NoHeadBefore(input[i], ts, next, interval);
      }
    }
    if o == Empty {
      return Ok([]);
    }
    var out := EmitGroups(op, d, sampler, groups, orig, toGroup, ts);
    r := Ok(out);
    AllEmitted(op, param, sampler, out, orig, toGroup, ts);
  }

  lemma NoHeadBefore(s: Series, ts: int, next: int, interval: int)
    requires 0 < interval && next == ts + interval && OnSteps(s, next, interval)
    ensures Head(s, ts).None?
  {
    if s.floats != [] { StartsNoLater(s.floats[0].t, next, interval); }
    if s.histograms != [] { StartsNoLater(s.histograms[0].t, next, interval); }
  }
}
