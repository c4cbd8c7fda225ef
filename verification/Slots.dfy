/**
 The slots of a slice of histogram points and the objects in them
 (promql/engine.go, matrixIterSlice). A slot past the length keeps its object for
 reuse: a point that is copied in overwrites it, wherever else it may be in use.
 Objects are numbered here, so that all states of the slots can be written down.
 */
module Slots {
  import opened Prelude
  import opened SampleBuffer
  import opened Windows

  datatype Slot = Slot(t: int, ref: nat)

  /** The first `len` slots are points, the rest is spare; `heap` are the contents of the objects. */
  datatype Mem = Mem(slots: seq<Slot>, len: nat, heap: seq<Histogram>)

  predicate WellFormed(m: Mem) {
    m.len <= |m.slots| && forall i | 0 <= i < |m.slots| :: m.slots[i].ref < |m.heap|
  }

  /** The points of the slice, as the objects show them. */
  function Points(m: Mem): seq<HPoint>
    requires WellFormed(m)
  {
    seq(m.len, i requires 0 <= i < m.len => Point(m.slots[i].t, m.heap[m.slots[i].ref]))
  }

  // ---------------------------------------------------------------- the steps

  /** Append a point by copying it into the object of the first spare slot, or into a new one. */
  function PushCopy(m: Mem, t: int, h: Histogram): (m': Mem)
    requires WellFormed(m)
    ensures WellFormed(m') && m'.len == m.len + 1
  {
    if m.len < |m.slots| then
      var r := m.slots[m.len].ref;
      Mem(m.slots[m.len := Slot(t, r)], m.len + 1, m.heap[r := h])
    else
      Mem(m.slots + [Slot(t, |m.heap|)], m.len + 1, m.heap + [h])
  }

  /** Append a point that comes with its own object. */
  function PushRef(m: Mem, t: int, r: nat): (m': Mem)
    requires WellFormed(m) && r < |m.heap|
    ensures WellFormed(m') && m'.len == m.len + 1
  {
    var slots := if m.len < |m.slots| then m.slots[m.len := Slot(t, r)] else m.slots + [Slot(t, r)];
    Mem(slots, m.len + 1, m.heap)
  }

  /** A stale marker gives its slot back. */
  function TakeCopy(m: Mem, t: int, h: Histogram): (m': Mem)
    requires WellFormed(m)
    ensures WellFormed(m')
  {
    if IsStaleNaN(h.sum) then PushCopy(m, t, h).(len := m.len) else PushCopy(m, t, h)
  }

  function TakeRef(m: Mem, t: int, r: nat): (m': Mem)
    requires WellFormed(m) && r < |m.heap|
    ensures WellFormed(m')
  {
    if IsStaleNaN(m.heap[r].sum) then PushRef(m, t, r).(len := m.len) else PushRef(m, t, r)
  }

  /** The first `n` samples of a buffer, of which histograms after `mint` are copied in. */
  function Copied(m: Mem, run: seq<Sample>, n: nat, mint: int): (m': Mem)
    requires WellFormed(m) && n <= |run|
    ensures WellFormed(m')
  {
    if n == 0 then m
    else
      var before, s := Copied(m, run, n - 1, mint), run[n - 1];
      if s.HistogramSample? && mint < s.t then TakeCopy(before, s.t, s.h) else before
  }

  /** The sample that was sought, if it is a histogram exactly at `maxt`; `own` is its object, unless it is copied
      out. */
  function Sought(m: Mem, s: Sample, own: Option<nat>, maxt: int): (m': Mem)
    requires WellFormed(m) && (own.Some? ==> own.value < |m.heap|)
    ensures WellFormed(m')
  {
    if s.FloatSample? || s.t != maxt then m
    else if own.None? then TakeCopy(m, s.t, s.h)
    else TakeRef(m, s.t, own.value)
  }

  /** The first `d` points are moved behind the others. */
  function Rotated(m: Mem, d: nat): (m': Mem)
    requires WellFormed(m) && d <= m.len
    ensures WellFormed(m')
  {
    Mem(m.slots[d..m.len] + m.slots[..d] + m.slots[m.len..], m.len - d, m.heap)
  }

  // ---------------------------------------------------------------- slots with objects of their own

  /** No two slots have one object. */
  predicate Unshared(m: Mem) {
    forall a, b | 0 <= a < b < |m.slots| :: m.slots[a].ref != m.slots[b].ref
  }

  /** The object is in no slot. */
  predicate Elsewhere(m: Mem, r: nat) {
    forall i | 0 <= i < |m.slots| :: m.slots[i].ref != r
  }

  /** Objects that were in no slot are still in none, with the same contents. */
  ghost predicate Spares(m: Mem, m': Mem) {
    |m.heap| <= |m'.heap| &&
      forall r | 0 <= r < |m.heap| && Elsewhere(m, r) :: Elsewhere(m', r) && m'.heap[r] == m.heap[r]
  }

  lemma SparesTwice(a: Mem, b: Mem, c: Mem)
    requires Spares(a, b) && Spares(b, c)
    ensures Spares(a, c)
  {
  }

  lemma {:induction false} PushCopyKeeps(m: Mem, t: int, h: Histogram)
    requires WellFormed(m) && Unshared(m)
    ensures var m' := PushCopy(m, t, h);
            Unshared(m') && Spares(m, m') && Points(m') == Points(m) + [Point(t, h)] &&
              Points(m'.(len := m.len)) == Points(m)
  {
    var m' := PushCopy(m, t, h);
    forall i | 0 <= i < m.len ensures m'.slots[i] == m.slots[i] && m'.heap[m.slots[i].ref] == m.heap[m.slots[i].ref] {
    }
  }

  lemma {:induction false} TakeCopyKeeps(m: Mem, t: int, h: Histogram)
    requires WellFormed(m) && Unshared(m)
    ensures var m' := TakeCopy(m, t, h);
            Unshared(m') && Spares(m, m') && Points(m') == Grow(Points(m), HistogramSample(t, h), PickHistogram)
  {
    PushCopyKeeps(m, t, h);
  }

  lemma {:induction false} TakeRefKeeps(m: Mem, t: int, r: nat)
    requires WellFormed(m) && Unshared(m) && r < |m.heap| && Elsewhere(m, r)
    ensures var m' := TakeRef(m, t, r);
            && Unshared(m') && m'.heap == m.heap &&
               Points(m') == Grow(Points(m), HistogramSample(t, m.heap[r]), PickHistogram)
            && (forall x: nat | x != r && Elsewhere(m, x) :: Elsewhere(m', x))
  {
    var m' := PushRef(m, t, r);
    forall i | 0 <= i < m.len ensures m'.slots[i] == m.slots[i] {
    }
    assert Points(m') == Points(m) + [Point(t, m.heap[r])];
    assert Points(m'.(len := m.len)) == Points(m);
  }

  /** An object handed out keeps the slots apart exactly when it is in no slot but the one it replaces. */
  lemma {:induction false} TakeRefExactly(m: Mem, t: int, r: nat)
    requires WellFormed(m) && Unshared(m) && r < |m.heap|
    ensures Unshared(TakeRef(m, t, r)) <==> forall i | 0 <= i < |m.slots| && i != m.len :: m.slots[i].ref != r
  {
    var m' := TakeRef(m, t, r);
    assert m'.slots[m.len].ref == r;
    forall i | 0 <= i < |m.slots| && i != m.len ensures m'.slots[i] == m.slots[i] {
    }
  }

  lemma {:induction false} CopiedKeeps(m: Mem, run: seq<Sample>, n: nat, mint: int)
    requires WellFormed(m) && Unshared(m) && n <= |run|
    ensures var m' := Copied(m, run, n, mint);
            Unshared(m') && Spares(m, m') && Points(m') == Collect(Points(m), run, n, PickHistogram, mint)
  {
    if n > 0 {
      CopiedKeeps(m, run, n - 1, mint);
      var before, s := Copied(m, run, n - 1, mint), run[n - 1];
      if s.HistogramSample? && mint < s.t {
        TakeCopyKeeps(before, s.t, s.h);
        SparesTwice(m, before, TakeCopy(before, s.t, s.h));
      }
    }
  }

  // Slots that may share objects.

  /** No point has the object that a copy of `h` goes into, unless it shows `h` already. */
  predicate Harmless(m: Mem, h: Histogram)
    requires WellFormed(m)
  {
    m.len < |m.slots| ==>
      forall i | 0 <= i < m.len && m.slots[i].ref == m.slots[m.len].ref :: m.heap[m.slots[i].ref] == h
  }

  /** Whatever is shared, a copy changes no point that is shown if and only if it is harmless. */
  lemma {:induction false} TakeCopyExactly(m: Mem, t: int, h: Histogram)
    requires WellFormed(m)
    ensures Points(TakeCopy(m, t, h)) == Grow(Points(m), HistogramSample(t, h), PickHistogram) <==> Harmless(m, h)
  {
    var m' := TakeCopy(m, t, h);
    var want := Grow(Points(m), HistogramSample(t, h), PickHistogram);
    assert |Points(m')| == |want| && (m'.len > m.len ==> Points(m')[m.len] == Point(t, h) == want[m.len]);
    forall i | 0 <= i < m.len
      ensures Points(m')[i] == Points(m)[i] <==> m'.heap[m.slots[i].ref] == m.heap[m.slots[i].ref]
    {
      assert m'.slots[i] == m.slots[i];
    }
    if Harmless(m, h) {
      assert Points(m') == want;
    } else {
      var i :| 0 <= i < m.len && m.slots[i].ref == m.slots[m.len].ref && m.heap[m.slots[i].ref] != h;
      assert Points(m')[i] != want[i];
    }
  }

  /** The sample at `n` is not copied, or its copy is harmless. */
  predicate HarmlessAt(m: Mem, run: seq<Sample>, n: nat, mint: int)
    requires WellFormed(m) && n < |run|
  {
    run[n].HistogramSample? && mint < run[n].t ==> Harmless(Copied(m, run, n, mint), run[n].h)
  }

  /** Every copy of the first `n` samples is harmless. */
  predicate AllHarmless(m: Mem, run: seq<Sample>, n: nat, mint: int)
    requires WellFormed(m) && n <= |run|
  {
    forall k: nat | k < n :: HarmlessAt(m, run, k, mint)
  }

  /** The points are those there before and those of the first `k` samples of the buffer. */
  ghost predicate ShowsCopied(m: Mem, run: seq<Sample>, k: nat, mint: int)
    requires WellFormed(m) && k <= |run|
  {
    Points(Copied(m, run, k, mint)) == Collect(Points(m), run, k, PickHistogram, mint)
  }

  lemma {:induction false} NextCopyExactly(m: Mem, run: seq<Sample>, n: nat, mint: int)
    requires WellFormed(m) && n < |run| && ShowsCopied(m, run, n, mint)
    ensures ShowsCopied(m, run, n + 1, mint) <==> HarmlessAt(m, run, n, mint)
  {
    var s := run[n];
    if s.HistogramSample? && mint < s.t { TakeCopyExactly(Copied(m, run, n, mint), s.t, s.h); }
  }

  /** At all times while the first `n` samples are copied in. */
  ghost predicate AlwaysShows(m: Mem, run: seq<Sample>, n: nat, mint: int)
    requires WellFormed(m) && n <= |run|
  {
    forall k: nat | k <= n :: ShowsCopied(m, run, k, mint)
  }

  lemma AlwaysOneMore(m: Mem, run: seq<Sample>, n: nat, mint: int)
    requires WellFormed(m) && n < |run|
    ensures AlwaysShows(m, run, n + 1, mint) <==> AlwaysShows(m, run, n, mint) && ShowsCopied(m, run, n + 1, mint)
    ensures AlwaysShows(m, run, n, mint) ==> ShowsCopied(m, run, n, mint)
    ensures AllHarmless(m, run, n + 1, mint) <==> AllHarmless(m, run, n, mint) && HarmlessAt(m, run, n, mint)
  {
  }

  /** While a buffer is copied in, the points are at all times those there before and those copied so far if and only if
      every copy is harmless. */
  lemma {:induction false} CopiedExactly(m: Mem, run: seq<Sample>, n: nat, mint: int)
    requires WellFormed(m) && n <= |run|
    ensures AllHarmless(m, run, n, mint) <==> AlwaysShows(m, run, n, mint)
  {
    if n == 0 {
      assert ShowsCopied(m, run, 0, mint);
    } else {
      CopiedExactly(m, run, n - 1, mint);
      AlwaysOneMore(m, run, n - 1, mint);
      if AllHarmless(m, run, n - 1, mint) { NextCopyExactly(m, run, n - 1, mint); }
    }
  }

  /** Where the slot at `k` comes from under the rotation. */
  function Origin(m: Mem, d: nat, k: nat): (o: nat)
    requires WellFormed(m) && d <= m.len && k < |m.slots|
    ensures o < |m.slots| && Rotated(m, d).slots[k] == m.slots[o]
  {
    if k < m.len - d then k + d else if k < m.len then k - (m.len - d) else k
  }

  /** The rotation is a permutation of the slots. */
  lemma {:induction false} RotatedKeeps(m: Mem, d: nat)
    requires WellFormed(m) && Unshared(m) && d <= m.len
    ensures var m' := Rotated(m, d);
            Unshared(m') && Spares(m, m') && Points(m') == Points(m)[d..]
  {
    var m' := Rotated(m, d);
    forall a, b | 0 <= a < b < |m'.slots| ensures m'.slots[a].ref != m'.slots[b].ref {
      assert Origin(m, d, a) != Origin(m, d, b);
    }
    forall r | 0 <= r < |m.heap| && Elsewhere(m, r) ensures Elsewhere(m', r) {
      forall i | 0 <= i < |m'.slots| ensures m'.slots[i].ref != r {
        assert m'.slots[i] == m.slots[Origin(m, d, i)];
      }
    }
  }

  // ---------------------------------------------------------------- series that hand out their objects

  /** No two histograms of the series have one object; `inner` are the numbers of the objects, empty if histograms
      are copied out. */
  ghost predicate Apart(series: seq<Sample>, inner: seq<nat>) {
    inner != [] ==>
      && |inner| == |series|
      && forall k, n | 0 <= k < n < |series| && series[k].HistogramSample? && series[n].HistogramSample? ::
           inner[k] != inner[n]
  }

  /** The objects of the histograms from `from` on hold them, and those from `read` on are in no slot. */
  ghost predicate Aside(m: Mem, series: seq<Sample>, inner: seq<nat>, from: nat, read: nat) {
    inner != [] ==>
      && |inner| == |series|
      && forall k | 0 <= k < |series| && series[k].HistogramSample? ::
           && inner[k] < |m.heap|
           && (from <= k ==> m.heap[inner[k]] == series[k].h)
           && (read <= k ==> Elsewhere(m, inner[k]))
  }

  lemma AsideSpared(m: Mem, m': Mem, series: seq<Sample>, inner: seq<nat>, from: nat, read: nat)
    requires Aside(m, series, inner, from, read) && Spares(m, m') && read <= from
    ensures Aside(m', series, inner, from, from)
  {
  }

  lemma AsideRotated(m: Mem, d: nat, series: seq<Sample>, inner: seq<nat>, from: nat, read: nat)
    requires WellFormed(m) && Unshared(m) && d <= m.len && Aside(m, series, inner, from, read)
    ensures Aside(Rotated(m, d), series, inner, from, read)
  {
    RotatedKeeps(m, d);
  }

  /** The object of the sample at `k`, unless it is copied out. */
  function OwnOf(series: seq<Sample>, inner: seq<nat>, k: nat): Option<nat>
    requires k < |series|
  {
    if k < |inner| && series[k].HistogramSample? then Some(inner[k]) else None
  }

  lemma {:induction false} SoughtKeeps(m: Mem, series: seq<Sample>, inner: seq<nat>, k: nat, maxt: int)
    requires WellFormed(m) && Unshared(m) && k < |series| && Apart(series, inner) && Aside(m, series, inner, k, k)
    ensures var own := OwnOf(series, inner, k);
            && (own.Some? ==> own.value < |m.heap|)
            && var m' := Sought(m, series[k], own, maxt);
            && Unshared(m')
            && Points(m') == (if series[k].t == maxt then Grow(Points(m), series[k], PickHistogram) else Points(m))
            && Aside(m', series, inner, k, if series[k].t == maxt then k + 1 else k)
  {
    var own := OwnOf(series, inner, k);
    var s := series[k];
    if s.HistogramSample? && s.t == maxt {
      if own.None? {
        TakeCopyKeeps(m, s.t, s.h);
      } else {
        TakeRefKeeps(m, s.t, own.value);
      }
    }
  }
}
