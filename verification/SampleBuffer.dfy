/**
 The look-back buffer under every range selector (storage/buffer.go): a growing
 ring of samples, and the iterator that fills it while it seeks forward.
 */
module SampleBuffer {
  import opened Prelude

  const MIN_INT64: int := -0x8000_0000_0000_0000

  datatype Sample = FloatSample(t: int, f: Float) | HistogramSample(t: int, h: Histogram)

  /** Samples of one series, in time order, at most one per timestamp. */
  ghost predicate Sorted(s: seq<Sample>) {
    forall i, j | 0 <= i < j < |s| :: s[i].t < s[j].t
  }

  // ---------------------------------------------------------------- the ring

  /** The samples that remain when those older than `tmin` are freed from the front. */
  function DropBefore(s: seq<Sample>, tmin: int): seq<Sample> {
    if s != [] && s[0].t < tmin then DropBefore(s[1..], tmin) else s
  }

  /** Of samples in order those remain that are not older. */
  lemma {:induction false} DropBeforeExactly(s: seq<Sample>, tmin: int, x: Sample)
    requires Sorted(s)
    ensures x in DropBefore(s, tmin) <==> x in s && tmin <= x.t
    ensures |DropBefore(s, tmin)| <= |s| && DropBefore(s, tmin) == s[|s| - |DropBefore(s, tmin)|..]
  {
    if s != [] && s[0].t < tmin {
      DropBeforeExactly(s[1..], tmin, x);
      assert s == [s[0]] + s[1..];
    }
  }

  /** The `l` samples of a ring from position `f` on, oldest first. */
  function Unroll(b: seq<Sample>, f: nat, l: nat): (s: seq<Sample>)
    requires l <= |b| && f <= |b|
    ensures |s| == l
  {
    if f + l <= |b| then b[f..f + l] else b[f..] + b[..f + l - |b|]
  }

  /** The position `k` places after `f` in a ring of `n`. */
  function Wrap(f: int, k: int, n: int): int {
    if f + k >= n then f + k - n else f + k
  }

  lemma UnrollAt(b: seq<Sample>, f: nat, l: nat, k: nat)
    requires k < l <= |b| && f < |b|
    ensures Unroll(b, f, l)[k] == b[Wrap(f, k, |b|)]
  {
  }

  lemma UnrollPush(b: seq<Sample>, f: nat, l: nat, s: Sample)
    requires l < |b| && f < |b|
    ensures Unroll(b[Wrap(f, l, |b|) := s], f, l + 1) == Unroll(b, f, l) + [s]
  {
  }

  lemma UnrollPop(b: seq<Sample>, f: nat, l: nat)
    requires 0 < l <= |b| && f < |b|
    ensures Unroll(b, Wrap(f, 1, |b|), l - 1) == Unroll(b, f, l)[1..]
  {
  }

  /** Doubling a full ring: the part from `f` on moves to the end of the new buffer. */
  lemma UnrollGrow(b: seq<Sample>, b': seq<Sample>, f: nat)
    requires f < |b| && |b'| == 2 * |b|
    requires b'[..f] == b[..f] && b'[|b| + f..] == b[f..]
    ensures Unroll(b', f + |b|, |b|) == Unroll(b, f, |b|)
  {
  }

  /** A buffer of twice the size, with the part from `f` on moved to its end. */
  method Doubled(buf: array<Sample>, f: nat) returns (newBuf: array<Sample>)
    requires f < buf.Length
    ensures fresh(newBuf) && newBuf.Length == 2 * buf.Length
    ensures Unroll(newBuf[..], f + buf.Length, buf.Length) == Unroll(buf[..], f, buf.Length)
  {
    var n := buf.Length;
    newBuf := new Sample[2 * n](_ => FloatSample(0, Finite(0.0)));
    forall k | f <= k < n { newBuf[n + k] := buf[k]; }
    forall k | 0 <= k < f { newBuf[k] := buf[k]; }
    assert newBuf[..][..f] == buf[..][..f];
    assert newBuf[..][n + f..] == buf[..][f..];
    UnrollGrow(buf[..], newBuf[..], f);
  }

  class SampleRing {
    var delta: int
    var buf: array<Sample>
    var i: int  // position of most recent sample
    var f: int  // position of first sample
    var l: int  // number of samples

    ghost predicate Valid()
      reads this
    {
      && 0 <= delta
      && 0 <= l <= buf.Length
      && (l == 0 ==> f == 0 && i == -1)
      && (l > 0 ==> 0 <= f < buf.Length && i == Wrap(f, l - 1, buf.Length))
    }

    ghost function Contents(): (s: seq<Sample>)
      requires Valid()
      reads this, buf
    {
      Unroll(buf[..], f, l)
    }

    constructor (delta: int)
      requires 0 <= delta
      ensures Valid() && fresh(buf) && this.delta == delta && Contents() == []
    {
      this.delta := delta;
      buf := new Sample[0];
      i, f, l := -1, 0, 0;
    }

    method Reset()
      requires Valid()
      modifies this
      ensures Valid() && Contents() == [] && delta == old(delta) && buf == old(buf)
    {
      i, f, l := -1, 0, 0;
    }

    /** Choose the position of the next sample, with room for it: the first buffer holds 16 samples, a full one is
        doubled and unrolled. */
    method Reserve()
      requires Valid()
      modifies this
      ensures buf == old(buf) || fresh(buf)
      ensures delta == old(delta) && l == old(l) < buf.Length && 0 <= f < buf.Length
      ensures i == Wrap(f, l, buf.Length)
      ensures Unroll(buf[..], f, l) == old(Contents())
    {
      var n := buf.Length;
      if n == 0 {
        buf := new Sample[16](_ => FloatSample(0, Finite(0.0)));
        i := i + 1;
      } else if n == l {
        buf := Doubled(buf, f);
        i := f;
        f := f + n;
      } else {
        i := i + 1;
        if i >= n { i := i - n; }
      }
    }

    method Add(s: Sample)
      requires Valid()
      modifies this, buf
      ensures Valid() && delta == old(delta)
      ensures buf == old(buf) || fresh(buf)
      ensures Contents() == DropBefore(old(Contents()) + [s], s.t - delta)
    {
      Reserve();
      UnrollPush(buf[..], f, l, s);
      buf[i] := s;
      l := l + 1;
      FreeHead(s.t - delta);
    }

    /** The k-th oldest sample. */
    method Nth(k: nat) returns (s: Sample)
      requires Valid() && k < l
      ensures s == Contents()[k]
    {
      UnrollAt(buf[..], f, l, k);
      s := buf[Wrap(f, k, buf.Length)];
    }

    /** Free the oldest of several samples. */
    method Pop()
      requires Valid() && l > 1
      modifies this`f, this`l
      ensures Valid() && l == old(l) - 1 && Contents() == old(Contents())[1..]
    {
      UnrollPop(buf[..], f, l);
      f := f + 1;
      if f >= buf.Length { f := f - buf.Length; }
      l := l - 1;
    }

    /** Free the samples older than `tmin`, which the most recent one is not. */
    method FreeHead(tmin: int)
      requires Valid() && l > 0 && tmin <= buf[i].t
      modifies this`f, this`l
      ensures Valid() && l > 0
      ensures Contents() == DropBefore(old(Contents()), tmin)
    {
      UnrollAt(buf[..], f, l, 0);
      while buf[f].t < tmin
        invariant Valid() && 0 < l && Contents()[0] == buf[f]
        invariant DropBefore(old(Contents()), tmin) == DropBefore(Contents(), tmin)
        decreases l
      {
        ghost var before := Contents();
        Pop();
        assert DropBefore(before, tmin) == DropBefore(Contents(), tmin);
        UnrollAt(buf[..], f, l, 0);
      }
    }

    method ReduceDelta(d: int) returns (ok: bool)
      requires Valid() && 0 <= d
      modifies this`delta, this`f, this`l
      ensures Valid()
      ensures ok == (d <= old(delta))
      ensures !ok ==> delta == old(delta) && Contents() == old(Contents())
      ensures ok ==> delta == d
      ensures ok && old(l) == 0 ==> Contents() == []
      ensures ok && old(l) > 0 ==> Contents() == DropBefore(old(Contents()), old(Contents())[old(l) - 1].t - d)
    {
      if d > delta {
        return false;
      }
      delta := d;
      if l == 0 {
        return true;
      }
      UnrollAt(buf[..], f, l, l - 1);
      FreeHead(buf[i].t - delta);
      return true;
    }
  }

  // ---------------------------------------------------------------- the buffered iterator

  /** Dropping old samples from a run of a sorted series leaves a shorter run of it. */
  lemma {:induction false} DropBeforeRun(s: seq<Sample>, lo: nat, hi: nat, tmin: int) returns (lo': nat)
    requires lo <= hi <= |s|
    ensures lo <= lo' <= hi && DropBefore(s[lo..hi], tmin) == s[lo'..hi]
    ensures forall k | lo <= k < lo' :: s[k].t < tmin
    decreases hi - lo
  {
    if lo < hi && s[lo].t < tmin {
      assert s[lo..hi][1..] == s[lo + 1..hi];
      lo' := DropBeforeRun(s, lo + 1, hi, tmin);
    } else {
      lo' := lo;
    }
  }

  /** A run that ends before the first sample at `t` and starts before `t0` misses nothing in between. */
  lemma Reaches(s: seq<Sample>, lo: nat, pos: nat, t: int, t0: int)
    requires Sorted(s) && lo <= pos <= |s| && (pos < |s| ==> t <= s[pos].t)
    requires EarlierThan(s, pos, t) && EarlierThan(s, lo, t0)
    ensures forall k | pos <= k < |s| :: t <= s[k].t
    ensures forall k | 0 <= k < |s| && t0 <= s[k].t < t :: lo <= k < pos
  {
  }

  /** An object that holds a histogram. */
  class FloatHistogram {
    var content: Histogram

    constructor (content: Histogram)
      ensures this.content == content
    {
      this.content := content;
    }
  }

  /** The objects of the histogram samples of a series, for iterators that hand them out; none for those that copy. */
  ghost predicate Owned(series: seq<Sample>, own: seq<FloatHistogram?>) {
    own == [] || (|own| == |series| && forall k | 0 <= k < |series| && series[k].HistogramSample? :: own[k] != null)
  }

  /** The first `n` samples are before `t`. */
  ghost predicate EarlierThan(s: seq<Sample>, n: nat, t: int)
    requires n <= |s|
  {
    forall k | 0 <= k < n :: s[k].t < t
  }

  /** Where an iterator stands that was last sought to `sought`, and what its buffer can miss. */
  ghost predicate Placed(s: seq<Sample>, lo: nat, pos: nat, sought: int, delta: int, lastTime: int)
    requires lo <= pos <= |s|
  {
    && EarlierThan(s, pos, sought) && EarlierThan(s, lo, sought - delta)
    && (sought == MIN_INT64 ==> pos == 0 && lastTime == MIN_INT64)
    && (sought > MIN_INT64 && pos < |s| ==> sought <= lastTime == s[pos].t)
    && (sought > MIN_INT64 && pos == |s| ==> lastTime < sought)
  }

  class BufferedSeriesIterator {
    const series: seq<Sample>
    const own: seq<FloatHistogram?>
    const ring: SampleRing
    var pos: nat  // the current sample of the wrapped iterator, |series| when there is none
    var lastTime: int
    ghost var lo: nat  // the buffer holds series[lo..pos]
    ghost var sought: int  // the time of the last Seek

    ghost predicate Valid()
      reads this, ring, ring.buf
    {
      && Sorted(series)
      && MIN_INT64 <= sought
      && ring.Valid()
      && lo <= pos <= |series| && ring.Contents() == series[lo..pos]
      && Placed(series, lo, pos, sought, ring.delta, lastTime)
    }

    /** The objects from the current sample on hold what the series says. */
    ghost predicate Intact()
      requires Owned(series, own)
      reads this, own
    {
      own != [] ==> forall k | pos <= k < |series| && series[k].HistogramSample? :: own[k].content == series[k].h
    }

    /** The current sample, out of its object if it has one. */
    method Current() returns (s: Sample)
      requires Owned(series, own) && Intact() && pos < |series|
      ensures s == series[pos]
    {
      s := series[pos];
      if own != [] && s.HistogramSample? {
        s := HistogramSample(s.t, own[pos].content);
      }
    }

    /** The current histogram: copied into the given object, or in the series' own object. */
    method AtFloatHistogram(fh: FloatHistogram) returns (h: FloatHistogram)
      requires Owned(series, own) && pos < |series| && series[pos].HistogramSample?
      modifies fh
      ensures own == [] ==> h == fh && h.content == series[pos].h
      ensures own != [] ==> h == own[pos] && fh.content == old(fh.content)
    {
      if own == [] {
        fh.content := series[pos].h;
        h := fh;
      } else {
        h := own[pos];
      }
    }

    /** NewBuffer followed by Reset: the wrapped iterator stands on the first sample. */
    constructor (series: seq<Sample>, own: seq<FloatHistogram?>, delta: int)
      requires Sorted(series) && 0 <= delta
      ensures Valid() && fresh(ring) && fresh(ring.buf)
      ensures this.series == series && this.own == own && ring.delta == delta && sought == MIN_INT64 && pos == 0
    {
      this.series, this.own := series, own;
      ring := new SampleRing(delta);
      pos, lastTime := 0, MIN_INT64;
      lo, sought := 0, MIN_INT64;
    }

    /** Add the current sample to the buffer and advance. */
    method Next()
      requires ring.Valid() && Sorted(series) && Owned(series, own) && Intact()
      requires lo <= pos < |series| && ring.Contents() == series[lo..pos]
      modifies this`pos, this`lastTime, this`lo, ring, ring.buf
      ensures ring.Valid() && ring.delta == old(ring.delta)
      ensures ring.buf == old(ring.buf) || fresh(ring.buf)
      ensures pos == old(pos) + 1
      ensures lastTime == if pos < |series| then series[pos].t else old(lastTime)
      ensures old(lo) <= lo <= pos && ring.Contents() == series[lo..pos]
      ensures forall k | old(lo) <= k < lo :: series[k].t < series[old(pos)].t - ring.delta
    {
      assert series[lo..pos] + [series[pos]] == series[lo..pos + 1];
      var s := Current();
      ring.Add(s);
      lo := DropBeforeRun(series, lo, pos + 1, series[pos].t - ring.delta);
      pos := pos + 1;
      if pos < |series| {
        lastTime := series[pos].t;
      }
    }

    /** The wrapped iterator's own Seek, with nothing kept in the buffer. */
    method Jump(t0: int)
      requires ring.Valid() && pos <= |series|
      requires EarlierThan(series, pos, t0)
      modifies this`pos, this`lo, ring
      ensures ring.Valid() && ring.delta == old(ring.delta) && ring.buf == old(ring.buf) && ring.Contents() == []
      ensures lo == pos <= |series| && old(pos) <= pos
      ensures EarlierThan(series, pos, t0)
      ensures pos < |series| ==> t0 <= series[pos].t
    {
      ring.Reset();
      while pos < |series| && series[pos].t < t0
        invariant old(pos) <= pos <= |series|
        invariant EarlierThan(series, pos, t0)
        modifies this`pos
      {
        pos := pos + 1;
      }
      lo := pos;
    }

    /** Advance one sample at a time until `t` is reached. */
    method Advance(t: int)
      requires ring.Valid() && Sorted(series) && Owned(series, own) && Intact()
      requires lo <= pos <= |series| && ring.Contents() == series[lo..pos]
      requires if pos < |series| then lastTime == series[pos].t else lastTime < t
      requires EarlierThan(series, pos, t)
      requires EarlierThan(series, lo, t - ring.delta)
      modifies this`pos, this`lastTime, this`lo, ring, ring.buf
      ensures ring.Valid() && ring.delta == old(ring.delta)
      ensures ring.buf == old(ring.buf) || fresh(ring.buf)
      ensures lo <= pos <= |series| && ring.Contents() == series[lo..pos] && old(pos) <= pos && Intact()
      ensures if pos < |series| then t <= lastTime == series[pos].t else lastTime < t
      ensures EarlierThan(series, pos, t)
      ensures EarlierThan(series, lo, t - ring.delta)
    {
      while pos < |series| && lastTime < t
        invariant ring.Valid() && ring.delta == old(ring.delta) && Intact() && old(pos) <= pos
        invariant ring.buf == old(ring.buf) || fresh(ring.buf)
        invariant lo <= pos <= |series| && ring.Contents() == series[lo..pos]
        invariant if pos < |series| then lastTime == series[pos].t else lastTime < t
        invariant EarlierThan(series, pos, t)
        invariant EarlierThan(series, lo, t - ring.delta)
      {
        Next();
      }
    }

    /** Skip what lies before the reach of the buffer. */
    method SkipAhead(t0: int) returns (ended: bool)
      requires Valid() && Owned(series, own) && Intact() && sought - ring.delta <= t0 && MIN_INT64 < t0
      modifies this`pos, this`lastTime, this`lo, ring
      ensures ring.Valid() && ring.delta == old(ring.delta) && ring.buf == old(ring.buf)
      ensures Intact() && old(pos) <= pos
      ensures lo <= pos <= |series| && ring.Contents() == series[lo..pos]
      ensures ended ==> pos == |series| && lastTime < t0
      ensures pos < |series| ==> lastTime == series[pos].t
      ensures !ended && pos == |series| ==> lastTime == old(lastTime) && pos == old(pos)
      ensures EarlierThan(series, pos, Max(t0, sought))
      ensures EarlierThan(series, lo, t0)
    {
      ended := false;
      if pos < |series| && t0 > lastTime {
        Jump(t0);
        ended := pos == |series|;
        if !ended {
          lastTime := series[pos].t;
        }
      }
    }

    /** Past what lies before the reach of the buffer, then one sample at a time. */
    method MoveTo(t: int)
      requires Valid() && Owned(series, own) && Intact() && sought <= t && MIN_INT64 < t - ring.delta
      modifies this`pos, this`lastTime, this`lo, ring, ring.buf
      ensures ring.Valid() && ring.delta == old(ring.delta)
      ensures ring.buf == old(ring.buf) || fresh(ring.buf)
      ensures lo <= pos <= |series| && ring.Contents() == series[lo..pos] && old(pos) <= pos && Intact()
      ensures Placed(series, lo, pos, t, ring.delta, lastTime)
    {
      var ended := SkipAhead(t - ring.delta);
      if !ended {
        Advance(t);
      }
    }

    /** Advance to the first sample at or after `t`. Afterwards the buffer holds a run of the series that ends just
        before that sample and misses nothing from `t - delta` on. */
    method Seek(t: int)
      requires Valid() && Owned(series, own) && Intact() && sought <= t && MIN_INT64 < t - ring.delta
      modifies this, ring, ring.buf
      ensures Valid() && Intact() && sought == t && old(pos) <= pos
      ensures ring.delta == old(ring.delta)
      ensures ring.buf == old(ring.buf) || fresh(ring.buf)
      ensures EarlierThan(series, pos, t)
      ensures forall k | pos <= k < |series| :: t <= series[k].t
      ensures forall k | 0 <= k < |series| && t - ring.delta <= series[k].t < t :: lo <= k < pos
    {
      MoveTo(t);
      sought := t;
      Reaches(series, lo, pos, t, t - ring.delta);
    }

    /** The buffered samples, oldest first. */
    method Buffer() returns (samples: seq<Sample>)
      requires Valid()
      ensures samples == series[lo..pos]
    {
      samples := [];
      var k := 0;
      while k < ring.l
        invariant 0 <= k <= ring.l && samples == ring.Contents()[..k]
      {
        var s := ring.Nth(k);
        samples := samples + [s];
        k := k + 1;
      }
    }

    method ReduceDelta(d: int)
      requires Valid() && 0 <= d
      modifies this`lo, ring`delta, ring`f, ring`l
      ensures Valid()
      ensures ring.delta == Min(d, old(ring.delta))
    {
      ghost var last := series[lo..pos];
      var ok := ring.ReduceDelta(d);
      if ok && last != [] {
        lo := DropBeforeRun(series, lo, pos, last[|last| - 1].t - d);
      }
    }
  }
}
