// The older benchmark harness (Performance.cpp at the repository root):
// the functors read their arguments straight from the float stream on
// every call, from its first float on, and only the two intersection tests
// are timed. A functor's `size` is meant to be the floats one iteration
// reads; the capsule functor declares 11 but reads 13. The intersection
// tests are the root Intersect.h's `hitSphere` and `hitCapsule`, which
// modules Intersect and LegacyIntersect model; the functors discard their
// hits, so here the tests are parameters (`Benchmarks.Externals`).

module LegacyBenchmarks {
  import N = Intersect
  import B = Benchmarks
  import T = Timers

  /** The two streaming functors. */
  datatype Kind = HitSphere | HitCapsule

  /** The record layout each functor reads, shared with the newer harness. */
  function Layout(k: Kind): B.Kind
  {
    match k
    case HitSphere => B.HitSphere
    case HitCapsule => B.HitCapsule
  }

  /** The floats one iteration reads: a ray, then a sphere or a capsule. */
  function FloatsRead(k: Kind): (r: nat)
    ensures r == B.Size(Layout(k))
    ensures k == HitSphere ==> r == 10
    ensures k == HitCapsule ==> r == 13
  {
    match k
    case HitSphere => 3 + 3 + 3 + 1
    case HitCapsule => 3 + 3 + 3 + 3 + 1
  }

  /** The functor's `size` as declared. */
  function DeclaredSizeAsWritten(k: Kind): (r: nat)
    ensures k == HitSphere ==> r == FloatsRead(k)
    ensures k == HitCapsule ==> r == 11 && r < FloatsRead(k)
  {
    match k
    case HitSphere => 10
    case HitCapsule => 11
  }

  /** The functor's `size` as it is meant to be: what an iteration reads. */
  function DeclaredSize(k: Kind): (r: nat)
    ensures r == FloatsRead(k)
  {
    match k
    case HitSphere => 10
    case HitCapsule => 13
  }

  /** `n` records of `size` floats fit in `count` floats exactly when `n * size <= count`. */
  lemma RecordsFit(n: nat, size: nat, count: nat)
    requires size > 0
    ensures n <= count / size <==> n * size <= count
  {
    var q := count / size;
    assert q * size <= count < q * size + size;
    if n <= q {
      if n < q {
        B.RecordsBefore(n, q, size);
      }
    } else {
      B.RecordsBefore(q, n, size);
    }
  }

  /**
   * Streaming data sized by the declared `size` of the capsule functor: the
   * iterations read past its end as soon as there is one.
   */
  lemma DeclaredSizeAsWrittenOverruns(iterations: nat)
    requires iterations >= 1
    ensures iterations * FloatsRead(HitCapsule) > iterations * DeclaredSizeAsWritten(HitCapsule)
    ensures !(iterations <= (iterations * DeclaredSizeAsWritten(HitCapsule)) / FloatsRead(HitCapsule))
  {
    RecordsFit(iterations, FloatsRead(HitCapsule), iterations * DeclaredSizeAsWritten(HitCapsule));
  }

  /** Data sized by the intended `size` holds every iteration's floats, for both functors. */
  lemma DeclaredSizeSuffices(k: Kind, iterations: nat)
    ensures iterations <= (iterations * DeclaredSize(k)) / FloatsRead(k)
  {
    RecordsFit(iterations, FloatsRead(k), iterations * DeclaredSize(k));
  }

  /** The intersection test of a functor on one record; its hit is discarded by the caller. */
  function Test(ext: B.Externals, k: Kind, args: B.Args): (r: N.Option<N.Hit>)
    requires B.Fits(Layout(k), args)
    ensures k == HitSphere ==> r == ext.hitSphere(args.ray, args.sphere)
    ensures k == HitCapsule ==> r == ext.hitCapsule(args.ray, args.capsule)
  {
    match k
    case HitSphere => ext.hitSphere(args.ray, args.sphere)
    case HitCapsule => ext.hitCapsule(args.ray, args.capsule)
  }

  /**
   * `operator()(data, iterations)`: iteration `ii` reads the record at
   * `ii * FloatsRead(k)` and runs the test on it. There is no bounds check,
   * so the caller must provide `iterations` whole records.
   */
  method Stream(ext: B.Externals, k: Kind, data: seq<real>, iterations: nat) returns (hits: seq<N.Option<N.Hit>>)
    requires iterations <= |data| / FloatsRead(k)
    ensures |hits| == iterations
    ensures forall ii :: 0 <= ii < iterations ==> hits[ii] == Test(ext, k, B.Inputs(Layout(k), data)[ii])
  {
    var size := FloatsRead(k);
    ghost var records := B.Inputs(Layout(k), data);
    hits := [];
    var v := 0;
    var ii := 0;
    while ii < iterations
      invariant 0 <= ii <= iterations && v == ii * size && |hits| == ii
      invariant forall j :: 0 <= j < ii ==> hits[j] == Test(ext, k, records[j])
    {
      B.SliceInBounds(ii, |data|, size);
      var args := B.Unpack(Layout(k), data[v .. v + size]);
      hits := hits + [Test(ext, k, args)];
      assert (ii + 1) * size == v + size;
      v := v + size;
      ii := ii + 1;
    }
  }

  /** `testPerformanceSingle`: a fresh timer around one streaming run. */
  method TimeRun(ext: B.Externals, k: Kind, data: seq<real>, iterations: nat, reading: B.Reading, freq: int)
    returns (micros: real)
    requires iterations <= |data| / FloatsRead(k) && freq > 0
    ensures micros == B.Elapsed(freq, reading)
  {
    var timer := new T.Timer();
    timer.Start(reading.start);
    var hits := Stream(ext, k, data, iterations);
    timer.Stop(reading.stop);
    micros := timer.Microseconds(freq);
  }

  /**
   * `testPerformance`: the warm-up rounds untimed, then `LoopCount` timed
   * rounds over the three backends; each backend's timings are sorted in
   * place and the element at `LoopCount / 2` is reported, with the first
   * backend's timing as a percentage of each of the others'.
   */
  method TestPerformance(ext: B.Externals, k: Kind, data: seq<real>, iterations: nat, clock: seq<B.Reading>, freq: int)
    returns (timing: seq<real>, ratio1: real, ratio2: real)
    requires iterations <= |data| / FloatsRead(k) && freq > 0 && |clock| == 3 * (B.WarmUpCount + B.LoopCount)
    ensures |timing| == 3 && B.IsMedianOf(timing[0], B.Measured(clock, freq, 0))
            && B.IsMedianOf(timing[1], B.Measured(clock, freq, 1)) && B.IsMedianOf(timing[2], B.Measured(clock, freq, 2))
    ensures ratio1 == B.Percent(timing[0], timing[1]) && ratio2 == B.Percent(timing[0], timing[2])
  {
    WarmUp(ext, k, data, iterations, clock, freq);
    var row0, row1, row2 := MeasureRows(ext, k, data, iterations, clock, freq);
    timing := B.Medians(row0, row1, row2, B.Measured(clock, freq, 0), B.Measured(clock, freq, 1), B.Measured(clock, freq, 2));
    ratio1 := B.Percent(timing[0], timing[1]);
    ratio2 := B.Percent(timing[0], timing[2]);
  }

  /** The warm-up rounds: every backend streams `WarmUpCount` times, untimed. */
  method WarmUp(ext: B.Externals, k: Kind, data: seq<real>, iterations: nat, clock: seq<B.Reading>, freq: int)
    requires iterations <= |data| / FloatsRead(k) && freq > 0 && |clock| == 3 * (B.WarmUpCount + B.LoopCount)
  {
    var ii := 0;
    while ii < B.WarmUpCount
    {
      var t0 := TimeRun(ext, k, data, iterations, clock[3 * ii], freq);
      var t1 := TimeRun(ext, k, data, iterations, clock[3 * ii + 1], freq);
      var t2 := TimeRun(ext, k, data, iterations, clock[3 * ii + 2], freq);
      ii := ii + 1;
    }
  }

  /** The measured rounds: row `b` holds backend `b`'s timings, round by round. */
  method MeasureRows(ext: B.Externals, k: Kind, data: seq<real>, iterations: nat, clock: seq<B.Reading>, freq: int)
    returns (row0: array<real>, row1: array<real>, row2: array<real>)
    requires iterations <= |data| / FloatsRead(k) && freq > 0 && |clock| == 3 * (B.WarmUpCount + B.LoopCount)
    ensures fresh(row0) && fresh(row1) && fresh(row2) && row0 != row1 && row1 != row2 && row0 != row2
    ensures row0[..] == B.Measured(clock, freq, 0) && row1[..] == B.Measured(clock, freq, 1)
            && row2[..] == B.Measured(clock, freq, 2)
  {
    row0 := new real[B.LoopCount];
    row1 := new real[B.LoopCount];
    row2 := new real[B.LoopCount];
    var ii := 0;
    while ii < B.LoopCount
      invariant 0 <= ii <= B.LoopCount
      invariant forall j :: 0 <= j < ii ==> row0[j] == B.Measured(clock, freq, 0)[j]
      invariant forall j :: 0 <= j < ii ==> row1[j] == B.Measured(clock, freq, 1)[j]
      invariant forall j :: 0 <= j < ii ==> row2[j] == B.Measured(clock, freq, 2)[j]
    {
      MeasuredRound(ext, k, data, iterations, clock, freq, ii, row0, row1, row2);
      ii := ii + 1;
    }
  }

  /** Measured round `ii`: each backend's run is timed into its row at `ii`; the rest of the rows is kept. */
  method MeasuredRound(ext: B.Externals, k: Kind, data: seq<real>, iterations: nat, clock: seq<B.Reading>, freq: int,
                       ii: nat, row0: array<real>, row1: array<real>, row2: array<real>)
    requires iterations <= |data| / FloatsRead(k) && freq > 0 && |clock| == 3 * (B.WarmUpCount + B.LoopCount)
    requires ii < B.LoopCount && row0.Length == row1.Length == row2.Length == B.LoopCount
    requires row0 != row1 && row1 != row2 && row0 != row2
    modifies row0, row1, row2
    ensures row0[ii] == B.Measured(clock, freq, 0)[ii] && row1[ii] == B.Measured(clock, freq, 1)[ii]
            && row2[ii] == B.Measured(clock, freq, 2)[ii]
    ensures forall j :: 0 <= j < B.LoopCount && j != ii ==>
              row0[j] == old(row0[j]) && row1[j] == old(row1[j]) && row2[j] == old(row2[j])
  {
    var at := 3 * B.WarmUpCount + 3 * ii;
    var t0 := TimeRun(ext, k, data, iterations, clock[at], freq);
    var t1 := TimeRun(ext, k, data, iterations, clock[at + 1], freq);
    var t2 := TimeRun(ext, k, data, iterations, clock[at + 2], freq);
    row0[ii], row1[ii], row2[ii] := t0, t1, t2;
  }
}
