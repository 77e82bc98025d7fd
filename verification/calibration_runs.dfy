/**
 Properties of whole calibration sessions: sequences of readings fed to
 `mag_calib_update`, arbitrary interleavings of the entry points, the
 teardown run twice, and the validity check on chosen calibrations.
 */
module CalibrationRuns {
  import opened Geometry
  import SphereFit
  import opened MagCalib

  /** The coordinates of one axis across a sequence of readings. */
  function Column(samples: seq<Vec3>, a: Axis): (col: seq<real>)
    ensures |col| == |samples|
    ensures forall i :: 0 <= i < |samples| ==> col[i] == samples[i].Get(a)
  {
    seq(|samples|, i requires 0 <= i < |samples| => samples[i].Get(a))
  }

  function Min(a: nat, b: nat): (m: nat) {
    if a < b then a else b
  }

  /** A session after a run of updates, with the value each update returned. */
  datatype Trace = Trace(s: Session, replies: seq<bool>)

  /** Feeds the readings one by one to `Update` on a started session. */
  function Feed(s: Session, samples: seq<Vec3>, sqrtf: real -> real): (t: Trace)
    requires s.Valid() && s.AllLive()
    ensures t.s.Valid() && t.s.AllLive()
    ensures |t.replies| == |samples|
    ensures t.s.saves == s.saves
    decreases |samples|
  {
    if samples == [] then Trace(s, [])
    else
      var r := Update(s, samples[0], sqrtf);
      var rest := Feed(r.s, samples[1..], sqrtf);
      Trace(rest.s, [r.complete] + rest.replies)
  }

  /** The fit depends on nothing but the three buffers. */
  lemma FitCalibrationOfBuffers(s: Session, s': Session, sqrtf: real -> real)
    requires s.AllLive() && MAG_SAMPLE <= |s.mx.cells| && MAG_SAMPLE <= |s.my.cells| && MAG_SAMPLE <= |s.mz.cells|
    requires s'.mx == s.mx && s'.my == s.my && s'.mz == s.mz
    ensures FitCalibration(s', sqrtf) == FitCalibration(s, sqrtf)
  {
  }

  /** Taking one more column entry in front of a prefix. */
  lemma ColumnPrefix(samples: seq<Vec3>, a: Axis, k: nat)
    requires 0 < |samples| && k < |samples|
    ensures Column(samples, a)[..k + 1] == [samples[0].Get(a)] + Column(samples[1..], a)[..k]
  {
    var lhs := Column(samples, a)[..k + 1];
    var rhs := [samples[0].Get(a)] + Column(samples[1..], a)[..k];
    assert |lhs| == |rhs|;
    forall i | 0 <= i < |lhs|
      ensures lhs[i] == rhs[i]
    {
      if i > 0 {
        assert rhs[i] == Column(samples[1..], a)[i - 1];
        assert samples[1..][i - 1] == samples[i];
      }
    }
  }

  /** Unfolds one step of `Feed`. */
  lemma FeedStep(s: Session, samples: seq<Vec3>, sqrtf: real -> real)
    requires s.Valid() && s.AllLive() && samples != []
    ensures var r := Update(s, samples[0], sqrtf);
            var rest := Feed(r.s, samples[1..], sqrtf);
            Feed(s, samples, sqrtf) == Trace(rest.s, [r.complete] + rest.replies)
  {
  }

  /** Feeding n readings to a session with count c leaves the counter at min(c + n, MAG_SAMPLE). */
  lemma {:induction false} FeedCount(s: Session, samples: seq<Vec3>, sqrtf: real -> real)
    requires s.Valid() && s.AllLive()
    ensures Feed(s, samples, sqrtf).s.count == Min(s.count + |samples|, MAG_SAMPLE)
    decreases |samples|
  {
    if samples != [] {
      var r := Update(s, samples[0], sqrtf);
      FeedCount(r.s, samples[1..], sqrtf);
    }
  }

  /** The i-th update of the run answers true exactly when c + i has reached the capacity. */
  lemma {:induction false} FeedReplies(s: Session, samples: seq<Vec3>, sqrtf: real -> real)
    requires s.Valid() && s.AllLive()
    ensures forall i :: 0 <= i < |samples| ==> (Feed(s, samples, sqrtf).replies[i] <==> s.count + i >= MAG_SAMPLE)
    decreases |samples|
  {
    if samples != [] {
      var r := Update(s, samples[0], sqrtf);
      var tr := Feed(r.s, samples[1..], sqrtf);
      FeedReplies(r.s, samples[1..], sqrtf);
      FeedStep(s, samples, sqrtf);
      var t := Feed(s, samples, sqrtf);
      forall i | 0 <= i < |samples|
        ensures t.replies[i] <==> s.count + i >= MAG_SAMPLE
      {
        if i > 0 {
          assert t.replies[i] == tr.replies[i - 1];
        }
      }
    }
  }

  /** An update on a session that is not full appends the reading's component to each buffer. */
  lemma UpdateAppends(s: Session, mag: Vec3, sqrtf: real -> real, a: Axis)
    requires s.Valid() && s.AllLive() && s.count < MAG_SAMPLE
    ensures Update(s, mag, sqrtf).s.Pointer(a).cells == s.Pointer(a).cells + [mag.Get(a)]
  {
    var cells := Update(s, mag, sqrtf).s.Pointer(a).cells;
    assert cells[..s.count] == s.Pointer(a).cells;
    assert cells == cells[..s.count] + [cells[s.count]];
  }

  /** Each buffer gains, in order, the readings that fit before the capacity is reached. */
  lemma {:induction false} FeedCells(s: Session, samples: seq<Vec3>, sqrtf: real -> real, a: Axis)
    requires s.Valid() && s.AllLive()
    ensures var t := Feed(s, samples, sqrtf);
            s.count <= t.s.count <= s.count + |samples|
            && t.s.Pointer(a).cells == s.Pointer(a).cells + Column(samples, a)[..t.s.count - s.count]
    decreases |samples|
  {
    FeedCount(s, samples, sqrtf);
    if samples != [] {
      var r := Update(s, samples[0], sqrtf);
      FeedCells(r.s, samples[1..], sqrtf, a);
      FeedStep(s, samples, sqrtf);
      if s.count < MAG_SAMPLE {
        var final := Feed(r.s, samples[1..], sqrtf).s;
        UpdateAppends(s, samples[0], sqrtf, a);
        FillingStep(s.Pointer(a).cells, r.s.Pointer(a).cells, final.Pointer(a).cells,
                    samples, a, final.count - r.s.count);
      } else {
        FeedCount(r.s, samples[1..], sqrtf);
      }
    }
  }

  /** The inductive step of `FeedCells` for a session that is not yet full, on the cells alone. */
  lemma FillingStep(before: seq<real>, after: seq<real>, final: seq<real>, samples: seq<Vec3>, a: Axis, k: nat)
    requires 0 < |samples| && k < |samples|
    requires after == before + [samples[0].Get(a)]
    requires final == after + Column(samples[1..], a)[..k]
    ensures final == before + Column(samples, a)[..k + 1]
  {
    ColumnPrefix(samples, a, k);
    calc {
      final;
      before + [samples[0].Get(a)] + Column(samples[1..], a)[..k];
      before + ([samples[0].Get(a)] + Column(samples[1..], a)[..k]);
    }
  }

  /**
   While the buffers are filling the stored calibration is untouched; once
   any update of the run completed, it is the fit of the final, full buffers.
   */
  lemma {:induction false} FeedCalibration(s: Session, samples: seq<Vec3>, sqrtf: real -> real)
    requires s.Valid() && s.AllLive()
    ensures var t := Feed(s, samples, sqrtf);
            && (s.count + |samples| <= MAG_SAMPLE ==> t.s.cal == s.cal)
            && (s.count + |samples| > MAG_SAMPLE ==>
                  && |t.s.mx.cells| == MAG_SAMPLE && |t.s.my.cells| == MAG_SAMPLE && |t.s.mz.cells| == MAG_SAMPLE
                  && t.s.cal == FitCalibration(t.s, sqrtf))
    decreases |samples|
  {
    FeedCount(s, samples, sqrtf);
    if samples != [] {
      var r := Update(s, samples[0], sqrtf);
      var rest := samples[1..];
      FeedCalibration(r.s, rest, sqrtf);
      FeedStep(s, samples, sqrtf);
      if s.count == MAG_SAMPLE && rest == [] {
        FitCalibrationOfBuffers(s, r.s, sqrtf);
      }
    }
  }

  /**
   After `mag_calib_start`, the first MAG_SAMPLE updates answer false and
   every later update answers true: the update that stores the last reading
   still answers false and the first true comes one call later.
   */
  lemma StartedSessionCompletesAfterCapacity(s: Session, samples: seq<Vec3>, sqrtf: real -> real)
    ensures var t := Feed(Start(s), samples, sqrtf);
            && (forall i :: 0 <= i < |samples| ==> (t.replies[i] <==> i >= MAG_SAMPLE))
            && t.s.count == Min(|samples|, MAG_SAMPLE)
  {
    FeedReplies(Start(s), samples, sqrtf);
    FeedCount(Start(s), samples, sqrtf);
  }

  /** The column of a prefix is the prefix of the column. */
  lemma ColumnOfPrefix(samples: seq<Vec3>, a: Axis, n: nat)
    requires n <= |samples|
    ensures Column(samples, a)[..n] == Column(samples[..n], a)
  {
  }

  /** After a start and at least MAG_SAMPLE readings, each buffer holds the first MAG_SAMPLE of them. */
  lemma FullBufferHoldsFirstReadings(s: Session, samples: seq<Vec3>, sqrtf: real -> real, a: Axis)
    requires |samples| >= MAG_SAMPLE
    ensures Feed(Start(s), samples, sqrtf).s.Pointer(a).cells == Column(samples[..MAG_SAMPLE], a)
  {
    FeedCells(Start(s), samples, sqrtf, a);
    FeedCount(Start(s), samples, sqrtf);
    ColumnOfPrefix(samples, a, MAG_SAMPLE);
  }

  /**
   Once more than MAG_SAMPLE readings have been fed after a start, the stored
   offset is the centre the fit computes from the first MAG_SAMPLE readings;
   later readings are never stored.
   */
  lemma CompletedOffsetIsFitOfFirstReadings(s: Session, samples: seq<Vec3>, sqrtf: real -> real)
    requires |samples| > MAG_SAMPLE
    ensures var first := samples[..MAG_SAMPLE];
            GetOffset(Feed(Start(s), samples, sqrtf).s)
            == SphereFit.Fit(Column(first, X), Column(first, Y), Column(first, Z),
                             MAG_SAMPLE, FIT_MAX_ITERATIONS, FIT_DELTA).centre
  {
    var t := Feed(Start(s), samples, sqrtf).s;
    FeedCalibration(Start(s), samples, sqrtf);
    FullBufferHoldsFirstReadings(s, samples, sqrtf, X);
    FullBufferHoldsFirstReadings(s, samples, sqrtf, Y);
    FullBufferHoldsFirstReadings(s, samples, sqrtf, Z);
    assert t.cal.offset == SphereFit.Fit(t.mx.cells, t.my.cells, t.mz.cells,
                                         MAG_SAMPLE, FIT_MAX_ITERATIONS, FIT_DELTA).centre;
  }

  /**
   The reported progress never goes down across an update, and it reads
   exactly 100 after every update that answers true.
   */
  lemma ProgressNeverDecreases(s: Session, mag: Vec3, sqrtf: real -> real)
    requires s.Valid()
    ensures var r := Update(s, mag, sqrtf);
            r.Reply? ==> GetProgress(s) <= GetProgress(r.s) && (r.complete ==> GetProgress(r.s) == 100)
  {
  }

  /** No pointer of the session refers to released memory. */
  predicate NoDangling(s: Session) {
    !s.mx.Freed? && !s.my.Freed? && !s.mz.Freed?
  }

  /**
   `mag_calib_end` frees some block a second time exactly when the session
   holds a dangling pointer.
   */
  lemma EndFreesTwiceExactlyWhenDangling(s: Session)
    ensures (exists a: Axis :: a in End(s).frees && End(s).frees[a] == DoubleFree) <==> !NoDangling(s)
  {
    if !NoDangling(s) {
      var a: Axis := if s.mx.Freed? then X else if s.my.Freed? then Y else Z;
      assert s.Pointer(a).Freed?;
      assert a in End(s).frees && End(s).frees[a] == DoubleFree;
    }
  }

  /** The first pointer, in x, y, z order, that `mag_calib_end` would free a second time. */
  function DoubleFreeFault(s: Session): (f: Fault)
    requires !NoDangling(s)
    ensures f.FreedAgain?
    ensures f.axis in End(s).frees && End(s).frees[f.axis] == DoubleFree
  {
    if s.mx.Freed? then FreedAgain(X) else if s.my.Freed? then FreedAgain(Y) else FreedAgain(Z)
  }

  /** The entry points a caller can invoke, in any order. */
  datatype Call = StartCall | UpdateCall(mag: Vec3) | EndCall

  /** Where a sequence of calls leads: a session, or the first undefined behaviour it runs into. */
  datatype Outcome = Running(s: Session) | Crashed(fault: Fault)

  /**
   Applies the calls in order, stopping at the first access through a
   non-live pointer or the first second free(). Every session reached keeps
   the invariant, so the counter never leaves 0..MAG_SAMPLE, and the log of
   saved calibrations is only ever extended.
   */
  function Run(s: Session, calls: seq<Call>, sqrtf: real -> real): (o: Outcome)
    requires s.Valid()
    ensures o.Running? ==> o.s.Valid()
    ensures o.Running? ==> s.saves <= o.s.saves
    decreases |calls|
  {
    if calls == [] then Running(s)
    else
      match calls[0]
      case StartCall => Run(Start(s), calls[1..], sqrtf)
      case UpdateCall(mag) =>
        var r := Update(s, mag, sqrtf);
        if r.Undefined? then Crashed(r.fault) else Run(r.s, calls[1..], sqrtf)
      case EndCall =>
        if NoDangling(s) then Run(End(s).s, calls[1..], sqrtf) else Crashed(DoubleFreeFault(s))
  }

  /** From power-up, whatever the calls, the counter stays within 0..MAG_SAMPLE and progress within 0..100. */
  lemma CountStaysInRange(loaded: Calibration, calls: seq<Call>, sqrtf: real -> real)
    ensures var o := Run(Boot(loaded), calls, sqrtf);
            o.Running? ==> o.s.count <= MAG_SAMPLE && GetProgress(o.s) <= 100
  {
  }

  /** After `mag_calib_end` every update dereferences the null mx_cal. */
  /** Start, end, end from power-up runs into the second free() of my_cal. */
  lemma StartEndEndFreesMyCalTwice(loaded: Calibration, sqrtf: real -> real)
    ensures Run(Boot(loaded), [StartCall, EndCall, EndCall], sqrtf) == Crashed(FreedAgain(Y))
  {
    var s1 := Start(Boot(loaded));
    var s2 := End(s1).s;
    assert [StartCall, EndCall, EndCall][1..] == [EndCall, EndCall];
    assert [EndCall, EndCall][1..] == [EndCall];
    assert Run(Boot(loaded), [StartCall, EndCall, EndCall], sqrtf) == Run(s1, [EndCall, EndCall], sqrtf);
    assert Run(s1, [EndCall, EndCall], sqrtf) == Run(s2, [EndCall], sqrtf);
  }

  /**
   The stored offset changes only on an update that answers true: start,
   end and filling updates leave it alone.
   */
  lemma OffsetChangesOnlyOnCompletion(s: Session, mag: Vec3, sqrtf: real -> real)
    requires s.Valid()
    ensures GetOffset(Start(s)) == GetOffset(s)
    ensures GetOffset(End(s).s) == GetOffset(s)
    ensures var r := Update(s, mag, sqrtf);
            r.Reply? && !r.complete ==> GetOffset(r.s) == GetOffset(s)
  {
  }

  lemma UpdateAfterEndIsUndefined(s: Session, mag: Vec3, sqrtf: real -> real)
    requires s.Valid()
    ensures Update(End(s).s, mag, sqrtf) == Undefined(NullPointer(X))
  {
  }

  /**
   As written, a second `mag_calib_end` after a started session frees my_cal
   and mz_cal a second time, since only mx_cal was set to null.
   */
  lemma SecondEndFreesTwice(s: Session)
    requires s.AllLive()
    ensures End(s).frees == map[X := Released, Y := Released, Z := Released]
    ensures End(End(s).s).frees == map[Y := DoubleFree, Z := DoubleFree]
    ensures End(End(s).s).s.saves == s.saves + [s.cal, s.cal]
  {
  }

  /**
   With each pointer cleared after its own free(), a session that holds no
   dangling pointer frees each live buffer exactly once, keeps holding no
   dangling pointer, and a second teardown frees nothing.
   */
  lemma IntendedEndReleasesOnce(s: Session)
    requires NoDangling(s)
    ensures forall a: Axis :: a in EndIntended(s).frees ==> EndIntended(s).frees[a] == Released
    ensures NoDangling(EndIntended(s).s)
    ensures EndIntended(EndIntended(s).s).frees == map[]
  {
    var e := EndIntended(s);
    forall a: Axis | a in e.frees
      ensures e.frees[a] == Released
    {
      assert !s.Pointer(a).Freed?;
    }
  }

  /** Neither start nor update ever introduces a dangling pointer. */
  lemma StartAndUpdateKeepNoDangling(s: Session, mag: Vec3, sqrtf: real -> real)
    requires s.Valid() && NoDangling(s)
    ensures NoDangling(Start(s))
    ensures Update(s, mag, sqrtf).Reply? ==> NoDangling(Update(s, mag, sqrtf).s)
  {
  }

  /**
   As written, the check turns down every calibration whose product of
   offsets and radius is negative, whatever the reading.
   */
  lemma NegativeProductAlwaysRejected(s: Session, mag: Vec3, length3: (real, real, real) -> real)
    requires OffsetProduct(s.cal) < 0.0
    ensures !Check(s, mag, length3)
  {
  }

  /**
   A plausible calibration with one negative offset component and a reading
   whose length equals the radius: the check as written rejects it, the
   intended check accepts it.
   */
  lemma PlausibleNegativeOffsetRejected(length3: (real, real, real) -> real)
    requires length3(10.0, 0.0, 0.0) == 10.0
    ensures var s := Boot(Calibration(Vec3(-1.0, 2.0, 3.0), 10.0));
            !Check(s, Vec3(10.0, 0.0, 0.0), length3) && CheckIntended(s, Vec3(10.0, 0.0, 0.0), length3)
  {
  }

  /** The two checks agree whenever the product is not negative. */
  lemma ChecksAgreeOnNonNegativeProduct(s: Session, mag: Vec3, length3: (real, real, real) -> real)
    requires OffsetProduct(s.cal) >= 0.0
    ensures Check(s, mag, length3) == CheckIntended(s, mag, length3)
  {
  }

  /** The calibration with the x offset mirrored. */
  function MirrorX(c: Calibration): (r: Calibration) {
    c.(offset := c.offset.(x := -c.offset.x))
  }

  /** The intended check does not depend on the sign of the x offset. */
  lemma IntendedCheckIgnoresOffsetSign(s: Session, mag: Vec3, length3: (real, real, real) -> real)
    ensures CheckIntended(s.(cal := MirrorX(s.cal)), mag, length3) == CheckIntended(s, mag, length3)
  {
    var c := s.cal;
    assert OffsetProduct(MirrorX(c)) == -OffsetProduct(c) by {
      assert (-c.offset.x) * c.offset.y == -(c.offset.x * c.offset.y);
      assert -(c.offset.x * c.offset.y) * c.offset.z == -(c.offset.x * c.offset.y * c.offset.z);
      assert -(c.offset.x * c.offset.y * c.offset.z) * c.radius
             == -(c.offset.x * c.offset.y * c.offset.z * c.radius);
    }
  }

  /** A fit centred at (1, 2, 3) with radius 10, and a reading of length 10, passes the check. */
  lemma KnownGoodFitAccepted(length3: (real, real, real) -> real)
    requires length3(10.0, 0.0, 0.0) == 10.0
    ensures Check(Boot(Calibration(Vec3(1.0, 2.0, 3.0), 10.0)), Vec3(10.0, 0.0, 0.0), length3)
  {
  }

  /** The never-calibrated state, zero offsets and zero radius, fails the check for any reading. */
  lemma NeverCalibratedRejected(mag: Vec3, length3: (real, real, real) -> real)
    ensures !Check(Boot(Calibration(Vec3(0.0, 0.0, 0.0), 0.0)), mag, length3)
  {
  }
}
