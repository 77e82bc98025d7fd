/**
 The magnetometer calibration session of `applications/app_mag_calib.c`:
 three parallel sample buffers and a shared sample counter filled one reading
 at a time, the sphere fit run once the buffers are full, the collection
 progress, the teardown that releases the buffers and persists the result,
 and the run-time validity check of a stored calibration.

 The firmware keeps all of this in module-level variables; here it is one
 immutable `Session` record and every entry point is a pure step function.
 Each buffer pointer is Null, Live (allocated, holding the cells written since
 it was allocated) or Freed (non-null but pointing at released memory).
 Accesses the C code makes through a Null or Freed pointer are undefined
 behaviour there and an explicit `Undefined` reply here.
 */
module MagCalib {
  import opened Geometry
  import SphereFit

  /** MAG_SAMPLE: the capacity of each sample buffer. */
  const MAG_SAMPLE: nat := 3000

  /** The iteration cap and the stop threshold `mag_calib_update` passes to the fit. */
  const FIT_MAX_ITERATIONS: nat := 1000
  const FIT_DELTA: real := 0.0

  /** The literal 1e-8f, as the exact binary32 value it denotes. */
  const DEGENERATE_PRODUCT: real := 0.00000000999999993922529029077850282192230224609375

  /** The literal 0.3f, as the exact binary32 value it denotes. */
  const PLAUSIBLE_DEVIATION: real := 0.300000011920928955078125

  /** A sample-buffer pointer. */
  datatype Buffer = Null | Live(cells: seq<real>) | Freed

  /** The four persisted scalars: offset per axis and fitted radius. */
  datatype Calibration = Calibration(offset: Vec3, radius: real)

  /**
   The session: the three buffer pointers mx_cal, my_cal, mz_cal, the counter
   mag_calib_count, the current calibration (mag_calib_val, mag_radius) and the
   log of every calibration handed to parameter storage.
   */
  datatype Session = Session(mx: Buffer, my: Buffer, mz: Buffer, count: nat,
                             cal: Calibration, saves: seq<Calibration>)
  {
    /** The pointer of one axis. */
    function Pointer(a: Axis): (b: Buffer) {
      match a
      case X => mx
      case Y => my
      case Z => mz
    }

    predicate AllLive() {
      mx.Live? && my.Live? && mz.Live?
    }

    /** A live buffer holds exactly the cells written since it was allocated. */
    predicate Fits(b: Buffer) {
      b.Live? ==> |b.cells| == count
    }

    /** The invariant of every reachable session: the counter never passes the capacity. */
    predicate Valid() {
      count <= MAG_SAMPLE && Fits(mx) && Fits(my) && Fits(mz)
    }
  }

  /** The session before `mag_calib_start`: null pointers and the calibration loaded from storage. */
  function Boot(loaded: Calibration): (s: Session)
    ensures s.Valid() && s.count == 0
    ensures forall a: Axis :: s.Pointer(a).Null?
    ensures s.cal == loaded && s.saves == []
  {
    Session(Null, Null, Null, 0, loaded, [])
  }

  /**
   mag_calib_start: allocate the three buffers and reset the counter. Buffers
   still allocated from an earlier start are dropped without being freed.
   */
  function Start(s: Session): (r: Session)
    ensures r.Valid() && r.AllLive()
    ensures r.count == 0
    ensures forall a: Axis :: r.Pointer(a).Live? && r.Pointer(a).cells == []
    ensures r.cal == s.cal && r.saves == s.saves
  {
    s.(mx := Live([]), my := Live([]), mz := Live([]), count := 0)
  }

  /**
   The undefined behaviour a call runs into: an access through a null or a
   freed pointer, or a free() of a block already released.
   */
  datatype Fault = NullPointer(axis: Axis) | UseAfterFree(axis: Axis) | FreedAgain(axis: Axis)

  /** What `mag_calib_update` does: a new session and its boolean result, or undefined behaviour. */
  datatype Reply = Reply(s: Session, complete: bool) | Undefined(fault: Fault)

  /** The fault of the first pointer, in x, y, z order, that is not live. */
  function FirstFault(s: Session): (f: Fault)
    requires !s.AllLive()
    ensures !s.Pointer(f.axis).Live?
    ensures f.NullPointer? <==> s.Pointer(f.axis).Null?
    ensures !f.FreedAgain?
    ensures f.axis != X ==> s.mx.Live?
    ensures f.axis == Z ==> s.my.Live?
  {
    if !s.mx.Live? then (if s.mx.Null? then NullPointer(X) else UseAfterFree(X))
    else if !s.my.Live? then (if s.my.Null? then NullPointer(Y) else UseAfterFree(Y))
    else if s.mz.Null? then NullPointer(Z) else UseAfterFree(Z)
  }

  /**
   The calibration the fit produces from the full buffers: the fitted centre
   as the offset and the square root of the fitted squared radius as radius.
   */
  function FitCalibration(s: Session, sqrtf: real -> real): (c: Calibration)
    requires s.AllLive()
    requires MAG_SAMPLE <= |s.mx.cells| && MAG_SAMPLE <= |s.my.cells| && MAG_SAMPLE <= |s.mz.cells|
    ensures c.radius == sqrtf(SphereFit.SquaredDistanceSum(s.mx.cells, s.my.cells, s.mz.cells, MAG_SAMPLE, c.offset)
                              / (MAG_SAMPLE as real))
  {
    var sphere := SphereFit.Fit(s.mx.cells, s.my.cells, s.mz.cells, MAG_SAMPLE,
                                FIT_MAX_ITERATIONS, FIT_DELTA);
    Calibration(sphere.centre, sqrtf(sphere.radiusSq))
  }

  /**
   mag_calib_update. While the buffers are not full it stores the reading at
   index count of each buffer, advances the counter by one and answers false.
   Once they are full it leaves buffers and counter alone, re-runs the fit on
   them, stores the result and answers true, on this and every later call.
   */
  function Update(s: Session, mag: Vec3, sqrtf: real -> real): (r: Reply)
    requires s.Valid()
    ensures r.Reply? <==> s.AllLive()
    ensures r.Undefined? ==> !s.Pointer(r.fault.axis).Live?
    ensures r.Reply? ==> r.s.Valid() && r.s.AllLive() && r.s.saves == s.saves
    ensures r.Reply? ==> (r.complete <==> s.count == MAG_SAMPLE)
    ensures r.Reply? && s.count < MAG_SAMPLE ==>
              && r.s.count == s.count + 1
              && r.s.cal == s.cal
              && forall a: Axis ::
                   && |r.s.Pointer(a).cells| == s.count + 1
                   && r.s.Pointer(a).cells[s.count] == mag.Get(a)
                   && r.s.Pointer(a).cells[..s.count] == s.Pointer(a).cells
    ensures r.Reply? && s.count == MAG_SAMPLE ==>
              && r.s.mx == s.mx && r.s.my == s.my && r.s.mz == s.mz
              && r.s.count == s.count
              && r.s.cal == FitCalibration(s, sqrtf)
  {
    if !s.AllLive() then
      Undefined(FirstFault(s))
    else if s.count < MAG_SAMPLE then
      Reply(s.(mx := Live(s.mx.cells + [mag.x]),
               my := Live(s.my.cells + [mag.y]),
               mz := Live(s.mz.cells + [mag.z]),
               count := s.count + 1),
            false)
    else
      Reply(s.(cal := FitCalibration(s, sqrtf)), true)
  }

  /** mag_calib_get_offset: the stored offset. */
  function GetOffset(s: Session): (o: Vec3)
    ensures o == s.cal.offset
  {
    s.cal.offset
  }

  /**
   mag_callib_get_progress: the share of the buffer filled, in percent,
   rounded down.
   */
  function GetProgress(s: Session): (p: nat)
    ensures p * MAG_SAMPLE <= s.count * 100 < (p + 1) * MAG_SAMPLE
    ensures s.count <= MAG_SAMPLE ==> p <= 100 && (p == 100 <==> s.count == MAG_SAMPLE)
  {
    s.count * 100 / MAG_SAMPLE
  }

  /** Whether a free() released a live block or released an already released one again. */
  datatype Release = Released | DoubleFree

  /** What `mag_calib_end` did: the new session and the free() calls it made, by axis. */
  datatype Ending = Ending(s: Session, frees: map<Axis, Release>)

  /** The free() call a non-null pointer receives; none for a null pointer. */
  function FreeOf(b: Buffer, a: Axis): (frees: map<Axis, Release>) {
    match b
    case Null => map[]
    case Live(_) => map[a := Released]
    case Freed => map[a := DoubleFree]
  }

  /** A pointer whose block was freed but that was not set to null. */
  function Dangling(b: Buffer): (r: Buffer) {
    if b.Null? then Null else Freed
  }

  /**
   mag_calib_end as written: every non-null buffer is freed, but all three
   clean-up branches null mx_cal, so my_cal and mz_cal are left dangling. The
   calibration is then handed to parameter storage.
   */
  function End(s: Session): (r: Ending)
    ensures r.s.mx.Null?
    ensures forall a: Axis :: a != X ==> !r.s.Pointer(a).Live? && (r.s.Pointer(a).Null? <==> s.Pointer(a).Null?)
    ensures forall a: Axis :: a in r.frees <==> !s.Pointer(a).Null?
    ensures forall a: Axis :: a in r.frees ==> (r.frees[a] == DoubleFree <==> s.Pointer(a).Freed?)
    ensures r.s.count == s.count && r.s.cal == s.cal
    ensures r.s.saves == s.saves + [s.cal]
    ensures s.Valid() ==> r.s.Valid()
  {
    Ending(s.(mx := Null, my := Dangling(s.my), mz := Dangling(s.mz), saves := s.saves + [s.cal]),
           FreeOf(s.mx, X) + FreeOf(s.my, Y) + FreeOf(s.mz, Z))
  }

  /** mag_calib_end as intended: each pointer is set to null after its own free(). */
  function EndIntended(s: Session): (r: Ending)
    ensures forall a: Axis :: r.s.Pointer(a).Null?
    ensures forall a: Axis :: a in r.frees <==> !s.Pointer(a).Null?
    ensures forall a: Axis :: a in r.frees ==> (r.frees[a] == DoubleFree <==> s.Pointer(a).Freed?)
    ensures r.s.count == s.count && r.s.cal == s.cal
    ensures r.s.saves == s.saves + [s.cal]
    ensures s.Valid() ==> r.s.Valid()
  {
    Ending(s.(mx := Null, my := Null, mz := Null, saves := s.saves + [s.cal]),
           FreeOf(s.mx, X) + FreeOf(s.my, Y) + FreeOf(s.mz, Z))
  }

  /** The product of the three offsets and the radius, as the check multiplies them. */
  function OffsetProduct(c: Calibration): (p: real) {
    c.offset.x * c.offset.y * c.offset.z * c.radius
  }

  /** A zero radius makes the product zero. */
  lemma ZeroRadiusZeroProduct(c: Calibration)
    ensures c.radius == 0.0 ==> OffsetProduct(c) == 0.0
  {
  }

  /**
   mag_calib_check as written. A product of offsets and radius below 1e-8
   (negative products included: no absolute value is taken) means invalid;
   otherwise the reading's length, relative to the radius, must lie within
   30% of 1. `length3` is the Euclidean norm the firmware computes.
   */
  function Check(s: Session, mag: Vec3, length3: (real, real, real) -> real): (ok: bool)
    ensures OffsetProduct(s.cal) < DEGENERATE_PRODUCT ==> !ok
    ensures OffsetProduct(s.cal) >= DEGENERATE_PRODUCT ==>
              s.cal.radius != 0.0
              && (ok <==> Abs(length3(mag.x, mag.y, mag.z) / s.cal.radius - 1.0) <= PLAUSIBLE_DEVIATION)
  {
    if OffsetProduct(s.cal) - 0.0 < DEGENERATE_PRODUCT then
      false
    else
      ZeroRadiusZeroProduct(s.cal);
      if Abs(length3(mag.x, mag.y, mag.z) / s.cal.radius - 1.0) > PLAUSIBLE_DEVIATION then false
      else true
  }

  /** mag_calib_check as evidently intended: the degenerate test on the magnitude of the product. */
  function CheckIntended(s: Session, mag: Vec3, length3: (real, real, real) -> real): (ok: bool)
    ensures Abs(OffsetProduct(s.cal)) < DEGENERATE_PRODUCT ==> !ok
    ensures Abs(OffsetProduct(s.cal)) >= DEGENERATE_PRODUCT ==>
              s.cal.radius != 0.0
              && (ok <==> Abs(length3(mag.x, mag.y, mag.z) / s.cal.radius - 1.0) <= PLAUSIBLE_DEVIATION)
  {
    if Abs(OffsetProduct(s.cal)) < DEGENERATE_PRODUCT then
      false
    else
      ZeroRadiusZeroProduct(s.cal);
      Abs(length3(mag.x, mag.y, mag.z) / s.cal.radius - 1.0) <= PLAUSIBLE_DEVIATION
  }
}
