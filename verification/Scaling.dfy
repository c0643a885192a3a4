/** How the reported motion responds to the cam's speed and to the lift. */
module Scaling {
  import opened Reals
  import opened Results
  import opened Trig
  import opened Law
  import opened Kinematics
  import opened Cycle
  import opened CyclePoint
  import opened WholeTurn

  /** The motion m' is m with displacement times r, velocity times r k, acceleration times r k^2, jerk times
      r k^3 and time divided by k. */
  predicate Scaled(m: Motion, m': Motion, r: real, k: real) {
    && m'.theta == m.theta && m'.s == r * m.s
    && m'.v == r * (k * m.v) && m'.a == r * (k * (k * m.a)) && m'.j == r * (k * (k * (k * m.j)))
    && k * m'.time == m.time
  }

  function Rescaled(c: Config, r: real, k: real): Config {
    c.(h := r * c.h, omega := k * c.omega)
  }

  lemma RescaledValid(c: Config, r: real, k: real)
    requires c.Valid() && 0.0 < r && 0.0 < k
    ensures Rescaled(c, r, k).Valid()
  {
    MulPos(r, c.h);
    MulPos(k, c.omega);
  }

  /** The lookup reads kinds and angles only. */
  lemma SameLookup(b: Segments, b': Segments, theta: real)
    requires b.all != [] && |b.all| == |b'.all|
    requires forall i :: 0 <= i < |b.all| ==>
      b.all[i].kind == b'.all[i].kind && b.all[i].start == b'.all[i].start && b.all[i].end == b'.all[i].end
    ensures b.LocateIndex(theta) == b'.LocateIndex(theta)
  {
    SameFirstHit(b, b', theta, true);
    SameFirstHit(b, b', theta, false);
  }

  lemma SameFirstHit(b: Segments, b': Segments, theta: real, dwellPass: bool)
    requires |b.all| == |b'.all|
    requires forall i :: 0 <= i < |b.all| ==>
      b.all[i].kind == b'.all[i].kind && b.all[i].start == b'.all[i].start && b.all[i].end == b'.all[i].end
    ensures b.FirstHit(theta, dwellPass, 0) == b'.FirstHit(theta, dwellPass, 0)
  {
    assert forall i :: 0 <= i < |b.all| ==> b.Hit(theta, dwellPass, i) == b'.Hit(theta, dwellPass, i);
    var k, k' := b.FirstHit(theta, dwellPass, 0), b'.FirstHit(theta, dwellPass, 0);
    assert k < |b.all| ==> b'.Hit(theta, dwellPass, k);
    assert k' < |b.all| ==> b.Hit(theta, dwellPass, k');
  }

  lemma RescaledList(c: Config, r: real, k: real, theta: real)
    requires c.Valid() && Rescaled(c, r, k).Valid()
    ensures Stitched(c).Usable() && Stitched(Rescaled(c, r, k)).Usable()
    ensures var b, b' := Stitched(c), Stitched(Rescaled(c, r, k));
      var i, i' := b.LocateIndex(theta), b'.LocateIndex(theta);
      b.all[i] == SegmentOf(c, b.all[i].kind) && b'.all[i'] == SegmentOf(Rescaled(c, r, k), b.all[i].kind)
  {
    var b, b' := Stitched(c), Stitched(Rescaled(c, r, k));
    SameLookup(b, b', theta);
    hide StitchedList;
    ListInOrder(c);
    ListInOrder(Rescaled(c, r, k));
  }

  /** The whole turn is homogeneous in the lift and in the speed. */
  lemma TurnIsHomogeneous(t: Circle, c: Config, r: real, k: real, theta: real)
    requires c.Valid() && 0.0 < r && 0.0 < k && 0.0 <= theta <= FULL_TURN
    ensures Rescaled(c, r, k).Valid()
    ensures Scaled(MotionAt(t, c, theta), MotionAt(t, Rescaled(c, r, k), theta), r, k)
  {
    hide StitchedList, Segments.LocateIndex, Sample, Scaled, MotionAt, Reports;
    var c' := Rescaled(c, r, k);
    RescaledValid(c, r, k);
    RescaledList(c, r, k, theta);
    StitchedUsable(c);
    StitchedUsable(c');
    var sg := Stitched(c).all[Stitched(c).LocateIndex(theta)];
    var sg' := Stitched(c').all[Stitched(c').LocateIndex(theta)];
    MotionOpen(t, c, theta);
    MotionOpen(t, c', theta);
    SegmentHomogeneous(t, c, r, k, sg, sg', theta, MotionAt(t, c, theta), MotionAt(t, c', theta));
  }

  lemma SegmentHomogeneous(t: Circle, c: Config, r: real, k: real, sg: Segment, sg': Segment, theta: real,
                           m: Motion, m': Motion)
    requires c.Valid() && Rescaled(c, r, k).Valid() && 0.0 < r && 0.0 < k
    requires sg == SegmentOf(c, sg.kind) && sg' == SegmentOf(Rescaled(c, r, k), sg.kind)
    requires Reports(t, c, sg, theta, m) && Reports(t, Rescaled(c, r, k), sg', theta, m')
    ensures Scaled(m, m', r, k)
  {
    hide Sample, Scaled, Rescaled, SegmentOf, Config.Validate, Spec.Validate;
    RescaledParts(c, r, k, sg.kind);
    var omega' := Rescaled(c, r, k).omega;
    TimeScales(sg.start, c.omega, omega', k);
    if sg.kind == OuterDwell {
      DwellScales(c.h, theta, c.omega, omega', r, k, m, m');
    } else if sg.kind == InnerDwell {
      DwellScales(0.0, theta, c.omega, omega', r, k, m, m');
    } else {
      SampleScales(t, sg.spec, sg'.spec, sg.start, theta, sg.start / c.omega, sg.start / omega',
                   sg.kind == Return, r, k);
    }
  }

  lemma RescaledParts(c: Config, r: real, k: real, kind: Kind)
    requires c.Valid() && Rescaled(c, r, k).Valid()
    ensures var c' := Rescaled(c, r, k);
      var sg, sg' := SegmentOf(c, kind), SegmentOf(c', kind);
      && c'.omega == k * c.omega && c'.h == r * c.h && 0.0 < c.omega && 0.0 < c'.omega
      && sg'.start == sg.start && sg'.kind == kind && sg.kind == kind
      && sg'.spec == sg.spec.(h := r * sg.spec.h, omega := k * sg.spec.omega)
      && (!IsDwell(kind) ==> sg.spec.Valid() && sg'.spec.Valid())
  {
  }

  /** The motion a segment reports. */
  predicate Reports(t: Circle, c: Config, sg: Segment, theta: real, m: Motion)
    requires c.Valid()
  {
    if IsDwell(sg.kind) then m == DwellMotion(if sg.kind == OuterDwell then c.h else 0.0, theta, theta / c.omega)
    else Sample(t, sg.spec, sg.start, theta, sg.start / c.omega, sg.kind == Return) == Success(m)
  }

  /** The motion reported by the located segment. */
  lemma MotionOpen(t: Circle, c: Config, theta: real)
    requires c.Valid() && 0.0 <= theta <= FULL_TURN
    ensures Stitched(c).Usable()
    ensures Reports(t, c, Stitched(c).all[Stitched(c).LocateIndex(theta)], theta, MotionAt(t, c, theta))
  {
    hide StitchedList, Segments.LocateIndex, Sample;
    StitchedUsable(c);
    ListInOrder(c);
    PointAnswers(t, c, theta);
  }

  lemma TimeScales(x: real, omega: real, omega': real, k: real)
    requires 0.0 < omega && 0.0 < k && 0.0 < omega' && omega' == k * omega
    ensures k * (x / omega') == x / omega
  {
    DivMul(x, omega');
    TimeQuotient(x, omega, omega', k, x / omega');
  }

  lemma TimeQuotient(x: real, omega: real, omega': real, k: real, q: real)
    requires 0.0 < omega && omega' == k * omega && q * omega' == x
    ensures k * q == x / omega
  {
    assert (k * q) * omega == q * omega';
    DivUnique(x, omega, k * q);
  }

  lemma DwellScales(level: real, theta: real, omega: real, omega': real, r: real, k: real, m: Motion, m': Motion)
    requires 0.0 < omega && 0.0 < k && 0.0 < omega' && omega' == k * omega
    requires m == DwellMotion(level, theta, theta / omega)
    requires m'.s == r * level && m'.theta == theta && m'.time == theta / omega'
    requires m'.v == 0.0 && m'.a == 0.0 && m'.j == 0.0
    ensures Scaled(m, m', r, k)
  {
    TimeScales(theta, omega, omega', k);
  }

  lemma SampleScales(t: Circle, spec: Spec, spec': Spec, theta0: real, theta: real, time: real, time': real,
                     returning: bool, r: real, k: real)
    requires spec.Valid() && spec'.Valid() && k * time' == time
    requires spec' == spec.(h := r * spec.h, omega := k * spec.omega)
    ensures var m := Sample(t, spec, theta0, theta, time, returning);
      var m' := Sample(t, spec', theta0, theta, time', returning);
      m.Success? && m'.Success? && Scaled(m.value, m'.value, r, k)
  {
    hide EvalSide, Spec.Factor, Restore, Scaled;
    var T := (theta - theta0) / spec.beta;
    LawAnswers(t, spec.tp, T, 0.0);
    FactorScales(spec, spec', r, k);
    RestoreScales(EvalSide(t, spec.tp, T, 0.0).value, spec.Factor(), spec'.Factor(), spec, spec', theta, time, time',
                  returning, r, k);
  }

  lemma FactorScales(spec: Spec, spec': Spec, r: real, k: real)
    requires spec.Valid() && spec' == spec.(h := r * spec.h, omega := k * spec.omega)
    ensures var f, f' := spec.Factor(), spec'.Factor();
      f'.v == r * (k * f.v) && f'.a == r * (k * (k * f.a)) && f'.j == r * (k * (k * (k * f.j)))
  {
    var o, o' := spec.omega / spec.beta, spec'.omega / spec.beta;
    DivMul(spec.omega, spec.beta);
    assert (k * o) * spec.beta == k * spec.omega;
    DivUnique(spec'.omega, spec.beta, k * o);
    FactorProducts(spec.h, r, k, o, o', spec.Factor(), spec'.Factor());
  }

  lemma FactorProducts(h: real, r: real, k: real, o: real, o': real, f: Scales, f': Scales)
    requires o' == k * o
    requires f == Scales(h * o, h * o * o, h * o * o * o)
    requires f' == Scales(r * h * o', r * h * o' * o', r * h * o' * o' * o')
    ensures f'.v == r * (k * f.v) && f'.a == r * (k * (k * f.a)) && f'.j == r * (k * (k * (k * f.j)))
  {
  }

  lemma RestoreScales(w: Values, f: Scales, f': Scales, spec: Spec, spec': Spec, theta: real, time: real, time': real,
                      returning: bool, r: real, k: real)
    requires f'.v == r * (k * f.v) && f'.a == r * (k * (k * f.a)) && f'.j == r * (k * (k * (k * f.j)))
    requires spec'.h == r * spec.h && k * time' == time
    ensures Scaled(Restore(w, f, spec, theta, time, returning), Restore(w, f', spec', theta, time', returning), r, k)
  {
    hide Restore, Mirrored, MirroredHeight;
    RestoreOpen(w, f, spec, theta, time, returning);
    RestoreOpen(w, f', spec', theta, time', returning);
    var m := Restore(w, f, spec, theta, time, returning);
    var m' := Restore(w, f', spec', theta, time', returning);
    SignedSpeed(f.v, w.y1, f'.v, returning, r, k, m.v, m'.v);
    SignedBend(f.a, w.y2, f'.a, returning, r, k, m.a, m'.a);
    SignedJerk(f.j, w.y3, f'.j, returning, r, k, m.j, m'.j);
    HeightScales(spec.h, w.y, r, returning, m.s, m'.s, spec'.h);
  }

  function Mirrored(f: real, y: real, returning: bool): real {
    if returning then -(f * y) else f * y
  }

  function MirroredHeight(h: real, y: real, returning: bool): real {
    if returning then h - h * y else h * y
  }

  lemma RestoreOpen(w: Values, f: Scales, spec: Spec, theta: real, time: real, returning: bool)
    ensures var m := Restore(w, f, spec, theta, time, returning);
      && m.theta == theta && m.time == time && m.s == MirroredHeight(spec.h, w.y, returning)
      && m.v == Mirrored(f.v, w.y1, returning) && m.a == Mirrored(f.a, w.y2, returning)
      && m.j == Mirrored(f.j, w.y3, returning)
  {
  }

  lemma SignedSpeed(f: real, y: real, f': real, returning: bool, r: real, k: real, x: real, x': real)
    requires f' == r * (k * f) && x == Mirrored(f, y, returning) && x' == Mirrored(f', y, returning)
    ensures x' == r * (k * x)
  {
  }

  lemma SignedBend(f: real, y: real, f': real, returning: bool, r: real, k: real, x: real, x': real)
    requires f' == r * (k * (k * f)) && x == Mirrored(f, y, returning) && x' == Mirrored(f', y, returning)
    ensures x' == r * (k * (k * x))
  {
  }

  lemma SignedJerk(f: real, y: real, f': real, returning: bool, r: real, k: real, x: real, x': real)
    requires f' == r * (k * (k * (k * f))) && x == Mirrored(f, y, returning) && x' == Mirrored(f', y, returning)
    ensures x' == r * (k * (k * (k * x)))
  {
  }

  lemma HeightScales(h: real, y: real, r: real, returning: bool, s: real, s': real, h': real)
    requires h' == r * h && s == MirroredHeight(h, y, returning) && s' == MirroredHeight(h', y, returning)
    ensures s' == r * s
  {
  }
}
