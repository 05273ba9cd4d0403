/**
 * Keyframe angle interpolation (AngleInterpolationAgent.angle_interpolation):
 * for every joint, find a keyframe segment that strictly brackets the elapsed
 * time and evaluate the cubic Bezier curve built from the segment's two points
 * and their handles.
 */
module AngleInterpolation {
  import opened Wrappers

  /** A Bezier handle: interpolation type, time offset and angle offset relative to its point. */
  datatype Handle = Handle(kind: int, dTime: real, dAngle: real)

  /** A keyframe point: its angle, the handle shaping the curve before it and the one after it. */
  datatype Key = Key(angle: real, before: Handle, after: Handle)

  /**
   * The keyframe triple (names, times, keys): names[i] is a joint, times[i] its
   * keyframe times and keys[i] its keyframe points.
   */
  datatype Keyframes = Keyframes(names: seq<string>, times: seq<seq<real>>, keys: seq<seq<Key>>)

  /** The four control values of one cubic Bezier segment. */
  datatype Controls = Controls(y0: real, y1: real, y2: real, y3: real)

  /**
   * Every joint name has a row of times and a row of keys, and each row of keys
   * is at least as long as its row of times; anything shorter makes the
   * interpolation index past the end of a list.
   */
  predicate WellFormed(kf: Keyframes)
  {
    |kf.times| >= |kf.names| && |kf.keys| >= |kf.names| &&
    forall i :: 0 <= i < |kf.names| ==> |kf.keys[i]| >= |kf.times[i]|
  }

  /** Times that strictly increase along the track. */
  predicate StrictlyIncreasing(times: seq<real>)
  {
    forall i, j :: 0 <= i < j < |times| ==> times[i] < times[j]
  }

  /** The number of consecutive pairs of times, as `range(len(times) - 1)` counts them. */
  function NumSegments(times: seq<real>): (n: nat)
    ensures |times| > 0 ==> n + 1 == |times|
    ensures |times| == 0 ==> n == 0
  {
    if |times| == 0 then 0 else |times| - 1
  }

  /** Segment t strictly brackets the elapsed time e. */
  predicate Brackets(times: seq<real>, t: nat, e: real)
    requires t + 1 < |times|
  {
    times[t] < e < times[t + 1]
  }

  // ---------------------------------------------------------------------------
  // The Bezier formula
  // ---------------------------------------------------------------------------

  /** The four Bernstein weights of the cubic: (1-u)^3, 3(1-u)^2 u, 3(1-u) u^2 and u^3. */
  function W0(u: real): real { (1.0 - u) * (1.0 - u) * (1.0 - u) }
  function W1(u: real): real { 3.0 * (1.0 - u) * (1.0 - u) * u }
  function W2(u: real): real { 3.0 * (1.0 - u) * u * u }
  function W3(u: real): real { u * u * u }

  /** The control values of c weighted by b0..b3. */
  function Weighted(b0: real, b1: real, b2: real, b3: real, c: Controls): real
  {
    b0 * c.y0 + b1 * c.y1 + b2 * c.y2 + b3 * c.y3
  }

  /** The cubic Bezier value at parameter u of the control values c. */
  function Bezier(c: Controls, u: real): real
  {
    Weighted(W0(u), W1(u), W2(u), W3(u), c)
  }

  /** The least of the four control values. */
  function Min4(c: Controls): real
  {
    var a := if c.y0 <= c.y1 then c.y0 else c.y1;
    var b := if c.y2 <= c.y3 then c.y2 else c.y3;
    if a <= b then a else b
  }

  /** The greatest of the four control values. */
  function Max4(c: Controls): real
  {
    var a := if c.y0 >= c.y1 then c.y0 else c.y1;
    var b := if c.y2 >= c.y3 then c.y2 else c.y3;
    if a >= b then a else b
  }

  /** The curve starts exactly at y0 and ends exactly at y3. */
  lemma BezierEndpoints(c: Controls)
    ensures Bezier(c, 0.0) == c.y0
    ensures Bezier(c, 1.0) == c.y3
  {
  }

  /** A product of non-negative reals is non-negative. */
  lemma ProductNonneg(a: real, b: real)
    requires a >= 0.0 && b >= 0.0
    ensures a * b >= 0.0
  {
  }

  /** For u in [0, 1] the four Bernstein weights are non-negative and sum to one. */
  lemma BernsteinWeights(u: real)
    requires 0.0 <= u <= 1.0
    ensures W0(u) >= 0.0 && W1(u) >= 0.0 && W2(u) >= 0.0 && W3(u) >= 0.0
    ensures W0(u) + W1(u) + W2(u) + W3(u) == 1.0
  {
    var v := 1.0 - u;
    ProductNonneg(v, v);
    ProductNonneg(u, u);
    ProductNonneg(v * v, v);
    ProductNonneg(3.0 * v * v, u);
    ProductNonneg(3.0 * v, u);
    ProductNonneg(3.0 * v * u, u);
    ProductNonneg(u * u, u);
    assert (v + u) * (v + u) * (v + u) == v * v * v + 3.0 * v * v * u + 3.0 * v * u * u + u * u * u;
  }

  /** A sum of four non-negative reals is non-negative. */
  lemma SumNonneg(a0: real, a1: real, a2: real, a3: real)
    requires a0 >= 0.0 && a1 >= 0.0 && a2 >= 0.0 && a3 >= 0.0
    ensures a0 + a1 + a2 + a3 >= 0.0
  {
  }

  /** A weighted sum with non-negative weights summing to one stays within common bounds. */
  lemma ConvexCombination(b0: real, b1: real, b2: real, b3: real, c: Controls, lo: real, hi: real)
    requires b0 >= 0.0 && b1 >= 0.0 && b2 >= 0.0 && b3 >= 0.0 && b0 + b1 + b2 + b3 == 1.0
    requires lo <= c.y0 <= hi && lo <= c.y1 <= hi && lo <= c.y2 <= hi && lo <= c.y3 <= hi
    ensures lo <= Weighted(b0, b1, b2, b3, c) <= hi
  {
    ConvexLower(b0, b1, b2, b3, c, lo);
    ConvexLower(b0, b1, b2, b3, Controls(-c.y0, -c.y1, -c.y2, -c.y3), -hi);
  }

  /** A weighted sum with non-negative weights summing to one stays above a common lower bound. */
  lemma ConvexLower(b0: real, b1: real, b2: real, b3: real, c: Controls, lo: real)
    requires b0 >= 0.0 && b1 >= 0.0 && b2 >= 0.0 && b3 >= 0.0 && b0 + b1 + b2 + b3 == 1.0
    requires lo <= c.y0 && lo <= c.y1 && lo <= c.y2 && lo <= c.y3
    ensures lo <= Weighted(b0, b1, b2, b3, c)
  {
    ProductNonneg(b0, c.y0 - lo);
    ProductNonneg(b1, c.y1 - lo);
    ProductNonneg(b2, c.y2 - lo);
    ProductNonneg(b3, c.y3 - lo);
    SumNonneg(b0 * (c.y0 - lo), b1 * (c.y1 - lo), b2 * (c.y2 - lo), b3 * (c.y3 - lo));
    assert b0 * (c.y0 - lo) + b1 * (c.y1 - lo) + b2 * (c.y2 - lo) + b3 * (c.y3 - lo)
        == Weighted(b0, b1, b2, b3, c) - (b0 + b1 + b2 + b3) * lo;
  }

  /** For u in [0, 1] the curve stays within any bounds its four control values share. */
  lemma BezierWithin(c: Controls, u: real, lo: real, hi: real)
    requires 0.0 <= u <= 1.0
    requires lo <= c.y0 <= hi && lo <= c.y1 <= hi && lo <= c.y2 <= hi && lo <= c.y3 <= hi
    ensures lo <= Bezier(c, u) <= hi
  {
    BernsteinWeights(u);
    ConvexCombination(W0(u), W1(u), W2(u), W3(u), c, lo, hi);
  }

  /** For u in [0, 1] the curve lies between the least and the greatest control value. */
  lemma BezierBounds(c: Controls, u: real)
    requires 0.0 <= u <= 1.0
    ensures Min4(c) <= Bezier(c, u) <= Max4(c)
  {
    Min4Max4(c);
    BezierWithin(c, u, Min4(c), Max4(c));
  }

  /** Each control value lies between the least and the greatest of them. */
  lemma Min4Max4(c: Controls)
    ensures Min4(c) <= c.y0 <= Max4(c) && Min4(c) <= c.y1 <= Max4(c)
    ensures Min4(c) <= c.y2 <= Max4(c) && Min4(c) <= c.y3 <= Max4(c)
  {
  }

  // ---------------------------------------------------------------------------
  // One segment
  // ---------------------------------------------------------------------------

  /**
   * The control values of the segment from k0 to k1: the two angles, the start
   * angle moved by its right handle and the end angle moved back by its left handle.
   */
  function SegmentControls(k0: Key, k1: Key): Controls
  {
    Controls(k0.angle, k0.angle + k0.after.dAngle, k1.angle - k1.before.dAngle, k1.angle)
  }

  /** A segment's curve starts at its start point's angle and ends at its end point's angle. */
  lemma SegmentEndpoints(k0: Key, k1: Key)
    ensures Bezier(SegmentControls(k0, k1), 0.0) == k0.angle
    ensures Bezier(SegmentControls(k0, k1), 1.0) == k1.angle
  {
    BezierEndpoints(SegmentControls(k0, k1));
  }

  /** Consecutive segments of a track meet: one ends where the next begins. */
  lemma SegmentsJoin(keys: seq<Key>, t: nat)
    requires t + 2 < |keys|
    ensures Bezier(SegmentControls(keys[t], keys[t + 1]), 1.0) ==
            Bezier(SegmentControls(keys[t + 1], keys[t + 2]), 0.0)
  {
    SegmentEndpoints(keys[t], keys[t + 1]);
    SegmentEndpoints(keys[t + 1], keys[t + 2]);
  }

  /** The normalised position of e inside segment t. */
  function Param(times: seq<real>, t: nat, e: real): (u: real)
    requires t + 1 < |times| && Brackets(times, t, e)
    ensures 0.0 < u < 1.0
    ensures times[t] + u * (times[t + 1] - times[t]) == e
  {
    var d := times[t + 1] - times[t];
    var u := (e - times[t]) / d;
    QuotientInUnitInterval(e - times[t], d);
    u
  }

  /** A quotient of a positive number by a larger one lies strictly between 0 and 1. */
  lemma QuotientInUnitInterval(a: real, d: real)
    requires 0.0 < a < d
    ensures 0.0 < a / d < 1.0
    ensures (a / d) * d == a
  {
    var q := a / d;
    assert q * d == a;
    if q >= 1.0 {
      ProductNonneg(q - 1.0, d);
    }
  }

  /** The angle that segment t of a track gives at elapsed time e. */
  function SegmentAngle(times: seq<real>, keys: seq<Key>, t: nat, e: real): real
    requires t + 1 < |times| <= |keys| && Brackets(times, t, e)
  {
    Bezier(SegmentControls(keys[t], keys[t + 1]), Param(times, t, e))
  }

  /** A bracketing segment has positive length, so it never divides by zero. */
  lemma BracketingSegmentIsProper(times: seq<real>, t: nat, e: real)
    requires t + 1 < |times|
    ensures Brackets(times, t, e) ==> times[t + 1] - times[t] > 0.0
    ensures times[t] == times[t + 1] ==> !Brackets(times, t, e)
  {
  }

  /** The angle of a segment lies between the least and the greatest of its control values. */
  lemma SegmentAngleBounds(times: seq<real>, keys: seq<Key>, t: nat, e: real)
    requires t + 1 < |times| <= |keys| && Brackets(times, t, e)
    ensures Min4(SegmentControls(keys[t], keys[t + 1])) <= SegmentAngle(times, keys, t, e)
    ensures SegmentAngle(times, keys, t, e) <= Max4(SegmentControls(keys[t], keys[t + 1]))
  {
    BezierBounds(SegmentControls(keys[t], keys[t + 1]), Param(times, t, e));
  }

  // ---------------------------------------------------------------------------
  // One track and the whole keyframe set
  // ---------------------------------------------------------------------------

  /**
   * The angle the first n segments of a track give at e: that of the LAST of
   * them that brackets e (a later match overwrites an earlier one), or None.
   */
  function TrackAngle(times: seq<real>, keys: seq<Key>, e: real, n: nat): Option<real>
    requires n <= NumSegments(times) && |times| <= |keys|
  {
    if n == 0 then None
    else if Brackets(times, n - 1, e) then Some(SegmentAngle(times, keys, n - 1, e))
    else TrackAngle(times, keys, e, n - 1)
  }

  /** The dictionary m after storing the angle o for joint, if there is one. */
  function Store(m: map<string, real>, joint: string, o: Option<real>): map<string, real>
  {
    match o
    case None => m
    case Some(y) => m[joint := y]
  }

  /** The result of interpolating the first m joints at elapsed time e. */
  function InterpolateUpTo(kf: Keyframes, e: real, m: nat): map<string, real>
    requires WellFormed(kf) && m <= |kf.names|
  {
    if m == 0 then map[]
    else
      Store(InterpolateUpTo(kf, e, m - 1), kf.names[m - 1],
            TrackAngle(kf.times[m - 1], kf.keys[m - 1], e, NumSegments(kf.times[m - 1])))
  }

  /** The result of interpolating every joint at elapsed time e. */
  function Interpolate(kf: Keyframes, e: real): map<string, real>
    requires WellFormed(kf)
  {
    InterpolateUpTo(kf, e, |kf.names|)
  }

  /**
   * angle_interpolation, with the elapsed time `perception.time - start_time`
   * passed in: scans every joint's segments and stores the Bezier angle of each
   * bracketing segment in the result dictionary.
   */
  method AngleInterpolation(kf: Keyframes, elapsed: real) returns (target: map<string, real>)
    requires WellFormed(kf)
    ensures target == Interpolate(kf, elapsed)
  {
    target := map[];
    for i := 0 to |kf.names|
      invariant target == InterpolateUpTo(kf, elapsed, i)
    {
      var joint, times, keys := kf.names[i], kf.times[i], kf.keys[i];
      ghost var before := target;
      for t := 0 to NumSegments(times)
        invariant target == Store(before, joint, TrackAngle(times, keys, elapsed, t))
      {
        if times[t] < elapsed < times[t + 1] {
          var y0 := keys[t].angle;
          var y1 := y0 + keys[t].after.dAngle;
          var y3 := keys[t + 1].angle;
          var y2 := y3 - keys[t + 1].before.dAngle;
          var u := (elapsed - times[t]) / (times[t + 1] - times[t]);
          var y := Bezier(Controls(y0, y1, y2, y3), u);
          target := target[joint := y];
        }
      }
    }
  }

  // ---------------------------------------------------------------------------
  // Properties
  // ---------------------------------------------------------------------------

  /** A track yields an angle exactly when one of its segments brackets e. */
  lemma {:induction false} TrackAngleDefined(times: seq<real>, keys: seq<Key>, e: real, n: nat)
    requires n <= NumSegments(times) && |times| <= |keys|
    ensures TrackAngle(times, keys, e, n).Some? <==> exists t :: 0 <= t < n && Brackets(times, t, e)
  {
    if n > 0 && !Brackets(times, n - 1, e) {
      TrackAngleDefined(times, keys, e, n - 1);
      if exists t :: 0 <= t < n && Brackets(times, t, e) {
        var t :| 0 <= t < n && Brackets(times, t, e);
        assert t < n - 1;
      }
    }
  }

  /** The angle of a track is that of the last bracketing segment. */
  lemma {:induction false} TrackAngleLastMatch(times: seq<real>, keys: seq<Key>, e: real, n: nat, t: nat)
    requires n <= NumSegments(times) && |times| <= |keys|
    requires t < n && Brackets(times, t, e)
    requires forall t' :: t < t' < n ==> !Brackets(times, t', e)
    ensures TrackAngle(times, keys, e, n) == Some(SegmentAngle(times, keys, t, e))
  {
    if t < n - 1 {
      TrackAngleLastMatch(times, keys, e, n - 1, t);
    }
  }

  /** With strictly increasing times at most one segment brackets e. */
  lemma AtMostOneSegment(times: seq<real>, e: real, t1: nat, t2: nat)
    requires StrictlyIncreasing(times)
    requires t1 + 1 < |times| && t2 + 1 < |times|
    requires Brackets(times, t1, e) && Brackets(times, t2, e)
    ensures t1 == t2
  {
  }

  /**
   * A joint is in the result exactly when one of its entries in the keyframes
   * has a segment that brackets e; so the result's keys are joint names.
   */
  lemma {:induction false} InterpolateKeys(kf: Keyframes, e: real, m: nat, joint: string)
    requires WellFormed(kf) && m <= |kf.names|
    ensures joint in InterpolateUpTo(kf, e, m) <==>
            exists i, t: nat :: 0 <= i < m && kf.names[i] == joint && t < NumSegments(kf.times[i]) &&
                           Brackets(kf.times[i], t, e)
  {
    if m > 0 {
      var i := m - 1;
      var prev, next := InterpolateUpTo(kf, e, i), InterpolateUpTo(kf, e, m);
      InterpolateKeys(kf, e, i, joint);
      TrackAngleDefined(kf.times[i], kf.keys[i], e, NumSegments(kf.times[i]));
      if joint in next {
        if joint !in prev {
          assert kf.names[i] == joint;
          var t :| 0 <= t < NumSegments(kf.times[i]) && Brackets(kf.times[i], t, e);
          assert 0 <= i < m && kf.names[i] == joint && t < NumSegments(kf.times[i]) && Brackets(kf.times[i], t, e);
        }
      } else {
        assert joint !in prev;
        forall i', t': nat | 0 <= i' < m && kf.names[i'] == joint && t' < NumSegments(kf.times[i'])
          ensures !Brackets(kf.times[i'], t', e)
        {
          if i' == i {
            assert !exists t :: 0 <= t < NumSegments(kf.times[i]) && Brackets(kf.times[i], t, e);
          }
        }
      }
    }
  }

  /**
   * The entry stored for joint i, when no later entry names the same joint, is
   * the Bezier angle of the last segment of its track that brackets e. The
   * times need not increase.
   */
  lemma {:induction false} InterpolateLastBracket(kf: Keyframes, e: real, m: nat, i: nat, t: nat)
    requires WellFormed(kf) && i < m <= |kf.names|
    requires forall j :: i < j < m ==> kf.names[j] != kf.names[i]
    requires t < NumSegments(kf.times[i]) && Brackets(kf.times[i], t, e)
    requires forall t' :: t < t' < NumSegments(kf.times[i]) ==> !Brackets(kf.times[i], t', e)
    ensures kf.names[i] in InterpolateUpTo(kf, e, m)
    ensures InterpolateUpTo(kf, e, m)[kf.names[i]] == SegmentAngle(kf.times[i], kf.keys[i], t, e)
  {
    if i < m - 1 {
      InterpolateLastBracket(kf, e, m - 1, i, t);
    } else {
      TrackAngleLastMatch(kf.times[i], kf.keys[i], e, NumSegments(kf.times[i]), t);
    }
  }

  /**
   * The entry stored for joint i, when no later entry names the same joint and
   * its times strictly increase, is the Bezier angle of its one bracketing segment.
   */
  lemma InterpolateValue(kf: Keyframes, e: real, m: nat, i: nat, t: nat)
    requires WellFormed(kf) && i < m <= |kf.names|
    requires forall j :: i < j < m ==> kf.names[j] != kf.names[i]
    requires StrictlyIncreasing(kf.times[i])
    requires t < NumSegments(kf.times[i]) && Brackets(kf.times[i], t, e)
    ensures kf.names[i] in InterpolateUpTo(kf, e, m)
    ensures InterpolateUpTo(kf, e, m)[kf.names[i]] == SegmentAngle(kf.times[i], kf.keys[i], t, e)
  {
    var times := kf.times[i];
    forall t' | t < t' < NumSegments(times)
      ensures !Brackets(times, t', e)
    {
      if Brackets(times, t', e) {
        AtMostOneSegment(times, e, t, t');
      }
    }
    InterpolateLastBracket(kf, e, m, i, t);
  }

  /**
   * Every angle in the result lies between the least and the greatest control
   * value of some bracketing segment of that joint's track.
   */
  lemma {:induction false} InterpolateBounded(kf: Keyframes, e: real, m: nat, joint: string)
    requires WellFormed(kf) && m <= |kf.names|
    requires joint in InterpolateUpTo(kf, e, m)
    ensures exists i, t: nat :: 0 <= i < m && kf.names[i] == joint && t + 1 < |kf.times[i]| &&
                           Brackets(kf.times[i], t, e) &&
                           Min4(SegmentControls(kf.keys[i][t], kf.keys[i][t + 1])) <= InterpolateUpTo(kf, e, m)[joint] &&
                           InterpolateUpTo(kf, e, m)[joint] <= Max4(SegmentControls(kf.keys[i][t], kf.keys[i][t + 1]))
  {
    var i := m - 1;
    var times, keys := kf.times[i], kf.keys[i];
    var o := TrackAngle(times, keys, e, NumSegments(times));
    if kf.names[i] == joint && o.Some? {
      var t := LastBracket(times, keys, e, NumSegments(times));
      SegmentAngleBounds(times, keys, t, e);
    } else {
      InterpolateBounded(kf, e, i, joint);
    }
  }

  /** The segment whose angle TrackAngle reports. */
  lemma {:induction false} LastBracket(times: seq<real>, keys: seq<Key>, e: real, n: nat) returns (t: nat)
    requires n <= NumSegments(times) && |times| <= |keys|
    requires TrackAngle(times, keys, e, n).Some?
    ensures t < n && Brackets(times, t, e)
    ensures TrackAngle(times, keys, e, n) == Some(SegmentAngle(times, keys, t, e))
  {
    if Brackets(times, n - 1, e) {
      t := n - 1;
    } else {
      t := LastBracket(times, keys, e, n - 1);
    }
  }
}
