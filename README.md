# NAO humanoid: keyframe interpolation and forward kinematics in Dafny

This project models the two algorithmic cores of a NAO humanoid teaching
repository and proves properties of them.

- **Keyframe angle interpolation** (`AngleInterpolationAgent.angle_interpolation`).
  A keyframe set is the triple `(names, times, keys)`. Each key holds an angle and
  two Bezier handles `(type, dTime, dAngle)`. For every joint, the code scans the
  consecutive keyframe times for segments that strictly bracket the elapsed time.
  For each such segment it builds four control values: the two angles, the start
  angle plus its right-handle `dAngle`, and the end angle minus its left-handle
  `dAngle`. It then evaluates the cubic Bezier at the normalised parameter and
  stores the angle in the result dictionary. A later match overwrites an earlier
  one.
- **Forward kinematics** (`ForwardKinematicsAgent`). The model keeps the chain
  table (Head, LArm, LLeg, RLeg, RArm), the four axis lists (Roll, Pitch, Yaw,
  YawPitch) and the 22-entry offset table in millimetres. `local_trans` builds a
  4x4 homogeneous matrix per joint by axis class; a YawPitch joint gets
  `TR·(R_z·R_y)`. `forward_kinematics` walks every chain from the identity,
  multiplies the running product by each local transform and stores the product
  under the joint's name in the agent's `transforms` dictionary.

Files:

- `wrappers.dfy`: `Option` and `Result`.
- `matrix4.dfy`: real 4x4 matrices and a hand-written product.
- `interpolation.dfy`: module `AngleInterpolation`.
- `kinematics.dfy`: module `ForwardKinematics`, with the class `ForwardKinematicsAgent`.

Modelling choices:

- Floating-point numbers are Dafny `real`s.
- The cosine and sine of a joint angle are inputs: the angle map holds `Angle(cos, sin)` pairs.
- The elapsed time `perception.time - self.start_time` is a parameter of `AngleInterpolation`.
- Python exceptions are modelled as error values:
  - `KeyError` for a chain joint missing from the angle map becomes `MissingAngle`.
  - `TypeError` from indexing the `None` that `joint_offset` returns becomes `MissingOffset`.
  - Python's `TypeError` does not name the joint, so the name in `MissingOffset` is the model's addition; `MissingAngle` carries the key that the `KeyError` at kinematics/forward_kinematics.py line 164 names.
- Entries stored before a failure stay in `transforms`, as they would after a Python exception.
- The matrices are kept exactly as written, including the Yaw block's sign convention
  `[[c, s, 0], [-s, c, 0], [0, 0, 1]]`.

In three places the model follows the code where a reader might expect an error or a different order:

- A joint that has an offset but is in none of the four axis lists gets the
  identity (the `else: pass` branch), rather than raising an error. No joint of
  the shipped tables reaches that branch (`AxisListsCoverOffsets`).
- A missing axis class is not an error. Only a missing offset or a missing angle is.
- The YawPitch transform is `TR·(R_z·R_y)` as the code computes it.

## Model

| member | source | states |
|---|---|---|
| `AngleInterpolation.AngleInterpolation` | joint_control/angle_interpolation.py:42-65 | The nested scan over joints and segments returns exactly `Interpolate(kf, elapsed)`. That value is, per joint, the Bezier angle of the last bracketing segment. Later joints overwrite earlier ones, and joints with no bracketing segment are absent. |
| `AngleInterpolation.Param` | joint_control/angle_interpolation.py:59 | For a bracketing segment, the normalised parameter lies strictly in (0, 1) and maps back to the elapsed time: `t0 + u·(t1 - t0) == e`. |
| `AngleInterpolation.NumSegments` | joint_control/angle_interpolation.py:49 | The number of segments `range(len(times) - 1)` visits: one less than the number of times, and none for an empty row. |
| `AngleInterpolation.Brackets` | joint_control/angle_interpolation.py:53 | The strict test `times[t] < e < times[t+1]`. `TrackAngleDefined` and `BracketingSegmentIsProper` state what it implies. |
| `AngleInterpolation.Bezier` | joint_control/angle_interpolation.py:60 | The cubic `(1-u)³·y0 + 3(1-u)²u·y1 + 3(1-u)u²·y2 + u³·y3`, written as the control values weighted by `W0`–`W3` through `Weighted`. Its properties are stated by `BezierEndpoints`, `BernsteinWeights`, `BezierWithin` and `BezierBounds`. |
| `AngleInterpolation.SegmentControls` | joint_control/angle_interpolation.py:55-58 | The four control values of segment t: the start angle, the start angle plus its right-handle `dAngle`, the end angle minus its left-handle `dAngle`, and the end angle. `SegmentEndpoints` and `SegmentsJoin` state their properties. |
| `AngleInterpolation.SegmentAngle` | joint_control/angle_interpolation.py:55-60 | The Bezier value of segment t's controls at the parameter `Param`. `SegmentAngleBounds` bounds it. |
| `AngleInterpolation.TrackAngle` | joint_control/angle_interpolation.py:49-61 | The angle the inner loop leaves for one joint after n segments: that of the last bracketing segment among them, or none. `TrackAngleDefined`, `TrackAngleLastMatch` and `LastBracket` state its properties. |
| `AngleInterpolation.InterpolateUpTo` | joint_control/angle_interpolation.py:48-61 | The dictionary after the first m joint entries, each entry's angle stored over any earlier one. It is the outer loop invariant of `AngleInterpolation`. |
| `AngleInterpolation.Interpolate` | joint_control/angle_interpolation.py:43-65 | The returned dictionary: `InterpolateUpTo` over all joint entries. `InterpolateKeys`, `InterpolateValue` and `InterpolateBounded` state its properties. |
| `AngleInterpolation.BracketingSegmentIsProper` | joint_control/angle_interpolation.py:53-59 | A bracketing segment has a positive denominator. A segment with equal consecutive times never matches, so the division is always safe. |
| `AngleInterpolation.BezierEndpoints` | joint_control/angle_interpolation.py:60 | The Bezier formula gives exactly `y0` at `u = 0` and exactly `y3` at `u = 1`. |
| `AngleInterpolation.BernsteinWeights` | joint_control/angle_interpolation.py:60 | For `u` in [0, 1], the four Bernstein weights of the formula are non-negative and sum to 1. |
| `AngleInterpolation.BezierWithin` | joint_control/angle_interpolation.py:60 | For `u` in [0, 1], the curve stays within any common lower and upper bound of its four control values. |
| `AngleInterpolation.BezierBounds` | joint_control/angle_interpolation.py:60 | For `u` in [0, 1], the curve lies between the minimum and maximum of `y0..y3` (a convex combination). |
| `AngleInterpolation.SegmentEndpoints` | joint_control/angle_interpolation.py:55-60 | With `y0 = keys[t][0]`, `y1 = y0 + keys[t][2][2]`, `y3 = keys[t+1][0]` and `y2 = y3 - keys[t+1][1][2]`, the segment curve starts at the start key's angle and ends at the end key's angle. |
| `AngleInterpolation.SegmentsJoin` | joint_control/angle_interpolation.py:55-60 | Consecutive segments meet: segment t ends at the value where segment t+1 begins. |
| `AngleInterpolation.SegmentAngleBounds` | joint_control/angle_interpolation.py:55-60 | A segment's angle at a bracketed time lies between the least and greatest of its four control values. |
| `AngleInterpolation.TrackAngleDefined` | joint_control/angle_interpolation.py:49-53 | A joint's track yields an angle if and only if some segment `t` has `times[t] < e < times[t+1]`. |
| `AngleInterpolation.TrackAngleLastMatch` | joint_control/angle_interpolation.py:49-61 | When several segments match, the value kept is the angle of the last matching segment, because each update overwrites the previous one. |
| `AngleInterpolation.LastBracket` | joint_control/angle_interpolation.py:49-61 | Whenever a track yields an angle, that angle is the Bezier angle of a bracketing segment. |
| `AngleInterpolation.AtMostOneSegment` | joint_control/angle_interpolation.py:49-53 | With strictly increasing times, at most one segment brackets the elapsed time. |
| `AngleInterpolation.InterpolateKeys` | joint_control/angle_interpolation.py:48-61 | A joint is a key of the result if and only if one of its entries in `names` has a bracketing segment. So the result's keys are a subset of the joint names. |
| `AngleInterpolation.InterpolateLastBracket` | joint_control/angle_interpolation.py:48-61 | Take a joint entry that no later entry names again, and its last segment that brackets the elapsed time. The result holds that segment's Bezier angle for the joint, even when the times do not increase (a repeated time never brackets). |
| `AngleInterpolation.InterpolateValue` | joint_control/angle_interpolation.py:48-61 | Take a joint entry with strictly increasing times that no later entry names again. If one of its segments brackets the elapsed time, the result holds that segment's Bezier angle for the joint. |
| `AngleInterpolation.InterpolateBounded` | joint_control/angle_interpolation.py:55-61 | Every angle in the result lies between the minimum and maximum control values of some bracketing segment of that joint. |
| `ForwardKinematics.JointOffset` | kinematics/forward_kinematics.py:59-88 | `joint_offset`: the entry of the 22-entry table `OffsetTable` (the dictionary at :60-86), or none for an unknown name as `dict.get` gives. `LocalTransFails` states what a missing entry does. |
| `ForwardKinematics.AxisOf` | kinematics/forward_kinematics.py:112-130 | The axis class tested in the order Roll, Pitch, Yaw, YawPitch against the lists `RollJoints`, `PitchJoints`, `YawJoints` and `YawPitchJoints` (the `axis` dictionary at :48-53). `AxisListsDisjoint`, `AxisListsCoverOffsets` and `ConfigurationWellFormed` state its properties. |
| `ForwardKinematics.Translation` | kinematics/forward_kinematics.py:132-135 | The offset matrix `TR`: the identity with `(dx, dy, dz)` as translation column. `TranslationOf` states its product with a rotation. |
| `ForwardKinematics.RotY` | kinematics/forward_kinematics.py:137-140 | The pitch rotation `R_y` with the code's signs. `RotZRotY` and `RotYRotZ` multiply it with `R_z`. |
| `ForwardKinematics.RotZ` | kinematics/forward_kinematics.py:142-145 | The yaw rotation `R_z` with the code's signs (`[[c, s], [-s, c]]` in the upper block). |
| `ForwardKinematics.LocalTrans` | kinematics/forward_kinematics.py:90-154 | `local_trans`: a 4x4 result, or `MissingOffset` when `joint_offset` returns none. The Roll, Pitch and Yaw matrices are as written; YawPitch is `TR·(R_z·R_y)`; a joint in no list keeps the identity. `LocalTransFails`, `LocalTransShape`, `YawPitchClosedForm`, `LocalTransAtZero` and `YawPitchOrderMatters` state its properties. |
| `ForwardKinematics.ChainProduct` | kinematics/forward_kinematics.py:161-167 | The running matrix `T` after a prefix of one chain: the identity times the local transforms from left to right, or the first failure (angle lookup at :164 first, then `local_trans`). `ChainProductDefined` and `ChainProductFirstTwo` state its properties. |
| `ForwardKinematics.WalkChain` | kinematics/forward_kinematics.py:162-169 | The `transforms` dictionary and error after walking one chain, each joint storing its running product; a failure leaves what was stored before it. `WalkChainSucceeds`, `WalkChainSticky`, `WalkChainUntouched` and `WalkChainStores` state its properties. |
| `ForwardKinematics.WalkChains` | kinematics/forward_kinematics.py:161-169 | The state after walking the chains in order; the model's chain table `Chains` is the `chains` dictionary at :40-47 in its insertion order. `WalkChainsSucceeds`, `WalkChainsSticky`, `WalkChainsUntouched`, `WalkChainsStores` and `ForwardKinematicsOutcome` state its properties. |
| `ForwardKinematics.ChainJointsHaveOffsets` | kinematics/forward_kinematics.py:40-88 | Every joint named in the chain table has an entry in the offset table. |
| `ForwardKinematics.AxisListsDisjoint` | kinematics/forward_kinematics.py:48-53 | No joint is in two of the four axis lists. |
| `ForwardKinematics.AxisListsCoverOffsets` | kinematics/forward_kinematics.py:48-88 | A joint is in some axis list if and only if it is a key of the offset table. Together the four lists name exactly the 22 offset keys. |
| `ForwardKinematics.ConfigurationWellFormed` | kinematics/forward_kinematics.py:40-88 | Every chain joint has an offset and belongs to exactly one axis class, so `AxisOf` classifies it. |
| `ForwardKinematics.ChainJointsDistinct` | kinematics/forward_kinematics.py:40-47 | No joint occurs twice in the chain table, neither within one chain nor across chains. |
| `ForwardKinematics.LocalTransFails` | kinematics/forward_kinematics.py:88-109 | `local_trans` fails if and only if the joint has no offset (`joint_offset` returns `None` and indexing it fails). The error names that joint; the name is the model's addition, since Python's `TypeError` does not carry it. |
| `ForwardKinematics.LocalTransShape` | kinematics/forward_kinematics.py:98-154 | For a joint with an offset: the transform exists and its bottom row is `[0,0,0,1]`. For a Roll, Pitch, Yaw or YawPitch joint, its translation column is `(dx, dy, dz)` from the offset table. A joint in no axis list keeps the identity. |
| `ForwardKinematics.LocalTransAtZero` | kinematics/forward_kinematics.py:111-146 | At angle zero (`c = 1`, `s = 0`), every classified joint's transform is the pure translation by its offset, with an identity rotation block. |
| `ForwardKinematics.LeftHipAtZero` | kinematics/forward_kinematics.py:74 | At angle zero, `LHipYawPitch` with offset (0, 50, -85) has translation (0, 50, -85) and an identity rotation. |
| `ForwardKinematics.RotZRotY` | kinematics/forward_kinematics.py:136-146 | `R_z·R_y` multiplied out has rows `[c², s, cs, 0]`, `[-sc, c, -s², 0]`, `[-s, 0, c, 0]` and `[0,0,0,1]`, so its translation is zero. |
| `ForwardKinematics.YawPitchProduct` | kinematics/forward_kinematics.py:130-146 | `TR·(R_z·R_y)` equals the closed form: the rotation block of `R_z·R_y` with the offset as translation column. |
| `ForwardKinematics.YawPitchClosedForm` | kinematics/forward_kinematics.py:130-146 | A YawPitch joint's local transform is `TR·(R_z·R_y)` in that order, multiplied out. Its translation column is the offset. |
| `ForwardKinematics.YawPitchOrderMatters` | kinematics/forward_kinematics.py:129-146 | For a proper rotation (`c² + s² = 1`) with `s ≠ 0`, a YawPitch joint's transform differs from the reversed order `TR·(R_y·R_z)`. |
| `ForwardKinematics.ChainProductDefined` | kinematics/forward_kinematics.py:161-167 | The ordered product of a chain's local transforms exists if and only if every joint has an angle and an offset. A failure names a chain joint that lacks what it reports: a missing angle fails the lookup at :164, a missing offset fails at :107. |
| `ForwardKinematics.ChainProductFirstTwo` | kinematics/forward_kinematics.py:161-169 | Starting from the identity, the running product after the first joint is `L(j0)` and after the second is `L(j0)·L(j1)`, accumulated left to right. |
| `ForwardKinematics.WalkChainSucceeds` | kinematics/forward_kinematics.py:163-169 | A walk along one chain finishes without error if and only if the product of the whole chain exists. |
| `ForwardKinematics.WalkChainSticky` | kinematics/forward_kinematics.py:163-169 | Once a chain walk has failed, the remaining joints change nothing. |
| `ForwardKinematics.WalkChainsSticky` | kinematics/forward_kinematics.py:161-169 | Once the walk over chains has failed, the remaining chains change nothing. |
| `ForwardKinematics.WalkChainUntouched` | kinematics/forward_kinematics.py:163-169 | Walking a chain leaves the entry of every joint outside that chain unchanged, including whether it is present. |
| `ForwardKinematics.WalkChainStores` | kinematics/forward_kinematics.py:163-169 | After a successful walk, the stored entry of the joint at position k equals the product `L(j0)·…·L(jk)`, provided the joint does not occur again later in the chain. |
| `ForwardKinematics.WalkChainsSucceeds` | kinematics/forward_kinematics.py:161-169 | The walk over all chains succeeds if and only if every chain joint has an angle and an offset. |
| `ForwardKinematics.WalkChainsUntouched` | kinematics/forward_kinematics.py:37-169 | Joints in no chain keep their entry, even when the walk fails. |
| `ForwardKinematics.WalkChainsStores` | kinematics/forward_kinematics.py:161-169 | After a successful walk, the entry of the k-th joint of chain ci equals the ordered product of that chain's first k+1 local transforms, starting from the identity. This holds when no later position names the joint: the last chain that stores a joint wins. |
| `ForwardKinematics.ForwardKinematicsOutcome` | kinematics/forward_kinematics.py:40-169 | With the shipped tables, forward kinematics fails if and only if some chain joint has no angle. Otherwise, every chain joint's entry is the ordered product of the local transforms from its chain's root to that joint. |
| `ForwardKinematics.ForwardKinematicsUntouched` | kinematics/forward_kinematics.py:37-169 | With the shipped tables, every joint outside the chains keeps its initial entry (the identity set by the constructor). |
| `ForwardKinematics.ForwardKinematicsAgent.constructor` | kinematics/forward_kinematics.py:37 | `transforms` maps every joint name of the robot to the 4x4 identity. |
| `ForwardKinematics.ForwardKinematicsAgent.ForwardKinematics` | kinematics/forward_kinematics.py:156-169 | The loop over the chain table leaves `transforms` and the returned error exactly as `WalkChains` describes, starting from the old `transforms`. It stops at the first failing chain. |
| `ForwardKinematics.ForwardKinematicsAgent.WalkOneChain` | kinematics/forward_kinematics.py:162-169 | The inner loop over one chain's joints leaves `transforms` and the error exactly as `WalkChain` describes. Its invariant keeps the running matrix `T` equal to the ordered product of the local transforms walked so far. |
| `Matrix4.Identity` | kinematics/forward_kinematics.py:162 | `identity(4)`: ones on the diagonal, zeros elsewhere. |
| `Matrix4.Mul` | kinematics/forward_kinematics.py:167 | The 4x4 product that `np.dot` and `np.matmul` compute: entry (i, j) is the dot product of row i of the left matrix and column j of the right one. `MulIdentityLeft`, `TranslationOf`, `RotZRotY`, `RotYRotZ` and `YawPitchProduct` are proved about it. |
| `Matrix4.MulIdentityLeft` | kinematics/forward_kinematics.py:162-167 | Multiplying the starting identity by a transform gives that transform. |

## Left out

- The agents' inheritance from `PIDAgent`, their constructors beyond `transforms`, and their `think` methods. These are the simulator control loop and its network connection.
- `np.cos` and `np.sin`: the cosine and sine of each joint angle are inputs. Only `YawPitchOrderMatters` assumes `c² + s² = 1`.
- Floating-point rounding: all arithmetic is exact over the reals.
- The `numpy.matlib` matrix type: replaced by a hand-written real 4x4 product.
- Loading keyframe data from the `keyframes` package: the keyframe triple is an input.
- The `__main__` blocks and the commented-out debug prints.
- Unit conversion: offsets are the millimetre values as written.
- The handle's interpolation type and `dTime` do not affect the curve. The code ignores them, and so does the model.
- `joint_names` of the base agent: it is the constructor's parameter.
- `AngleInterpolation.AngleInterpolation`: requires each joint name to have a row of times and a row of keys at least as long as its times. Python raises `IndexError` at once for a missing row of times, but for a missing or short row of keys only when a segment of that joint matches. The model excludes all such input instead of modelling that exception.
