/**
 * Forward kinematics of the NAO humanoid (ForwardKinematicsAgent): the chain
 * and axis tables, the per-joint offsets, the local transform of one joint and
 * the walk along every chain that stores each joint's transform in the torso frame.
 *
 * The cosine and sine of a joint angle are inputs (an `Angle` pair), so every
 * matrix entry is a polynomial in them.
 */
module ForwardKinematics {
  import opened Wrappers
  import opened Matrix4

  /** Translation from the parent joint's frame to this joint's frame, in millimetres. */
  datatype Offset = Offset(dx: real, dy: real, dz: real)

  /** The rotation class of a joint. */
  datatype Axis = Roll | Pitch | Yaw | YawPitch

  /** A named chain and its joints, from the torso outwards. */
  datatype Chain = Chain(name: string, joints: seq<string>)

  /** The cosine and sine of a joint angle. */
  datatype Angle = Angle(cos: real, sin: real)

  /** Why a forward-kinematics call stopped. */
  datatype FkError =
    | MissingOffset(joint: string)  // the offset lookup returned None and indexing it failed
    | MissingAngle(joint: string)   // the joint angle dictionary has no entry for a chain joint

  // ---------------------------------------------------------------------------
  // Configuration tables
  // ---------------------------------------------------------------------------

  /** The chains, in the order the chain dictionary yields them. */
  const Chains: seq<Chain> := [
    Chain("Head", ["HeadYaw", "HeadPitch"]),
    Chain("LArm", ["LShoulderPitch", "LShoulderRoll", "LElbowYaw", "LElbowRoll"]),
    Chain("LLeg", ["LHipYawPitch", "LHipRoll", "LHipPitch", "LKneePitch", "LAnklePitch", "LAnkleRoll"]),
    Chain("RLeg", ["RHipYawPitch", "RHipRoll", "RHipPitch", "RKneePitch", "RAnklePitch", "RAnkleRoll"]),
    Chain("RArm", ["RShoulderPitch", "RShoulderRoll", "RElbowYaw", "RElbowRoll"])
  ]

  const RollJoints: seq<string> := [
    "LShoulderRoll", "LElbowRoll", "LHipRoll", "LAnkleRoll",
    "RHipRoll", "RAnkleRoll", "RShoulderRoll", "RElbowRoll"
  ]

  const YawJoints: seq<string> := ["HeadYaw", "LElbowYaw", "RElbowYaw"]

  const PitchJoints: seq<string> := [
    "HeadPitch", "LShoulderPitch", "LHipPitch", "LKneePitch", "LAnklePitch",
    "RHipPitch", "RKneePitch", "RAnklePitch", "RShoulderPitch"
  ]

  const YawPitchJoints: seq<string> := ["LHipYawPitch", "RHipYawPitch"]

  /** The offset of every joint, as written in the offset dictionary. */
  const OffsetTable: map<string, Offset> := map[
    "HeadYaw" := Offset(0.0, 0.0, 126.5),
    "HeadPitch" := Offset(0.0, 0.0, 0.0),
    "LShoulderPitch" := Offset(0.0, 98.0, 100.0),
    "LShoulderRoll" := Offset(0.0, 0.0, 0.0),
    "LElbowYaw" := Offset(105.0, 15.0, 0.0),
    "LElbowRoll" := Offset(0.0, 0.0, 0.0),
    "RShoulderPitch" := Offset(0.0, -98.0, 100.0),
    "RShoulderRoll" := Offset(0.0, 0.0, 0.0),
    "RElbowYaw" := Offset(105.0, -15.0, 0.0),
    "RElbowRoll" := Offset(0.0, 0.0, 0.0),
    "LHipYawPitch" := Offset(0.0, 50.0, -85.0),
    "LHipRoll" := Offset(0.0, 0.0, 0.0),
    "LHipPitch" := Offset(0.0, 0.0, 0.0),
    "LKneePitch" := Offset(0.0, 0.0, -100.0),
    "LAnklePitch" := Offset(0.0, 0.0, -102.9),
    "LAnkleRoll" := Offset(0.0, 0.0, 0.0),
    "RHipYawPitch" := Offset(0.0, -50.0, -85.0),
    "RHipRoll" := Offset(0.0, 0.0, 0.0),
    "RHipPitch" := Offset(0.0, 0.0, 0.0),
    "RKneePitch" := Offset(0.0, 0.0, -100.0),
    "RAnklePitch" := Offset(0.0, 0.0, -102.9),
    "RAnkleRoll" := Offset(0.0, 0.0, 0.0)
  ]

  /** joint_offset: the offset of a joint, or None for a name the table does not know. */
  function JointOffset(name: string): Option<Offset>
  {
    if name in OffsetTable then Some(OffsetTable[name]) else None
  }

  /** The axis class of a joint, tested in the order Roll, Pitch, Yaw, YawPitch. */
  function AxisOf(name: string): Option<Axis>
  {
    if name in RollJoints then Some(Roll)
    else if name in PitchJoints then Some(Pitch)
    else if name in YawJoints then Some(Yaw)
    else if name in YawPitchJoints then Some(YawPitch)
    else None
  }

  /** How many of the four axis lists name the joint. */
  function ClassCount(name: string): nat
  {
    (if name in RollJoints then 1 else 0) + (if name in PitchJoints then 1 else 0) +
    (if name in YawJoints then 1 else 0) + (if name in YawPitchJoints then 1 else 0)
  }

  // ---------------------------------------------------------------------------
  // Local transform of one joint
  // ---------------------------------------------------------------------------

  /** The pure translation by an offset (TR). */
  function Translation(o: Offset): (m: Matrix)
    ensures Is4x4(m)
  {
    [[1.0, 0.0, 0.0, o.dx],
     [0.0, 1.0, 0.0, o.dy],
     [0.0, 0.0, 1.0, o.dz],
     [0.0, 0.0, 0.0, 1.0]]
  }

  /** The pitch rotation about the y axis (R_y). */
  function RotY(c: real, s: real): (m: Matrix)
    ensures Is4x4(m)
  {
    [[c, 0.0, s, 0.0],
     [0.0, 1.0, 0.0, 0.0],
     [-s, 0.0, c, 0.0],
     [0.0, 0.0, 0.0, 1.0]]
  }

  /** The yaw rotation about the z axis (R_z), with the sign convention of the Yaw case. */
  function RotZ(c: real, s: real): (m: Matrix)
    ensures Is4x4(m)
  {
    [[c, s, 0.0, 0.0],
     [-s, c, 0.0, 0.0],
     [0.0, 0.0, 1.0, 0.0],
     [0.0, 0.0, 0.0, 1.0]]
  }

  /**
   * local_trans: the transform of one joint relative to its parent. A joint
   * without an offset fails; a joint with an offset but in no axis list keeps
   * the identity.
   */
  function LocalTrans(name: string, a: Angle): (r: Result<Matrix, FkError>)
    ensures r.Ok? ==> Is4x4(r.value)
  {
    match JointOffset(name)
    case None => Err(MissingOffset(name))
    case Some(o) =>
      var c, s := a.cos, a.sin;
      match AxisOf(name)
      case Some(Roll) =>
        Ok([[1.0, 0.0, 0.0, o.dx],
            [0.0, c, -s, o.dy],
            [0.0, s, c, o.dz],
            [0.0, 0.0, 0.0, 1.0]])
      case Some(Pitch) =>
        Ok([[c, 0.0, s, o.dx],
            [0.0, 1.0, 0.0, o.dy],
            [-s, 0.0, c, o.dz],
            [0.0, 0.0, 0.0, 1.0]])
      case Some(Yaw) =>
        Ok([[c, s, 0.0, o.dx],
            [-s, c, 0.0, o.dy],
            [0.0, 0.0, 1.0, o.dz],
            [0.0, 0.0, 0.0, 1.0]])
      case Some(YawPitch) =>
        Ok(Mul(Translation(o), Mul(RotZ(c, s), RotY(c, s))))
      case None =>
        Ok(Identity())
  }

  // ---------------------------------------------------------------------------
  // Walking the chains
  // ---------------------------------------------------------------------------

  /**
   * The ordered product L(js[0])·…·L(js[|js|-1]) of local transforms, starting
   * from the identity, or the first failure met on the way (angle lookup first,
   * then the local transform).
   */
  function ChainProduct(joints: map<string, Angle>, js: seq<string>): (r: Result<Matrix, FkError>)
    ensures r.Ok? ==> Is4x4(r.value)
  {
    if js == [] then Ok(Identity())
    else
      match ChainProduct(joints, js[..|js| - 1])
      case Err(e) => Err(e)
      case Ok(t) =>
        var j := js[|js| - 1];
        if j !in joints then Err(MissingAngle(j))
        else
          match LocalTrans(j, joints[j])
          case Err(e) => Err(e)
          case Ok(l) => Ok(Mul(t, l))
  }

  /** The transforms dictionary and the failure, if any, that stopped the walk. */
  datatype State = State(transforms: map<string, Matrix>, error: Option<FkError>)

  /** The state after walking the joints js of one chain from transforms tr. */
  function WalkChain(tr: map<string, Matrix>, joints: map<string, Angle>, js: seq<string>): State
  {
    if js == [] then State(tr, None)
    else
      var s := WalkChain(tr, joints, js[..|js| - 1]);
      if s.error.Some? then s
      else
        match ChainProduct(joints, js)
        case Err(e) => State(s.transforms, Some(e))
        case Ok(t) => State(s.transforms[js[|js| - 1] := t], None)
  }

  /** The state after walking the chains in order from transforms tr. */
  function WalkChains(tr: map<string, Matrix>, joints: map<string, Angle>, chains: seq<Chain>): State
  {
    if chains == [] then State(tr, None)
    else
      var s := WalkChains(tr, joints, chains[..|chains| - 1]);
      if s.error.Some? then s
      else WalkChain(s.transforms, joints, chains[|chains| - 1].joints)
  }

  /** The agent's kinematic state: the last transform computed for every joint. */
  class ForwardKinematicsAgent {
    var transforms: map<string, Matrix>

    /** Every joint the robot has starts at the identity. */
    constructor (jointNames: set<string>)
      ensures transforms == map n | n in jointNames :: Identity()
    {
      transforms := map n | n in jointNames :: Identity();
    }

    /**
     * forward_kinematics: walk every chain from the identity, multiply in each
     * joint's local transform and store the running product under the joint's
     * name. A failure stops the walk and leaves the entries stored so far.
     */
    method ForwardKinematics(joints: map<string, Angle>) returns (err: Option<FkError>)
      modifies this
      ensures State(transforms, err) == WalkChains(old(transforms), joints, Chains)
    {
      err := None;
      for c := 0 to |Chains|
        invariant err == None
        invariant State(transforms, None) == WalkChains(old(transforms), joints, Chains[..c])
      {
        WalkChainsStep(old(transforms), joints, Chains, c);
        err := WalkOneChain(joints, Chains[c].joints);
        assert State(transforms, err) == WalkChains(old(transforms), joints, Chains[..c + 1]);
        if err.Some? {
          WalkChainsSticky(old(transforms), joints, Chains, c + 1);
          return;
        }
      }
      assert Chains[..|Chains|] == Chains;
    }

    /** The body of the chain loop: one chain, from the identity, joint by joint. */
    method WalkOneChain(joints: map<string, Angle>, js: seq<string>) returns (err: Option<FkError>)
      modifies this
      ensures State(transforms, err) == WalkChain(old(transforms), joints, js)
    {
      var t := Identity();
      for k := 0 to |js|
        invariant ChainProduct(joints, js[..k]) == Ok(t)
        invariant State(transforms, None) == WalkChain(old(transforms), joints, js[..k])
      {
        assert js[..k + 1][..k] == js[..k];
        var j := js[k];
        if j !in joints {
          WalkChainSticky(old(transforms), joints, js, k + 1);
          return Some(MissingAngle(j));
        }
        var l := LocalTrans(j, joints[j]);
        if l.Err? {
          WalkChainSticky(old(transforms), joints, js, k + 1);
          return Some(l.error);
        }
        t := Mul(t, l.value);
        transforms := transforms[j := t];
      }
      assert js[..|js|] == js;
      return None;
    }
  }

  /** Once a chain walk has failed, walking further joints changes nothing. */
  lemma {:induction false} WalkChainSticky(tr: map<string, Matrix>, joints: map<string, Angle>, js: seq<string>, k: nat)
    requires k <= |js|
    requires WalkChain(tr, joints, js[..k]).error.Some?
    ensures WalkChain(tr, joints, js) == WalkChain(tr, joints, js[..k])
  {
    if k < |js| {
      assert js[..|js| - 1][..k] == js[..k];
      WalkChainSticky(tr, joints, js[..|js| - 1], k);
    } else {
      assert js[..k] == js;
    }
  }

  /** Walking one more chain after a successful prefix walks that chain from where the prefix left off. */
  lemma WalkChainsStep(tr: map<string, Matrix>, joints: map<string, Angle>, chains: seq<Chain>, c: nat)
    requires c < |chains|
    requires WalkChains(tr, joints, chains[..c]).error.None?
    ensures WalkChains(tr, joints, chains[..c + 1])
      == WalkChain(WalkChains(tr, joints, chains[..c]).transforms, joints, chains[c].joints)
  {
    assert chains[..c + 1][..c] == chains[..c];
  }

  /** Once a walk over chains has failed, walking further chains changes nothing. */
  lemma {:induction false} WalkChainsSticky(tr: map<string, Matrix>, joints: map<string, Angle>, chains: seq<Chain>, k: nat)
    requires k <= |chains|
    requires WalkChains(tr, joints, chains[..k]).error.Some?
    ensures WalkChains(tr, joints, chains) == WalkChains(tr, joints, chains[..k])
  {
    if k < |chains| {
      assert chains[..|chains| - 1][..k] == chains[..k];
      WalkChainsSticky(tr, joints, chains[..|chains| - 1], k);
    } else {
      assert chains[..k] == chains;
    }
  }

  // ---------------------------------------------------------------------------
  // Properties of the configuration tables
  // ---------------------------------------------------------------------------

  /** Every joint named in a chain has an entry in the offset table. */
  lemma ChainJointsHaveOffsets()
    ensures forall ci, k :: 0 <= ci < |Chains| && 0 <= k < |Chains[ci].joints| ==>
              Chains[ci].joints[k] in OffsetTable
  {
  }

  /** No joint is in two of the four axis lists. */
  lemma AxisListsDisjoint()
    ensures forall name :: ClassCount(name) <= 1
  {
  }

  /** The joints in some axis list are exactly the joints of the offset table. */
  lemma AxisListsCoverOffsets()
    ensures forall name :: name in OffsetTable <==> ClassCount(name) == 1
  {
  }

  /** Every chain joint has an offset and belongs to exactly one axis class. */
  lemma ConfigurationWellFormed()
    ensures forall ci, k :: 0 <= ci < |Chains| && 0 <= k < |Chains[ci].joints| ==>
              Chains[ci].joints[k] in OffsetTable && ClassCount(Chains[ci].joints[k]) == 1 &&
              AxisOf(Chains[ci].joints[k]).Some?
  {
    ChainJointsHaveOffsets();
    AxisListsCoverOffsets();
  }

  /** No joint occurs twice in the chain table, within a chain or across chains. */
  lemma ChainJointsDistinct()
    ensures forall c1, k1, c2, k2 ::
              (0 <= c1 < |Chains| && 0 <= k1 < |Chains[c1].joints| &&
               0 <= c2 < |Chains| && 0 <= k2 < |Chains[c2].joints| && (c1 != c2 || k1 != k2))
              ==> Chains[c1].joints[k1] != Chains[c2].joints[k2]
  {
    ChainsNoDuplicates();
    ChainsDisjoint();
    forall c1, k1, c2, k2 |
      0 <= c1 < |Chains| && 0 <= k1 < |Chains[c1].joints| &&
      0 <= c2 < |Chains| && 0 <= k2 < |Chains[c2].joints| && (c1 != c2 || k1 != k2)
      ensures Chains[c1].joints[k1] != Chains[c2].joints[k2]
    {
      if c1 < c2 {
        assert Chains[c1].joints[k1] !in Chains[c2].joints;
      } else if c2 < c1 {
        assert Chains[c2].joints[k2] !in Chains[c1].joints;
      }
    }
  }

  /** No name occurs twice in js. */
  predicate NoDuplicates(js: seq<string>)
  {
    forall k1, k2 :: 0 <= k1 < k2 < |js| ==> js[k1] != js[k2]
  }

  /** No name of a occurs in b. */
  predicate Disjoint(a: seq<string>, b: seq<string>)
  {
    forall k :: 0 <= k < |a| ==> a[k] !in b
  }

  // The table facts below are split chain by chain so that each proof compares few names.

  /** No chain names a joint twice. */
  lemma ChainsNoDuplicates()
    ensures forall c :: 0 <= c < |Chains| ==> NoDuplicates(Chains[c].joints)
  {
    ArmsNoDuplicates();
    LegsNoDuplicates();
    assert NoDuplicates(Chains[0].joints);
  }

  lemma ArmsNoDuplicates()
    ensures NoDuplicates(Chains[1].joints) && NoDuplicates(Chains[4].joints)
  {
  }

  lemma LegsNoDuplicates()
    ensures NoDuplicates(Chains[2].joints) && NoDuplicates(Chains[3].joints)
  {
  }

  /** No two chains share a joint. */
  lemma ChainsDisjoint()
    ensures forall c1, c2 :: 0 <= c1 < c2 < |Chains| ==> Disjoint(Chains[c1].joints, Chains[c2].joints)
  {
    HeadDisjointFromLater();
    LArmDisjointFromLater();
    LLegDisjointFromLater();
    RLegDisjointFromLater();
  }

  lemma HeadDisjointFromLater()
    ensures forall c2 :: 0 < c2 < |Chains| ==> Disjoint(Chains[0].joints, Chains[c2].joints)
  {
  }

  lemma LArmDisjointFromLater()
    ensures forall c2 :: 1 < c2 < |Chains| ==> Disjoint(Chains[1].joints, Chains[c2].joints)
  {
  }

  lemma LLegDisjointFromLater()
    ensures forall c2 :: 2 < c2 < |Chains| ==> Disjoint(Chains[2].joints, Chains[c2].joints)
  {
  }

  lemma RLegDisjointFromLater()
    ensures Disjoint(Chains[3].joints, Chains[4].joints)
  {
  }

  // ---------------------------------------------------------------------------
  // Properties of the local transform
  // ---------------------------------------------------------------------------

  /** local_trans fails exactly for a joint without an offset, and names that joint. */
  lemma LocalTransFails(name: string, a: Angle)
    ensures LocalTrans(name, a).Err? <==> name !in OffsetTable
    ensures LocalTrans(name, a).Err? ==> LocalTrans(name, a).error == MissingOffset(name)
  {
  }

  /** The yaw rotation followed by the pitch rotation, multiplied out. */
  lemma RotZRotY(c: real, s: real)
    ensures Mul(RotZ(c, s), RotY(c, s)) ==
            [[c * c, s, c * s, 0.0],
             [-s * c, c, -s * s, 0.0],
             [-s, 0.0, c, 0.0],
             [0.0, 0.0, 0.0, 1.0]]
  {
    var m := [[c * c, s, c * s, 0.0], [-s * c, c, -s * s, 0.0], [-s, 0.0, c, 0.0], [0.0, 0.0, 0.0, 1.0]];
    EqualByEntries(Mul(RotZ(c, s), RotY(c, s)), m);
  }

  /** The pitch rotation followed by the yaw rotation, multiplied out. */
  lemma RotYRotZ(c: real, s: real)
    ensures Mul(RotY(c, s), RotZ(c, s)) ==
            [[c * c, c * s, s, 0.0],
             [-s, c, 0.0, 0.0],
             [-s * c, -s * s, c, 0.0],
             [0.0, 0.0, 0.0, 1.0]]
  {
    var m := [[c * c, c * s, s, 0.0], [-s, c, 0.0, 0.0], [-s * c, -s * s, c, 0.0], [0.0, 0.0, 0.0, 1.0]];
    EqualByEntries(Mul(RotY(c, s), RotZ(c, s)), m);
  }

  /** Translating a transform without translation puts the offset in its last column. */
  lemma TranslationOf(o: Offset, m: Matrix)
    requires Is4x4(m)
    requires m[0][3] == 0.0 && m[1][3] == 0.0 && m[2][3] == 0.0 && m[3] == [0.0, 0.0, 0.0, 1.0]
    ensures Mul(Translation(o), m) ==
            [[m[0][0], m[0][1], m[0][2], o.dx],
             [m[1][0], m[1][1], m[1][2], o.dy],
             [m[2][0], m[2][1], m[2][2], o.dz],
             [0.0, 0.0, 0.0, 1.0]]
  {
    var r := [[m[0][0], m[0][1], m[0][2], o.dx], [m[1][0], m[1][1], m[1][2], o.dy],
              [m[2][0], m[2][1], m[2][2], o.dz], [0.0, 0.0, 0.0, 1.0]];
    EqualByEntries(Mul(Translation(o), m), r);
  }

  /** The YawPitch transform multiplied out: the rotation block of R_z·R_y and the offset. */
  function YawPitchMatrix(o: Offset, c: real, s: real): (m: Matrix)
    ensures Is4x4(m)
  {
    [[c * c, s, c * s, o.dx],
     [-s * c, c, -s * s, o.dy],
     [-s, 0.0, c, o.dz],
     [0.0, 0.0, 0.0, 1.0]]
  }

  /**
   * A YawPitch joint's transform is TR·(R_z·R_y) multiplied out: the rotation
   * block of R_z·R_y and the joint's offset as translation.
   */
  lemma YawPitchClosedForm(name: string, a: Angle)
    requires name in OffsetTable && AxisOf(name) == Some(YawPitch)
    ensures LocalTrans(name, a) == Ok(YawPitchMatrix(OffsetTable[name], a.cos, a.sin))
  {
    var o, c, s := OffsetTable[name], a.cos, a.sin;
    assert JointOffset(name) == Some(o);
    assert LocalTrans(name, a) == Ok(Mul(Translation(o), Mul(RotZ(c, s), RotY(c, s))));
    YawPitchProduct(o, c, s);
  }

  /** TR·(R_z·R_y) multiplied out. */
  lemma YawPitchProduct(o: Offset, c: real, s: real)
    ensures Mul(Translation(o), Mul(RotZ(c, s), RotY(c, s))) == YawPitchMatrix(o, c, s)
  {
    var m := Mul(RotZ(c, s), RotY(c, s));
    RotZRotY(c, s);
    TranslationOf(o, m);
    var r := Mul(Translation(o), m);
    assert r[0] == YawPitchMatrix(o, c, s)[0];
    assert r[1] == YawPitchMatrix(o, c, s)[1];
    assert r[2] == YawPitchMatrix(o, c, s)[2];
    assert r[3] == YawPitchMatrix(o, c, s)[3];
  }

  /**
   * Every local transform of a joint with an offset has bottom row [0, 0, 0, 1];
   * for a classified joint its translation column is the joint's offset, and an
   * unclassified joint gets the identity.
   */
  lemma LocalTransShape(name: string, a: Angle)
    requires name in OffsetTable
    ensures LocalTrans(name, a).Ok?
    ensures LocalTrans(name, a).value[3] == [0.0, 0.0, 0.0, 1.0]
    ensures AxisOf(name).Some? ==>
              var m, o := LocalTrans(name, a).value, OffsetTable[name];
              m[0][3] == o.dx && m[1][3] == o.dy && m[2][3] == o.dz
    ensures AxisOf(name).None? ==> LocalTrans(name, a).value == Identity()
  {
    if AxisOf(name) == Some(YawPitch) {
      YawPitchClosedForm(name, a);
    }
  }

  /** At angle zero (cos 1, sin 0) a classified joint's transform is the pure translation by its offset. */
  lemma LocalTransAtZero(name: string)
    requires name in OffsetTable && AxisOf(name).Some?
    ensures LocalTrans(name, Angle(1.0, 0.0)) == Ok(Translation(OffsetTable[name]))
  {
    if AxisOf(name) == Some(YawPitch) {
      YawPitchClosedForm(name, Angle(1.0, 0.0));
    }
  }

  /** The left hip at angle zero is the pure translation by (0, 50, -85). */
  lemma LeftHipAtZero()
    ensures LocalTrans("LHipYawPitch", Angle(1.0, 0.0)) ==
            Ok([[1.0, 0.0, 0.0, 0.0],
                [0.0, 1.0, 0.0, 50.0],
                [0.0, 0.0, 1.0, -85.0],
                [0.0, 0.0, 0.0, 1.0]])
  {
    LocalTransAtZero("LHipYawPitch");
  }

  /**
   * The composition order of a YawPitch joint matters: for any proper rotation
   * with a non-zero sine, TR·(R_z·R_y) differs from TR·(R_y·R_z).
   */
  lemma YawPitchOrderMatters(name: string, a: Angle)
    requires name in OffsetTable && AxisOf(name) == Some(YawPitch)
    requires a.cos * a.cos + a.sin * a.sin == 1.0 && a.sin != 0.0
    ensures LocalTrans(name, a).value !=
            Mul(Translation(OffsetTable[name]), Mul(RotY(a.cos, a.sin), RotZ(a.cos, a.sin)))
  {
    var o, c, s := OffsetTable[name], a.cos, a.sin;
    YawPitchClosedForm(name, a);
    RotYRotZ(c, s);
    TranslationOf(o, Mul(RotY(c, s), RotZ(c, s)));
    assert s * s > 0.0;
    assert c * c == 1.0 - s * s;
    assert (c - 1.0) * (c + 1.0) == c * c - 1.0;
    assert (c - 1.0) * (c + 1.0) < 0.0;
    assert c != 1.0;
    assert s - c * s == s * (1.0 - c);
    assert s * (1.0 - c) != 0.0;
    assert LocalTrans(name, a).value[0][1] != Mul(Translation(o), Mul(RotY(c, s), RotZ(c, s)))[0][1];
  }

  // ---------------------------------------------------------------------------
  // Properties of the chain walk
  // ---------------------------------------------------------------------------

  /** Every joint of js has an angle in the map and an offset in the table. */
  predicate JointsReady(joints: map<string, Angle>, js: seq<string>)
  {
    forall k :: 0 <= k < |js| ==> js[k] in joints && js[k] in OffsetTable
  }

  /**
   * The chain product exists exactly when every joint has an angle and an
   * offset; a failure names a joint that lacks the one it reports.
   */
  lemma {:induction false} ChainProductDefined(joints: map<string, Angle>, js: seq<string>)
    ensures ChainProduct(joints, js).Ok? <==> JointsReady(joints, js)
    ensures ChainProduct(joints, js).Err? ==>
              var e := ChainProduct(joints, js).error;
              e.joint in js && (e.MissingAngle? ==> e.joint !in joints) &&
              (e.MissingOffset? ==> e.joint !in OffsetTable)
  {
    if js != [] {
      var init := js[..|js| - 1];
      ChainProductDefined(joints, init);
      var j := js[|js| - 1];
      if j in joints {
        LocalTransFails(j, joints[j]);
      }
      assert forall k :: 0 <= k < |init| ==> init[k] == js[k];
    }
  }

  /** The first two stored products of a chain are L(j0) and L(j0)·L(j1). */
  lemma ChainProductFirstTwo(joints: map<string, Angle>, js: seq<string>)
    requires |js| >= 2 && ChainProduct(joints, js[..2]).Ok?
    ensures js[0] in joints && js[1] in joints
    ensures LocalTrans(js[0], joints[js[0]]).Ok? && LocalTrans(js[1], joints[js[1]]).Ok?
    ensures ChainProduct(joints, js[..1]) == LocalTrans(js[0], joints[js[0]])
    ensures ChainProduct(joints, js[..2]).value ==
            Mul(LocalTrans(js[0], joints[js[0]]).value, LocalTrans(js[1], joints[js[1]]).value)
  {
    assert js[..2][..1] == js[..1];
    assert js[..1][..0] == [];
    MulIdentityLeft(LocalTrans(js[0], joints[js[0]]).value);
  }

  /** A chain walk succeeds exactly when the product of the whole chain exists. */
  lemma {:induction false} WalkChainSucceeds(tr: map<string, Matrix>, joints: map<string, Angle>, js: seq<string>)
    ensures WalkChain(tr, joints, js).error.None? <==> ChainProduct(joints, js).Ok?
  {
    if js != [] {
      WalkChainSucceeds(tr, joints, js[..|js| - 1]);
    }
  }

  /** Walking a chain leaves the entry of every joint outside the chain as it was. */
  lemma {:induction false} WalkChainUntouched(tr: map<string, Matrix>, joints: map<string, Angle>, js: seq<string>, j: string)
    requires j !in js
    ensures j in WalkChain(tr, joints, js).transforms <==> j in tr
    ensures j in tr ==> WalkChain(tr, joints, js).transforms[j] == tr[j]
  {
    if js != [] {
      assert j !in js[..|js| - 1] by {
        assert forall x :: x in js[..|js| - 1] ==> x in js;
      }
      WalkChainUntouched(tr, joints, js[..|js| - 1], j);
    }
  }

  /**
   * After a successful walk, the entry of the joint at position k (when it does
   * not occur again later in the chain) is the product of the local transforms
   * of the chain's first k + 1 joints.
   */
  lemma {:induction false} WalkChainStores(tr: map<string, Matrix>, joints: map<string, Angle>, js: seq<string>, k: nat)
    requires k < |js| && WalkChain(tr, joints, js).error.None?
    requires forall k' :: k < k' < |js| ==> js[k'] != js[k]
    ensures ChainProduct(joints, js[..k + 1]).Ok?
    ensures js[k] in WalkChain(tr, joints, js).transforms
    ensures WalkChain(tr, joints, js).transforms[js[k]] == ChainProduct(joints, js[..k + 1]).value
  {
    var init := js[..|js| - 1];
    if k == |js| - 1 {
      assert js[..k + 1] == js;
    } else {
      assert init[..k + 1] == js[..k + 1];
      WalkChainStores(tr, joints, init, k);
    }
  }

  /** A walk over chains succeeds exactly when every chain's product exists. */
  lemma {:induction false} WalkChainsSucceeds(tr: map<string, Matrix>, joints: map<string, Angle>, chains: seq<Chain>)
    ensures WalkChains(tr, joints, chains).error.None? <==>
            forall ci :: 0 <= ci < |chains| ==> JointsReady(joints, chains[ci].joints)
  {
    if chains != [] {
      var init := chains[..|chains| - 1];
      WalkChainsSucceeds(tr, joints, init);
      WalkChainsErrorStep(tr, joints, chains);
      ChainProductDefined(joints, chains[|chains| - 1].joints);
      assert forall ci :: 0 <= ci < |init| ==> init[ci] == chains[ci];
    }
  }

  /** The walk over chains succeeds exactly when its prefix does and the last chain's product exists. */
  lemma WalkChainsErrorStep(tr: map<string, Matrix>, joints: map<string, Angle>, chains: seq<Chain>)
    requires chains != []
    ensures WalkChains(tr, joints, chains).error.None? <==>
            WalkChains(tr, joints, chains[..|chains| - 1]).error.None? &&
            ChainProduct(joints, chains[|chains| - 1].joints).Ok?
  {
    var s := WalkChains(tr, joints, chains[..|chains| - 1]);
    WalkChainSucceeds(s.transforms, joints, chains[|chains| - 1].joints);
  }

  /** Walking chains leaves the entry of every joint in no chain as it was, even after a failure. */
  lemma {:induction false} WalkChainsUntouched(tr: map<string, Matrix>, joints: map<string, Angle>, chains: seq<Chain>, j: string)
    requires forall ci :: 0 <= ci < |chains| ==> j !in chains[ci].joints
    ensures j in WalkChains(tr, joints, chains).transforms <==> j in tr
    ensures j in tr ==> WalkChains(tr, joints, chains).transforms[j] == tr[j]
  {
    if chains != [] {
      var init := chains[..|chains| - 1];
      WalkChainsUntouched(tr, joints, init, j);
      WalkChainUntouched(WalkChains(tr, joints, init).transforms, joints, chains[|chains| - 1].joints, j);
    }
  }

  /**
   * After a successful walk, the entry of the k-th joint of chain ci (when no
   * later position names it) is the ordered product of that chain's first k + 1
   * local transforms.
   */
  lemma {:induction false} WalkChainsStores(tr: map<string, Matrix>, joints: map<string, Angle>, chains: seq<Chain>, ci: nat, k: nat)
    requires ci < |chains| && k < |chains[ci].joints|
    requires WalkChains(tr, joints, chains).error.None?
    requires forall k' :: k < k' < |chains[ci].joints| ==> chains[ci].joints[k'] != chains[ci].joints[k]
    requires forall c' :: ci < c' < |chains| ==> chains[ci].joints[k] !in chains[c'].joints
    ensures ChainProduct(joints, chains[ci].joints[..k + 1]).Ok?
    ensures chains[ci].joints[k] in WalkChains(tr, joints, chains).transforms
    ensures WalkChains(tr, joints, chains).transforms[chains[ci].joints[k]] ==
            ChainProduct(joints, chains[ci].joints[..k + 1]).value
  {
    var init := chains[..|chains| - 1];
    var s := WalkChains(tr, joints, init);
    if ci == |chains| - 1 {
      WalkChainStores(s.transforms, joints, chains[ci].joints, k);
    } else {
      assert init[ci] == chains[ci];
      WalkChainsStores(tr, joints, init, ci, k);
      WalkChainUntouched(s.transforms, joints, chains[|chains| - 1].joints, chains[ci].joints[k]);
    }
  }

  /** Every chain joint has an angle in the given map. */
  predicate AnglesGiven(joints: map<string, Angle>)
  {
    forall ci, k :: 0 <= ci < |Chains| && 0 <= k < |Chains[ci].joints| ==> Chains[ci].joints[k] in joints
  }

  /**
   * With the NAO tables: forward kinematics fails exactly when a chain joint has
   * no angle, and otherwise stores for every chain joint the ordered product of
   * the local transforms from its chain's root up to it.
   */
  lemma ForwardKinematicsOutcome(tr: map<string, Matrix>, joints: map<string, Angle>)
    ensures WalkChains(tr, joints, Chains).error.None? <==> AnglesGiven(joints)
    ensures AnglesGiven(joints) ==>
              forall ci, k :: 0 <= ci < |Chains| && 0 <= k < |Chains[ci].joints| ==>
                Chains[ci].joints[k] in WalkChains(tr, joints, Chains).transforms &&
                ChainProduct(joints, Chains[ci].joints[..k + 1]).Ok? &&
                WalkChains(tr, joints, Chains).transforms[Chains[ci].joints[k]] ==
                ChainProduct(joints, Chains[ci].joints[..k + 1]).value
  {
    ChainJointsHaveOffsets();
    WalkChainsSucceeds(tr, joints, Chains);
    if AnglesGiven(joints) {
      ChainJointsDistinct();
      forall ci, k | 0 <= ci < |Chains| && 0 <= k < |Chains[ci].joints|
        ensures Chains[ci].joints[k] in WalkChains(tr, joints, Chains).transforms &&
                ChainProduct(joints, Chains[ci].joints[..k + 1]).Ok? &&
                WalkChains(tr, joints, Chains).transforms[Chains[ci].joints[k]] ==
                ChainProduct(joints, Chains[ci].joints[..k + 1]).value
      {
        WalkChainsStores(tr, joints, Chains, ci, k);
      }
    }
  }

  /** With the NAO tables, the entries of joints in no chain keep their value. */
  lemma ForwardKinematicsUntouched(tr: map<string, Matrix>, joints: map<string, Angle>, j: string)
    requires forall ci :: 0 <= ci < |Chains| ==> j !in Chains[ci].joints
    ensures j in WalkChains(tr, joints, Chains).transforms <==> j in tr
    ensures j in tr ==> WalkChains(tr, joints, Chains).transforms[j] == tr[j]
  {
    WalkChainsUntouched(tr, joints, Chains, j);
  }
}
