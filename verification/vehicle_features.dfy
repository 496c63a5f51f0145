/**
 * VehicleFeatures.cs: the drive type of a vehicle, detected from its wheels' traction flags when
 * the resource is initialised, and written back to the flags when the DriveType property later
 * changes. Rear and front wheels are those whose lower-cased node name contains "rear" and
 * "front".
 */
module VehicleFeatures {

  /** A VehicleWheel3D: its node name and its UseAsTraction flag. */
  class Wheel {
    const name: string
    var useAsTraction: bool

    constructor (name: string, useAsTraction: bool)
      ensures this.name == name && this.useAsTraction == useAsTraction
    {
      this.name := name;
      this.useAsTraction := useAsTraction;
    }
  }

  /** `ToLower` on ASCII letters. */
  function Lower(s: string): (r: string)
    ensures |r| == |s|
    ensures forall k :: 0 <= k < |s| ==> r[k] == (if 'A' <= s[k] <= 'Z' then (s[k] as int + 32) as char else s[k])
  {
    if s == [] then []
    else [if 'A' <= s[0] <= 'Z' then (s[0] as int + 32) as char else s[0]] + Lower(s[1..])
  }

  /** `s.Contains(sub)`, ordinal. */
  predicate Contains(s: string, sub: string) {
    |sub| <= |s| && (s[..|sub|] == sub || Contains(s[1..], sub))
  }

  predicate IsRear(name: string) {
    Contains(Lower(name), "rear")
  }

  predicate IsFront(name: string) {
    Contains(Lower(name), "front")
  }

  /** VehicleDriveType, with the out-of-range value `(VehicleDriveType)(-1)` as Undefined. */
  datatype DriveType = AllWheelDrive | RearWheelDrive | FrontWheelDrive | Undefined

  /** What detection sees of a wheel: its groups, by name, and its traction flag. */
  datatype WheelState = WheelState(rear: bool, front: bool, traction: bool)

  function Views(wheels: seq<Wheel>): (r: seq<WheelState>)
    reads wheels
    ensures |r| == |wheels|
    ensures forall k :: 0 <= k < |wheels| ==>
      r[k] == WheelState(IsRear(wheels[k].name), IsFront(wheels[k].name), wheels[k].useAsTraction)
  {
    if wheels == [] then []
    else [WheelState(IsRear(wheels[0].name), IsFront(wheels[0].name), wheels[0].useAsTraction)] + Views(wheels[1..])
  }

  predicate AllTraction(ws: seq<WheelState>) {
    forall k :: 0 <= k < |ws| ==> ws[k].traction
  }

  predicate RearTraction(ws: seq<WheelState>) {
    forall k :: 0 <= k < |ws| && ws[k].rear ==> ws[k].traction
  }

  predicate FrontTraction(ws: seq<WheelState>) {
    forall k :: 0 <= k < |ws| && ws[k].front ==> ws[k].traction
  }

  /** GetDriveType: all wheels driven, else all rear wheels, else all front wheels, else undefined. */
  function GetDriveType(ws: seq<WheelState>): (r: DriveType)
    ensures r == AllWheelDrive <==> AllTraction(ws)
    ensures r == RearWheelDrive <==> !AllTraction(ws) && RearTraction(ws)
    ensures r == FrontWheelDrive <==> !AllTraction(ws) && !RearTraction(ws) && FrontTraction(ws)
    ensures r == Undefined <==> !AllTraction(ws) && !RearTraction(ws) && !FrontTraction(ws)
  {
    if AllTraction(ws) then AllWheelDrive
    else if RearTraction(ws) then RearWheelDrive
    else if FrontTraction(ws) then FrontWheelDrive
    else Undefined
  }

  /** The traction flag SetDriveType leaves on a wheel. */
  function Target(w: WheelState, d: DriveType): bool {
    match d
    case AllWheelDrive => true
    case RearWheelDrive => w.rear
    case FrontWheelDrive => w.front
    case Undefined => w.traction
  }

  /** The wheels after SetDriveType. */
  function Assigned(ws: seq<WheelState>, d: DriveType): (r: seq<WheelState>)
    ensures |r| == |ws|
    ensures forall k :: 0 <= k < |ws| ==> r[k] == ws[k].(traction := Target(ws[k], d))
  {
    if ws == [] then [] else [ws[0].(traction := Target(ws[0], d))] + Assigned(ws[1..], d)
  }

  /** With no wheel named rear, detection never gets past rear-wheel drive. */
  lemma NoRearWheelsIsRearWheelDrive(ws: seq<WheelState>)
    requires forall k :: 0 <= k < |ws| ==> !ws[k].rear
    ensures GetDriveType(ws) == AllWheelDrive || GetDriveType(ws) == RearWheelDrive
  {
  }

  /** Setting all-wheel drive is detected as all-wheel drive. */
  lemma SetAllWheelDrive(ws: seq<WheelState>)
    ensures GetDriveType(Assigned(ws, AllWheelDrive)) == AllWheelDrive
  {
  }

  /**
   * Setting rear-wheel drive is detected as rear-wheel drive when some wheel is not a rear
   * wheel; when every wheel is, it is detected as all-wheel drive.
   */
  lemma SetRearWheelDrive(ws: seq<WheelState>)
    ensures (exists k :: 0 <= k < |ws| && !ws[k].rear) ==> GetDriveType(Assigned(ws, RearWheelDrive)) == RearWheelDrive
    ensures (forall k :: 0 <= k < |ws| ==> ws[k].rear) ==> GetDriveType(Assigned(ws, RearWheelDrive)) == AllWheelDrive
  {
    var r := Assigned(ws, RearWheelDrive);
    if exists k :: 0 <= k < |ws| && !ws[k].rear {
      var k :| 0 <= k < |ws| && !ws[k].rear;
      assert !r[k].traction;
    }
  }

  /**
   * Setting front-wheel drive is detected as front-wheel drive only when some rear wheel is not
   * also a front wheel; with no such wheel (say, no wheel named rear) it reads back as rear-wheel
   * drive, or all-wheel drive when every wheel is a front wheel.
   */
  lemma SetFrontWheelDrive(ws: seq<WheelState>)
    ensures (exists k :: 0 <= k < |ws| && ws[k].rear && !ws[k].front) ==> GetDriveType(Assigned(ws, FrontWheelDrive)) == FrontWheelDrive
    ensures (forall k :: 0 <= k < |ws| && ws[k].rear ==> ws[k].front) && (exists k :: 0 <= k < |ws| && !ws[k].front) ==>
      GetDriveType(Assigned(ws, FrontWheelDrive)) == RearWheelDrive
    ensures (forall k :: 0 <= k < |ws| ==> ws[k].front) ==> GetDriveType(Assigned(ws, FrontWheelDrive)) == AllWheelDrive
  {
    var r := Assigned(ws, FrontWheelDrive);
    if exists k :: 0 <= k < |ws| && ws[k].rear && !ws[k].front {
      var k :| 0 <= k < |ws| && ws[k].rear && !ws[k].front;
      assert r[k].rear && !r[k].traction;
    }
    if exists k :: 0 <= k < |ws| && !ws[k].front {
      var k :| 0 <= k < |ws| && !ws[k].front;
      assert !r[k].traction;
    }
  }

  /** `Where(name contains tag)`: the wheels of one group, in order. */
  function Group(wheels: seq<Wheel>, rear: bool): (r: seq<Wheel>)
    ensures forall k :: 0 <= k < |r| ==> r[k] in wheels && (if rear then IsRear(r[k].name) else IsFront(r[k].name))
  {
    if wheels == [] then []
    else
      var w := wheels[0];
      (if (if rear then IsRear(w.name) else IsFront(w.name)) then [w] else []) + Group(wheels[1..], rear)
  }

  /** A wheel of the list is in its group exactly when its name says so. */
  lemma {:induction false} InGroup(wheels: seq<Wheel>, rear: bool, k: nat)
    requires k < |wheels|
    ensures wheels[k] in Group(wheels, rear) <== (if rear then IsRear(wheels[k].name) else IsFront(wheels[k].name))
    ensures wheels[k] in Group(wheels, rear) ==> (if rear then IsRear(wheels[k].name) else IsFront(wheels[k].name))
  {
    if k > 0 {
      InGroup(wheels[1..], rear, k - 1);
    }
  }

  /** Wheels whose flags each hold their target read back as the assigned states. */
  lemma ViewsAssigned(wheels: seq<Wheel>, before: seq<WheelState>, d: DriveType)
    requires |before| == |wheels|
    requires forall k :: 0 <= k < |wheels| ==> before[k].rear == IsRear(wheels[k].name) && before[k].front == IsFront(wheels[k].name)
    requires forall k :: 0 <= k < |wheels| ==> wheels[k].useAsTraction == Target(before[k], d)
    ensures Views(wheels) == Assigned(before, d)
  {
    var v, a := Views(wheels), Assigned(before, d);
    forall k | 0 <= k < |wheels|
      ensures v[k] == a[k]
    {
    }
  }

  /** Drives every wheel of the group, then every other wheel (`Except`) loses traction. */
  method Drive(wheels: seq<Wheel>, group: seq<Wheel>)
    modifies wheels, group
    ensures forall k :: 0 <= k < |wheels| ==> wheels[k].useAsTraction == (wheels[k] in group)
  {
    for i := 0 to |group|
      invariant forall j :: 0 <= j < i ==> group[j].useAsTraction
    {
      group[i].useAsTraction := true;
    }
    for i := 0 to |wheels|
      invariant forall j :: 0 <= j < |group| ==> group[j].useAsTraction
      invariant forall k :: 0 <= k < i ==> wheels[k].useAsTraction == (wheels[k] in group)
    {
      if wheels[i] !in group {
        wheels[i].useAsTraction := false;
      }
    }
  }

  class VehicleFeatures {
    var driveType: DriveType
    var allWheels: seq<Wheel>
    var rearWheels: seq<Wheel>
    var frontWheels: seq<Wheel>
    /** Whether SetDriveType listens to DriveTypeChanged. */
    var attached: bool

    ghost predicate Valid()
      reads this
    {
      && (forall i, j :: 0 <= i < j < |allWheels| ==> allWheels[i] != allWheels[j])
      && rearWheels == Group(allWheels, true)
      && frontWheels == Group(allWheels, false)
    }

    constructor ()
      ensures !attached && allWheels == [] && driveType == AllWheelDrive
    {
      driveType := AllWheelDrive;
      allWheels := [];
      rearWheels := [];
      frontWheels := [];
      attached := false;
    }

    /**
     * Initialise: groups the wheels, detects the drive type from their current flags and only
     * then attaches SetDriveType, so the flags are left as they are.
     */
    method Initialise(wheels: seq<Wheel>)
      requires !attached
      requires forall i, j :: 0 <= i < j < |wheels| ==> wheels[i] != wheels[j]
      modifies this`driveType, this`allWheels, this`rearWheels, this`frontWheels, this`attached
      ensures Valid() && attached && allWheels == wheels
      ensures driveType == GetDriveType(Views(wheels))
    {
      var detected := GetDriveType(Views(wheels));
      var rear, front := Group(wheels, true), Group(wheels, false);
      allWheels, rearWheels, frontWheels := wheels, rear, front;
      driveType, attached := detected, true;
      assert Views(wheels) == old(Views(wheels));
    }

    /** Setting DriveType: a change runs SetDriveType once it is attached. */
    method SetDriveTypeProperty(value: DriveType)
      requires Valid()
      modifies this`driveType, allWheels
      ensures Valid() && driveType == value
      ensures attached && old(driveType) != value ==> Views(allWheels) == Assigned(old(Views(allWheels)), value)
      ensures !attached || old(driveType) == value ==> Views(allWheels) == old(Views(allWheels))
    {
      if driveType != value {
        driveType := value;
        if attached {
          SetDriveType();
        }
      }
    }

    /**
     * SetDriveType: all-wheel drive drives every wheel; rear- or front-wheel drive drives that
     * group and no other wheel; an undefined value changes nothing.
     */
    method SetDriveType()
      requires Valid()
      modifies allWheels
      ensures Views(allWheels) == Assigned(old(Views(allWheels)), driveType)
    {
      ghost var before := Views(allWheels);
      match driveType {
        case AllWheelDrive =>
          for i := 0 to |allWheels|
            invariant forall k :: 0 <= k < |allWheels| ==>
              allWheels[k].useAsTraction == (if k < i then true else before[k].traction)
          {
            allWheels[i].useAsTraction := true;
          }
        case RearWheelDrive =>
          Drive(allWheels, rearWheels);
          forall k | 0 <= k < |allWheels| {
            InGroup(allWheels, true, k);
          }
        case FrontWheelDrive =>
          Drive(allWheels, frontWheels);
          forall k | 0 <= k < |allWheels| {
            InGroup(allWheels, false, k);
          }
        case Undefined =>
      }
      ViewsAssigned(allWheels, before, driveType);
    }
  }
}
