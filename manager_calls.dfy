/** The factory's two collaborators, the appearance manager and the polygon
    manager, are not part of this model.  What the factory does to them is
    recorded instead: one trace of the calls it makes, in the order it makes
    them.  Each manager's own log is the projection of that trace onto the
    calls addressed to it. */
module ManagerCalls {
  import opened Entities

  /** A call the factory makes on the appearance manager. */
  datatype AppearanceManagerCall =
    | AddAppearanceTarget(target: AppearanceTarget)
    | AddAppearance(appearance: Appearance)
    | AddMaterialTargetDefinition(materialDefinition: MaterialTargetDefinition)
    | AddTextureTargetDefinition(textureDefinition: TextureTargetDefinition)
    | AssignAppearancesToTargets

  /** A call the factory makes on the polygon manager. */
  datatype PolygonManagerCall =
    | AddPolygon(polygon: Polygon)
    | RequestSharedPolygonForGeometry(geometry: Geometry, polygonId: string)
    | Finish

  datatype ManagerCall =
    | ToAppearanceManager(appearanceCall: AppearanceManagerCall)
    | ToPolygonManager(polygonCall: PolygonManagerCall)

  const FinishCall: ManagerCall := ToPolygonManager(Finish)
  const AssignCall: ManagerCall := ToAppearanceManager(AssignAppearancesToTargets)

  /** The calls the appearance manager received, in order. */
  function AppearanceManagerLog(trace: seq<ManagerCall>): (log: seq<AppearanceManagerCall>)
  {
    if trace == [] then []
    else
      var rest := AppearanceManagerLog(trace[1..]);
      match trace[0]
      case ToAppearanceManager(c) => [c] + rest
      case ToPolygonManager(_) => rest
  }

  /** The calls the polygon manager received, in order. */
  function PolygonManagerLog(trace: seq<ManagerCall>): (log: seq<PolygonManagerCall>)
  {
    if trace == [] then []
    else
      var rest := PolygonManagerLog(trace[1..]);
      match trace[0]
      case ToPolygonManager(c) => [c] + rest
      case ToAppearanceManager(_) => rest
  }

  /** Extending the trace extends the appearance manager's log by the
      projection of the extension: the log is never rewritten, only
      appended to. */
  lemma {:induction false} AppearanceLogOfConcat(a: seq<ManagerCall>, b: seq<ManagerCall>)
    ensures AppearanceManagerLog(a + b) == AppearanceManagerLog(a) + AppearanceManagerLog(b)
  {
    if a != [] {
      assert (a + b)[1..] == a[1..] + b;
      AppearanceLogOfConcat(a[1..], b);
    } else {
      assert a + b == b;
    }
  }

  /** The same for the polygon manager's log. */
  lemma {:induction false} PolygonLogOfConcat(a: seq<ManagerCall>, b: seq<ManagerCall>)
    ensures PolygonManagerLog(a + b) == PolygonManagerLog(a) + PolygonManagerLog(b)
  {
    if a != [] {
      assert (a + b)[1..] == a[1..] + b;
      PolygonLogOfConcat(a[1..], b);
    } else {
      assert a + b == b;
    }
  }

  /** The log of a one-call trace. */
  lemma LogsOfSingle(c: ManagerCall)
    ensures AppearanceManagerLog([c]) == if c.ToAppearanceManager? then [c.appearanceCall] else []
    ensures PolygonManagerLog([c]) == if c.ToPolygonManager? then [c.polygonCall] else []
  {
  }

  /** The pairing closeFactory establishes: the polygon manager's `finish`
      appears in the trace exactly where it is immediately followed by the
      appearance manager's `assignAppearancesToTargets`, and that call appears
      exactly where it immediately follows a `finish`. */
  ghost predicate FinishThenAssign(trace: seq<ManagerCall>)
  {
    (forall i :: 0 <= i < |trace| && trace[i] == FinishCall ==>
      i + 1 < |trace| && trace[i + 1] == AssignCall) &&
    (forall i :: 0 <= i < |trace| && trace[i] == AssignCall ==>
      0 < i && trace[i - 1] == FinishCall)
  }

  /** A call that is neither of the two finalizing calls. */
  predicate IsRegistration(c: ManagerCall)
  {
    c != FinishCall && c != AssignCall
  }

  /** Appending registrations keeps the pairing. */
  lemma RegistrationsKeepPairing(trace: seq<ManagerCall>, cs: seq<ManagerCall>)
    requires FinishThenAssign(trace)
    requires forall k :: 0 <= k < |cs| ==> IsRegistration(cs[k])
    ensures FinishThenAssign(trace + cs)
  {
  }

  /** Appending a `finish` and then an `assignAppearancesToTargets` keeps the
      pairing. */
  lemma ClosingKeepsPairing(trace: seq<ManagerCall>)
    requires FinishThenAssign(trace)
    ensures FinishThenAssign(trace + [FinishCall, AssignCall])
  {
  }

  /** The target registration that must come just before a polygon is handed
      to the polygon manager. */
  function TargetCallFor(p: Polygon): ManagerCall
  {
    ToAppearanceManager(AddAppearanceTarget(PolygonTarget(p)))
  }

  /** What createPolygon establishes: every polygon the polygon manager
      received was registered as an appearance target by the call just
      before. */
  ghost predicate PolygonsRegisteredFirst(trace: seq<ManagerCall>)
  {
    forall i :: 0 <= i < |trace| && trace[i].ToPolygonManager? && trace[i].polygonCall.AddPolygon? ==>
      0 < i && trace[i - 1] == TargetCallFor(trace[i].polygonCall.polygon)
  }

  /** `c` may be appended to `trace` without breaking PolygonsRegisteredFirst:
      if it hands over a polygon, the trace ends with that polygon's target
      registration. */
  predicate MayFollow(trace: seq<ManagerCall>, c: ManagerCall)
  {
    c.ToPolygonManager? && c.polygonCall.AddPolygon? ==>
      |trace| > 0 && trace[|trace| - 1] == TargetCallFor(c.polygonCall.polygon)
  }

  lemma AppendKeepsPolygonsRegisteredFirst(trace: seq<ManagerCall>, c: ManagerCall)
    requires PolygonsRegisteredFirst(trace) && MayFollow(trace, c)
    ensures PolygonsRegisteredFirst(trace + [c])
  {
  }
}
