/** `CityGMLFactory`: the single entry point that creates every entity of a
    city model, keeps the map of shared geometries, and drives the appearance
    manager and the polygon manager.  The collaborators' own state is not
    modelled; `calls` records, in order, every call the factory makes on
    them. */
module Factory {
  import opened Entities
  import opened ManagerCalls
  import opened Sharing

  class CityGMLFactory {
    /** `m_sharedGeometriesMap`: geometry id to canonical instance. */
    var sharedGeometries: map<string, Geometry>
    /** Every call made on the two managers so far, oldest first. */
    ghost var calls: seq<ManagerCall>

    ghost predicate Valid()
      reads this
    {
      IdConsistent(sharedGeometries) && FinishThenAssign(calls) && PolygonsRegisteredFirst(calls)
    }

    /** The appearance manager's log, as it stands. */
    ghost function AppearanceLog(): seq<AppearanceManagerCall>
      reads this
    {
      AppearanceManagerLog(calls)
    }

    /** The polygon manager's log, as it stands. */
    ghost function PolygonLog(): seq<PolygonManagerCall>
      reads this
    {
      PolygonManagerLog(calls)
    }

    /** A new factory: no shared geometry, no call made on either manager. */
    constructor ()
      ensures Valid()
      ensures sharedGeometries == map[] && calls == []
    {
      sharedGeometries := map[];
      calls := [];
    }

    /** Appends one registration call to the trace, keeping the invariant. */
    ghost method Record(c: ManagerCall)
      requires Valid()
      requires IsRegistration(c) && MayFollow(calls, c)
      modifies this`calls
      ensures Valid()
      ensures calls == old(calls) + [c]
      ensures AppearanceLog() == old(AppearanceLog()) + if c.ToAppearanceManager? then [c.appearanceCall] else []
      ensures PolygonLog() == old(PolygonLog()) + if c.ToPolygonManager? then [c.polygonCall] else []
    {
      RegistrationsKeepPairing(calls, [c]);
      AppendKeepsPolygonsRegisteredFirst(calls, c);
      AppearanceLogOfConcat(calls, [c]);
      PolygonLogOfConcat(calls, [c]);
      calls := calls + [c];
    }

    method CreateCityModel(id: string) returns (m: CityModel)
      ensures fresh(m) && m.id == id
      ensures calls == old(calls)
    {
      m := new CityModel(id);
    }

    method CreateCityObject(id: string, objectType: CityObjectsType) returns (o: CityObject)
      ensures fresh(o) && o.id == id && o.objectType == objectType
      ensures calls == old(calls)
    {
      o := new CityObject(id, objectType);
    }

    /** A new geometry, registered as an appearance target and nothing else;
        the sharing map is not consulted. */
    method CreateGeometry(id: string, geometryType: GeometryType, lod: uint32) returns (g: Geometry)
      requires Valid()
      modifies this`calls
      ensures Valid()
      ensures fresh(g) && g.id == id && g.geometryType == geometryType && g.lod == lod
      ensures calls == old(calls) + [ToAppearanceManager(AddAppearanceTarget(GeometryTarget(g)))]
      ensures AppearanceLog() == old(AppearanceLog()) + [AddAppearanceTarget(GeometryTarget(g))]
      ensures PolygonLog() == old(PolygonLog())
    {
      g := new Geometry(id, geometryType, lod);
      AppearanceTargetCreated(GeometryTarget(g));
    }

    /** A new polygon, registered first as an appearance target and then
        handed to the polygon manager; the handle returned is the one the
        polygon manager holds. */
    method CreatePolygon(id: string) returns (p: Polygon)
      requires Valid()
      modifies this`calls
      ensures Valid()
      ensures fresh(p) && p.id == id
      ensures calls == old(calls) + [ToAppearanceManager(AddAppearanceTarget(PolygonTarget(p))),
                                     ToPolygonManager(AddPolygon(p))]
      ensures AppearanceLog() == old(AppearanceLog()) + [AddAppearanceTarget(PolygonTarget(p))]
      ensures PolygonLog() == old(PolygonLog()) + [AddPolygon(p)]
    {
      p := new Polygon(id);
      AppearanceTargetCreated(PolygonTarget(p));
      Record(ToPolygonManager(AddPolygon(p)));
    }

    /** Forwards the deferred request to the polygon manager unchanged;
        nothing is resolved now. */
    method RequestSharedPolygonForGeometry(g: Geometry, polygonId: string)
      requires Valid()
      modifies this`calls
      ensures Valid()
      ensures calls == old(calls) + [ToPolygonManager(PolygonManagerCall.RequestSharedPolygonForGeometry(g, polygonId))]
      ensures AppearanceLog() == old(AppearanceLog())
      ensures PolygonLog() == old(PolygonLog()) + [PolygonManagerCall.RequestSharedPolygonForGeometry(g, polygonId)]
    {
      Record(ToPolygonManager(PolygonManagerCall.RequestSharedPolygonForGeometry(g, polygonId)));
    }

    method CreateImplicitGeometry(id: string) returns (ig: ImplicitGeometry)
      ensures fresh(ig) && ig.id == id
      ensures calls == old(calls)
    {
      ig := new ImplicitGeometry(id);
    }

    /** `shareGeometry(g)`: the outcome and the new map are those of Share on
        the old map; a conflict (the source's throw) leaves the map as it
        was.  No manager is called. */
    method ShareGeometry(g: Geometry) returns (r: Result<Geometry>)
      requires Valid()
      modifies this`sharedGeometries
      ensures Valid()
      ensures SharingStep(sharedGeometries, r) == Share(old(sharedGeometries), g)
      ensures r.Err? ==> sharedGeometries == old(sharedGeometries)
      ensures calls == old(calls)
    {
      var found := GetSharedGeometryWithID(g.id);
      var shared: Geometry;
      if found.None? {
        shared := g;
      } else if found.value != g {
        return Err(IdentityConflict(g.id));
      } else {
        shared := found.value;
      }
      sharedGeometries := sharedGeometries[g.id := shared];
      r := Ok(shared);
    }

    /** `getSharedGeometryWithID(id)`: the canonical geometry for `id`, or
        nothing (the source's null) for an id never shared.  Changes
        nothing. */
    method GetSharedGeometryWithID(id: string) returns (r: Option<Geometry>)
      requires Valid()
      ensures r.None? <==> id !in sharedGeometries
      ensures r.Some? ==> r.value == sharedGeometries[id] && r.value.id == id
    {
      r := Lookup(sharedGeometries, id);
    }

    /** Each appearance creator registers exactly the appearance it returns. */
    method CreateTexture(id: string) returns (t: Texture)
      requires Valid()
      modifies this`calls
      ensures Valid()
      ensures fresh(t) && t.id == id
      ensures calls == old(calls) + [ToAppearanceManager(AddAppearance(TextureAppearance(t)))]
      ensures AppearanceLog() == old(AppearanceLog()) + [AddAppearance(TextureAppearance(t))]
      ensures PolygonLog() == old(PolygonLog())
    {
      t := new Texture(id);
      Record(ToAppearanceManager(AddAppearance(TextureAppearance(t))));
    }

    method CreateMaterial(id: string) returns (m: Material)
      requires Valid()
      modifies this`calls
      ensures Valid()
      ensures fresh(m) && m.id == id
      ensures calls == old(calls) + [ToAppearanceManager(AddAppearance(MaterialAppearance(m)))]
      ensures AppearanceLog() == old(AppearanceLog()) + [AddAppearance(MaterialAppearance(m))]
      ensures PolygonLog() == old(PolygonLog())
    {
      m := new Material(id);
      Record(ToAppearanceManager(AddAppearance(MaterialAppearance(m))));
    }

    method CreateGeoReferencedTexture(id: string) returns (t: GeoreferencedTexture)
      requires Valid()
      modifies this`calls
      ensures Valid()
      ensures fresh(t) && t.id == id
      ensures calls == old(calls) + [ToAppearanceManager(AddAppearance(GeoreferencedTextureAppearance(t)))]
      ensures AppearanceLog() == old(AppearanceLog()) + [AddAppearance(GeoreferencedTextureAppearance(t))]
      ensures PolygonLog() == old(PolygonLog())
    {
      t := new GeoreferencedTexture(id);
      Record(ToAppearanceManager(AddAppearance(GeoreferencedTextureAppearance(t))));
    }

    /** A new material target definition built from exactly the given
        target id, material and id, registered as it is returned. */
    method CreateMaterialTargetDefinition(targetID: string, appearance: Material, id: string)
      returns (d: MaterialTargetDefinition)
      requires Valid()
      modifies this`calls
      ensures Valid()
      ensures fresh(d) && d.targetID == targetID && d.appearance == appearance && d.id == id
      ensures calls == old(calls) + [ToAppearanceManager(AddMaterialTargetDefinition(d))]
      ensures AppearanceLog() == old(AppearanceLog()) + [AddMaterialTargetDefinition(d)]
      ensures PolygonLog() == old(PolygonLog())
    {
      d := new MaterialTargetDefinition(targetID, appearance, id);
      Record(ToAppearanceManager(AddMaterialTargetDefinition(d)));
    }

    /** As CreateMaterialTargetDefinition, for a texture. */
    method CreateTextureTargetDefinition(targetID: string, appearance: Texture, id: string)
      returns (d: TextureTargetDefinition)
      requires Valid()
      modifies this`calls
      ensures Valid()
      ensures fresh(d) && d.targetID == targetID && d.appearance == appearance && d.id == id
      ensures calls == old(calls) + [ToAppearanceManager(AddTextureTargetDefinition(d))]
      ensures AppearanceLog() == old(AppearanceLog()) + [AddTextureTargetDefinition(d)]
      ensures PolygonLog() == old(PolygonLog())
    {
      d := new TextureTargetDefinition(targetID, appearance, id);
      Record(ToAppearanceManager(AddTextureTargetDefinition(d)));
    }

    /** Finalization: the polygon manager's `finish` and then the appearance
        manager's `assignAppearancesToTargets`, and nothing else. */
    method CloseFactory()
      requires Valid()
      modifies this`calls
      ensures Valid()
      ensures calls == old(calls) + [FinishCall, AssignCall]
      ensures AppearanceLog() == old(AppearanceLog()) + [AssignAppearancesToTargets]
      ensures PolygonLog() == old(PolygonLog()) + [Finish]
    {
      ClosingKeepsPairing(calls);
      AppendKeepsPolygonsRegisteredFirst(calls, FinishCall);
      AppendKeepsPolygonsRegisteredFirst(calls + [FinishCall], AssignCall);
      LogsOfSingle(FinishCall);
      LogsOfSingle(AssignCall);
      AppearanceLogOfConcat(calls, [FinishCall]);
      PolygonLogOfConcat(calls, [FinishCall]);
      AppearanceLogOfConcat(calls + [FinishCall], [AssignCall]);
      PolygonLogOfConcat(calls + [FinishCall], [AssignCall]);
      assert calls + [FinishCall] + [AssignCall] == calls + [FinishCall, AssignCall];
      calls := calls + [FinishCall, AssignCall];
    }

    /** `appearanceTargetCreated(obj)`: registers `obj` with the appearance
        manager. */
    method AppearanceTargetCreated(target: AppearanceTarget)
      requires Valid()
      modifies this`calls
      ensures Valid()
      ensures calls == old(calls) + [ToAppearanceManager(AddAppearanceTarget(target))]
      ensures AppearanceLog() == old(AppearanceLog()) + [AddAppearanceTarget(target)]
      ensures PolygonLog() == old(PolygonLog())
    {
      Record(ToAppearanceManager(AddAppearanceTarget(target)));
    }
  }

  /** What a driver can rely on from the contracts alone: re-sharing an
      instance is harmless, a second instance under a taken id is refused and
      the first stays canonical, and finalization ends the trace with
      `finish` then `assignAppearancesToTargets`. */
  method ShareThenClose()
  {
    var factory := new CityGMLFactory();
    var first := factory.CreateGeometry("roof", 0, 2);
    var r := factory.ShareGeometry(first);
    assert r == Ok(first);
    r := factory.ShareGeometry(first);
    assert r == Ok(first);
    var second := factory.CreateGeometry("roof", 0, 2);
    r := factory.ShareGeometry(second);
    assert r == Err(IdentityConflict("roof"));
    var found := factory.GetSharedGeometryWithID("roof");
    assert found == Some(first);
    factory.CloseFactory();
    assert factory.calls[|factory.calls| - 2..] == [FinishCall, AssignCall];
  }

  /** A driver issuing `shareGeometry` for each geometry in turn, stopping at
      the first conflict (the source's throw propagating): it succeeds exactly
      when ShareAll does, and then leaves the map ShareAll gives. */
  method ShareInOrder(factory: CityGMLFactory, gs: seq<Geometry>) returns (ok: bool)
    requires factory.Valid()
    modifies factory
    ensures factory.Valid() && factory.calls == old(factory.calls)
    ensures ok <==> ShareAll(old(factory.sharedGeometries), gs).Ok?
    ensures ok ==> factory.sharedGeometries == ShareAll(old(factory.sharedGeometries), gs).value
  {
    var i := 0;
    while i < |gs|
      invariant 0 <= i <= |gs|
      invariant factory.Valid() && factory.calls == old(factory.calls)
      invariant ShareAll(old(factory.sharedGeometries), gs) == ShareAll(factory.sharedGeometries, gs[i..])
    {
      assert gs[i..][0] == gs[i] && gs[i..][1..] == gs[i + 1..];
      var r := factory.ShareGeometry(gs[i]);
      if r.Err? {
        return false;
      }
      i := i + 1;
    }
    ok := true;
  }
}
