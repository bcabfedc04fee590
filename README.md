# CityGMLFactory, modelled in Dafny

libcitygml's `CityGMLFactory` is the one object that creates every entity of
a CityGML city model while a document is parsed. It does two things.

1. It keeps the map of *shared geometries*, from a geometry's `gml:id` to the
   one canonical instance for that id. `shareGeometry(g)` looks up `g`'s id.
   An unknown id makes `g` canonical. The same instance is stored again and
   returned. A *different* instance under a taken id throws, before the map
   is written, so the map is left untouched. `getSharedGeometryWithID(id)` is
   the read-only lookup (null for an unknown id).
2. It drives two collaborators, the appearance manager and the polygon
   manager. New geometries and polygons become appearance targets. New
   polygons also go to the polygon manager. Appearances and target
   definitions are registered with the appearance manager. `closeFactory`
   runs polygon resolution (`finish`) and then appearance assignment
   (`assignAppearancesToTargets`).

The model follows the source's form: a class `CityGMLFactory` with the map
as a field, and one method per operation. Entities are classes, so pointer
identity is reference equality. The two managers' code is not part of this
model. Instead the factory carries a ghost trace `calls` of every call it
makes on them, in order. Each manager's own log is a projection of that
trace (`AppearanceManagerLog`, `PolygonManagerLog`). The sharing rule is
also stated on values (`Sharing.Share`, and `Sharing.ShareAll` for a whole
document's share requests); `ShareGeometry` is proved to do exactly what
`Share` says.

Files:

- `entities.dfy` (module `Entities`): the entity classes (id and opaque
  type/level-of-detail fields only), `AppearanceTarget` (geometry or
  polygon) and `Appearance` (texture, material, georeferenced texture).
- `manager_calls.dfy` (module `ManagerCalls`): the calls made on each
  manager, the per-manager logs, and the pairing invariant of the two
  finalizing calls.
- `sharing.dfy` (module `Sharing`): `Option`, `Result`, the sharing rule and
  its lemmas.
- `factory.dfy` (module `Factory`): the class `CityGMLFactory`, a small
  client method `ShareThenClose` showing what a driver can rely on, and
  `ShareInOrder`, a driver that calls `ShareGeometry` on a sequence of
  geometries and is proved to agree with `Sharing.ShareAll`.

The object invariant `Valid()` says three things. Every geometry in the map
is stored under its own id. In the trace, every `finish` is immediately
followed by `assignAppearancesToTargets`, and every `assignAppearancesToTargets`
immediately follows a `finish`. Every polygon handed to the polygon manager
was registered as an appearance target by the call just before.

The identity conflict is the `Err(IdentityConflict(id))` outcome of a
`Result`, not an exception or a message string.

One might expect geometries with an empty id never to be shared or to
collide. The code has no such case: `""` is an ordinary key, so a
second, distinct geometry with an empty id is refused like any other
conflict. `Sharing.AnonymousGeometriesCollide` states this.

## Model

| member | source | states |
|---|---|---|
| `Sharing.Lookup` | sources/src/citygml/citygmlfactory.cpp:79-86 | no result exactly when the id is not in the map; otherwise the geometry the map holds for it |
| `Sharing.Share` | sources/src/citygml/citygmlfactory.cpp:65-77 | succeeds exactly when the id is new or already bound to this instance; on success returns `g`, the id looks up to `g`, only `g`'s id is added and no existing entry is rebound; on conflict the error names the id and the map is unchanged; re-sharing a bound instance leaves the map unchanged; keeps every entry stored under its own id |
| `Sharing.ShareIdempotent` | sources/src/citygml/citygmlfactory.cpp:67-76 | repeating any share request gives the same outcome and the same map: a success is not changed by a second call, and a conflict repeats |
| `Sharing.SecondClaimFails` | sources/src/citygml/citygmlfactory.cpp:71-75 | after one instance is shared, a distinct instance with the same id gets the identity conflict and the first stays canonical |
| `Sharing.AnonymousGeometriesCollide` | sources/src/citygml/citygmlfactory.cpp:65-77 | the empty id is not special: once one geometry with empty id is shared, a distinct one with empty id gets the identity conflict on `""` and the first stays under `""` |
| `Sharing.ShareAll` | sources/src/citygml/citygmlfactory.cpp:71-73 | a document's share requests with the first conflict aborting the rest; a failure is always a conflict on the id of one of the requests |
| `Sharing.ShareAllSucceedsIff` | sources/src/citygml/citygmlfactory.cpp:65-77 | a document's share requests all succeed if and only if no request meets a different instance already in the map and no two distinct instances in the requests share an id |
| `Sharing.ShareAllResult` | sources/src/citygml/citygmlfactory.cpp:65-77 | after a successful run, the map's keys are the old keys plus the ids requested, every old entry is kept, and each requested id maps to the instance that requested it |
| `ManagerCalls.RegistrationsKeepPairing` | sources/src/citygml/citygmlfactory.cpp:133-137 | appending calls other than `finish` and `assignAppearancesToTargets` keeps every `finish` immediately followed by an assignment and every assignment immediately preceded by a `finish` |
| `ManagerCalls.ClosingKeepsPairing` | sources/src/citygml/citygmlfactory.cpp:133-137 | appending `finish` then `assignAppearancesToTargets` keeps that pairing |
| `ManagerCalls.AppendKeepsPolygonsRegisteredFirst` | sources/src/citygml/citygmlfactory.cpp:44-53 | a polygon may be added to the trace only right after its own target registration, which keeps every polygon-manager `addPolygon` preceded by the registration of that polygon |
| `Factory.ShareInOrder` | sources/src/citygml/citygmlfactory.cpp:65-77 | calling `ShareGeometry` on each geometry in turn, stopping at the first conflict, succeeds exactly when `ShareAll` succeeds on the starting map, and then leaves the map `ShareAll` gives; no manager is called |
| `Factory.CityGMLFactory.constructor` | sources/src/citygml/citygmlfactory.cpp:19-24 | a new factory has an empty sharing map and has made no call on either manager |
| `Factory.CityGMLFactory.CreateCityModel` | sources/src/citygml/citygmlfactory.cpp:26-29 | returns a new city model with the given id and registers nothing |
| `Factory.CityGMLFactory.CreateCityObject` | sources/src/citygml/citygmlfactory.cpp:31-35 | returns a new city object with the given id and type and registers nothing |
| `Factory.CityGMLFactory.CreateGeometry` | sources/src/citygml/citygmlfactory.cpp:37-42 | returns a new geometry with the given id, type and lod; exactly that geometry is appended to the appearance manager's targets; the polygon manager and the sharing map are untouched |
| `Factory.CityGMLFactory.CreatePolygon` | sources/src/citygml/citygmlfactory.cpp:44-53 | returns a new polygon with the given id; it is registered as an appearance target and then the same handle is added to the polygon manager, and nothing else happens |
| `Factory.CityGMLFactory.RequestSharedPolygonForGeometry` | sources/src/citygml/citygmlfactory.cpp:55-58 | forwards `(geometry, polygonId)` unchanged to the polygon manager as one request; no finish and no appearance-manager call, so nothing is resolved now |
| `Factory.CityGMLFactory.CreateImplicitGeometry` | sources/src/citygml/citygmlfactory.cpp:60-63 | returns a new implicit geometry with the given id and registers nothing |
| `Factory.CityGMLFactory.ShareGeometry` | sources/src/citygml/citygmlfactory.cpp:65-77 | the new map and the outcome are exactly those of `Share` on the old map; a conflict leaves the map as it was; no manager is called |
| `Factory.CityGMLFactory.GetSharedGeometryWithID` | sources/src/citygml/citygmlfactory.cpp:79-86 | changes nothing; no result exactly when the id was never shared; otherwise the canonical geometry, whose id is the one asked for |
| `Factory.CityGMLFactory.CreateTexture` | sources/src/citygml/citygmlfactory.cpp:88-93 | returns a new texture with the given id and registers exactly it as an appearance |
| `Factory.CityGMLFactory.CreateMaterial` | sources/src/citygml/citygmlfactory.cpp:95-100 | returns a new material with the given id and registers exactly it as an appearance |
| `Factory.CityGMLFactory.CreateGeoReferencedTexture` | sources/src/citygml/citygmlfactory.cpp:102-107 | returns a new georeferenced texture with the given id and registers exactly it as an appearance |
| `Factory.CityGMLFactory.CreateMaterialTargetDefinition` | sources/src/citygml/citygmlfactory.cpp:109-114 | returns a new definition built from exactly the given target id, material and id, and registers exactly it |
| `Factory.CityGMLFactory.CreateTextureTargetDefinition` | sources/src/citygml/citygmlfactory.cpp:116-121 | returns a new definition built from exactly the given target id, texture and id, and registers exactly it |
| `Factory.CityGMLFactory.CloseFactory` | sources/src/citygml/citygmlfactory.cpp:133-137 | appends the polygon manager's `finish` and then the appearance manager's `assignAppearancesToTargets`, and nothing else; the sharing map is untouched |
| `Factory.CityGMLFactory.AppearanceTargetCreated` | sources/src/citygml/citygmlfactory.cpp:144-147 | appends exactly the given target to the appearance manager's targets and nothing else |

## Left out

- `getAppearanceWithID` and `getAllThemes` (citygmlfactory.cpp:123-131): they only return what the appearance manager answers, and that manager's lookup, deduplication and theme bookkeeping are not part of this model.
- The internals of the appearance manager and the polygon manager (`finish`, `assignAppearancesToTargets`, appearance deduplication, reporting of unresolved references) are not part of this model. So the model claims nothing about which polygon ends up attached to which geometry, or which appearance to which target; it only records which calls were made, with which arguments, in which order.
- The logger: the constructor's logger argument and the logger passed to each polygon are a diagnostic sink and are not modelled.
- Memory management: `new`, the `shared_ptr`/`unique_ptr` ownership transfers and the empty destructor (citygmlfactory.cpp:139-142) are not modelled; Dafny's references stand for every handle.
- Null pointers: arguments such as the geometry passed to `shareGeometry` or the appearance passed to a target-definition creator are non-null references in the model; the source dereferences or forwards them without a check.
- Entity internals (polygon geometry, tessellation, CRS, attributes) are not modelled; an entity is its id plus opaque type and level-of-detail tags. Entity ids are fixed at construction, as the factory never changes them.
- The text of the exception thrown by `shareGeometry`: the model has the failure outcome `IdentityConflict(id)` only.
- `Sharing.ShareAll`: on a conflict it gives only the error, not the map. In the source, and in `Factory.ShareInOrder`, the factory keeps the entries written by the requests before the one that threw (citygmlfactory.cpp:72, then no write at 75).
- Calls after `closeFactory`: the source does not forbid them, and neither does the model.
- `createImplictGeometry` keeps the source's behaviour under the spelling `CreateImplicitGeometry`.
