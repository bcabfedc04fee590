/** The identity-sharing rule of `CityGMLFactory::shareGeometry` and
    `getSharedGeometryWithID`, stated on values: the map from geometry id to
    the canonical geometry instance, and what one share request, or a whole
    document's worth of them, does to it. */
module Sharing {
  import opened Entities

  datatype Option<T> = None | Some(value: T)

  /** The one error the factory raises itself: two distinct geometry
      instances claimed the same id (the `std::runtime_error` of
      `shareGeometry`). */
  datatype FactoryError = IdentityConflict(id: string)

  datatype Result<T> = Ok(value: T) | Err(error: FactoryError)

  /** The map after a share request, together with its outcome. */
  datatype SharingStep = SharingStep(shared: map<string, Geometry>, outcome: Result<Geometry>)

  /** Every geometry in the map is stored under its own id. */
  predicate IdConsistent(shared: map<string, Geometry>)
  {
    forall id :: id in shared ==> shared[id].id == id
  }

  /** Look an id up: the canonical geometry for it, or nothing. */
  function Lookup(shared: map<string, Geometry>, id: string): (r: Option<Geometry>)
    ensures r.None? <==> id !in shared
    ensures r.Some? ==> r.value == shared[id]
  {
    if id in shared then Some(shared[id]) else None
  }

  /** One `shareGeometry(g)`.  The id is looked up; an unknown id makes `g`
      canonical, the same instance is stored again, a different instance is
      an identity conflict that leaves the map as it was.  The empty id is an
      ordinary key like any other. */
  function Share(shared: map<string, Geometry>, g: Geometry): (s: SharingStep)
    // success exactly when the id is new or already bound to this very instance
    ensures s.outcome.Ok? <==> (g.id !in shared || shared[g.id] == g)
    // on success: g is returned and is now what the id looks up to; the keys
    // grow by g's id only and no existing entry is rebound
    ensures s.outcome.Ok? ==>
      s.outcome.value == g &&
      Lookup(s.shared, g.id) == Some(g) &&
      s.shared.Keys == shared.Keys + {g.id} &&
      (forall id :: id in shared ==> s.shared[id] == shared[id])
    // on conflict: the error names the id and the map is exactly as before
    ensures s.outcome.Err? ==> s.outcome.error == IdentityConflict(g.id) && s.shared == shared
    // an id already bound to g: the map does not change
    ensures g.id in shared && shared[g.id] == g ==> s.shared == shared
    ensures IdConsistent(shared) ==> IdConsistent(s.shared)
  {
    match Lookup(shared, g.id)
    case None => SharingStep(shared[g.id := g], Ok(g))
    case Some(canonical) =>
      if canonical != g then SharingStep(shared, Err(IdentityConflict(g.id)))
      else SharingStep(shared[g.id := canonical], Ok(canonical))
  }

  /** Repeating a share request changes nothing: a success returns the same
      instance again and keeps the map, a conflict repeats the same conflict. */
  lemma ShareIdempotent(shared: map<string, Geometry>, g: Geometry)
    ensures Share(Share(shared, g).shared, g) == Share(shared, g)
  {
  }

  /** Once one instance is canonical for an id, a different instance with the
      same id is refused and the first one stays canonical. */
  lemma SecondClaimFails(shared: map<string, Geometry>, first: Geometry, second: Geometry)
    requires first.id == second.id && first != second
    requires Share(shared, first).outcome.Ok?
    ensures Share(Share(shared, first).shared, second).outcome == Err(IdentityConflict(first.id))
    ensures Share(Share(shared, first).shared, second).shared[first.id] == first
  {
  }

  /** The empty id is not special: once one anonymous geometry is shared, a
      distinct anonymous geometry is refused with a conflict on `""`, and the
      first stays under `""`. */
  lemma AnonymousGeometriesCollide(shared: map<string, Geometry>, g1: Geometry, g2: Geometry)
    requires g1.id == "" && g2.id == "" && g1 != g2
    requires Share(shared, g1).outcome.Ok?
    ensures Share(Share(shared, g1).shared, g2).outcome == Err(IdentityConflict(""))
    ensures Lookup(Share(Share(shared, g1).shared, g2).shared, "") == Some(g1)
  {
  }

  /** A document's share requests, in order.  The first identity conflict
      aborts the build: the error propagates and no later request is made. */
  function ShareAll(shared: map<string, Geometry>, gs: seq<Geometry>): (r: Result<map<string, Geometry>>)
    // a conflict is always about the id of one of the requests
    ensures r.Err? ==> exists i :: 0 <= i < |gs| && r.error == IdentityConflict(gs[i].id)
    decreases |gs|
  {
    if gs == [] then Ok(shared)
    else
      var step := Share(shared, gs[0]);
      if step.outcome.Err? then Err(step.outcome.error)
      else
        var r := ShareAll(step.shared, gs[1..]);
        assert r.Err? ==> exists i :: 1 <= i < |gs| && r.error == IdentityConflict(gs[i].id) by {
          if r.Err? {
            var i :| 0 <= i < |gs[1..]| && r.error == IdentityConflict(gs[1..][i].id);
            assert gs[i + 1] == gs[1..][i];
          }
        }
        r
  }

  /** A sequence of share requests that never puts two distinct instances
      under one id, nor an instance under an id the map already holds for
      another. */
  ghost predicate Compatible(shared: map<string, Geometry>, gs: seq<Geometry>)
  {
    (forall i :: 0 <= i < |gs| && gs[i].id in shared ==> shared[gs[i].id] == gs[i]) &&
    (forall i, j :: 0 <= i < j < |gs| && gs[i].id == gs[j].id ==> gs[i] == gs[j])
  }

  /** The set of ids of a sequence of geometries. */
  ghost function Ids(gs: seq<Geometry>): set<string>
  {
    set i | 0 <= i < |gs| :: gs[i].id
  }

  /** A document's share requests all succeed exactly when they are
      compatible with the map and with one another. */
  lemma {:induction false} ShareAllSucceedsIff(shared: map<string, Geometry>, gs: seq<Geometry>)
    ensures ShareAll(shared, gs).Ok? <==> Compatible(shared, gs)
    decreases |gs|
  {
    if gs != [] {
      var g, rest := gs[0], gs[1..];
      var step := Share(shared, g);
      if step.outcome.Ok? {
        ShareAllSucceedsIff(step.shared, rest);
        if Compatible(shared, gs) {
          forall i | 0 <= i < |rest| && rest[i].id in step.shared
            ensures step.shared[rest[i].id] == rest[i]
          {
            assert rest[i] == gs[i + 1];
            if rest[i].id == g.id {
              assert gs[0].id == gs[i + 1].id;
            }
          }
          forall i, j | 0 <= i < j < |rest| && rest[i].id == rest[j].id
            ensures rest[i] == rest[j]
          {
            assert rest[i] == gs[i + 1] && rest[j] == gs[j + 1];
          }
          assert Compatible(step.shared, rest);
        } else if Compatible(step.shared, rest) {
          forall i | 0 <= i < |gs| && gs[i].id in shared
            ensures shared[gs[i].id] == gs[i]
          {
            if i > 0 {
              assert gs[i] == rest[i - 1];
            }
          }
          forall i, j | 0 <= i < j < |gs| && gs[i].id == gs[j].id
            ensures gs[i] == gs[j]
          {
            assert gs[j] == rest[j - 1];
            if i > 0 {
              assert gs[i] == rest[i - 1];
            } else {
              assert step.shared[rest[j - 1].id] == rest[j - 1];
            }
          }
          assert false;
        }
      } else {
        assert !Compatible(shared, gs) by {
          assert gs[0].id in shared && shared[gs[0].id] != gs[0];
        }
      }
    }
  }

  /** When a document's share requests all succeed, the resulting map keeps
      every entry the map had, adds exactly the ids requested, and maps each
      requested id to the instance that requested it. */
  lemma {:induction false} ShareAllResult(shared: map<string, Geometry>, gs: seq<Geometry>)
    requires ShareAll(shared, gs).Ok?
    ensures ShareAll(shared, gs).value.Keys == shared.Keys + Ids(gs)
    ensures forall id :: id in shared ==> ShareAll(shared, gs).value[id] == shared[id]
    ensures forall i :: 0 <= i < |gs| ==> ShareAll(shared, gs).value[gs[i].id] == gs[i]
    decreases |gs|
  {
    if gs == [] {
      assert Ids(gs) == {};
    } else {
      var g, rest := gs[0], gs[1..];
      var step := Share(shared, g);
      var final := ShareAll(shared, gs).value;
      assert ShareAll(step.shared, rest) == Ok(final);
      ShareAllResult(step.shared, rest);
      assert Ids(gs) == {g.id} + Ids(rest) by {
        forall id | id in Ids(gs) ensures id in {g.id} + Ids(rest) {
          var i :| 0 <= i < |gs| && gs[i].id == id;
          if i > 0 {
            assert gs[i] == rest[i - 1];
          }
        }
        forall id | id in Ids(rest) ensures id in Ids(gs) {
          var i :| 0 <= i < |rest| && rest[i].id == id;
          assert gs[i + 1] == rest[i];
        }
      }
      forall i | 0 <= i < |gs| ensures final[gs[i].id] == gs[i] {
        if i > 0 {
          assert gs[i] == rest[i - 1];
        }
      }
    }
  }
}
