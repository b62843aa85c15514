/** Characters of one zone: spawning, movement intents and movement ticks
    (crates/simulation/src/zone.rs, systems.rs). */
module ZoneMovement {
  import opened MachineInts
  import opened CarriedDivision
  import opened Movement
  import opened Traversal

  type CharacterId = u64

  datatype Body = Body(position: Position, remainder: Vector, intent: Option<MovementInput>)

  datatype ZoneError =
    | Placement(error: TraversalError)
    | DuplicateSpawn
    | UnknownCharacter
    | Integration(why: IntegrationError)

  /** What one tick makes of a body: carry the remainder, and when whole millimetres are due,
      travel as far as the blockers let it. */
  ghost predicate BodyTicks(blockers: seq<Blocker>, rules: MovementRules, radius: int, before: Body, after: Body) {
    && after.intent == before.intent
    && (before.intent.None? ==> after == before)
    && (before.intent.Some? ==>
          var tick := Tick(rules, before.intent.value, before.remainder);
          && tick.Ok?
          && after.remainder == tick.value.remainder
          && var delta := tick.value.delta;
             if delta == Vector(0, 0) then after.position == before.position
             else InI64(delta.x) && InI64(delta.y)
                  && Resolves(blockers, radius, before.position, delta, after.position))
  }

  /** The tick would carry the body past the 64-bit coordinates. */
  ghost predicate LeavesCoordinates(rules: MovementRules, before: Body) {
    && before.intent.Some?
    && var tick := Tick(rules, before.intent.value, before.remainder);
       && tick.Ok?
       && !(InI64(before.position.x + tick.value.delta.x) && InI64(before.position.y + tick.value.delta.y))
  }

  ghost predicate Sound(blockers: seq<Blocker>, rules: MovementRules, radius: int, body: Body) {
    Legal(blockers, radius, body.position.x, body.position.y) && IsRemainder(rules, body.remainder)
  }

  lemma TickDeltaFits(rules: MovementRules, input: MovementInput, remainder: Vector)
    requires Tick(rules, input, remainder).Ok?
    ensures var delta := Tick(rules, input, remainder).value.delta;
            InI64(delta.x) && InI64(delta.y)
  {
    var n := Numerator(rules, input);
    QuotShrinks(remainder.x + n.x, rules.Denominator());
    QuotShrinks(remainder.y + n.y, rules.Denominator());
  }

  lemma ProductGrows(q: nat, b: nat)
    requires 0 < b
    ensures q <= q * b
  {
  }

  lemma QuotShrinks(a: int, b: int)
    requires 0 < b
    ensures Abs(Quot(a, b)) <= Abs(a)
  {
    var q := Quot(a, b);
    QuotSign(a, b);
    ProductGrows(Abs(q), b);
    assert Abs(q) * b == Abs(q * b);
  }

  class ZoneBodies {
    const traversal: TraversalWorld
    const rules: MovementRules
    const radius: int
    var bodies: map<CharacterId, Body>

    /** Every character stands where no grown blocker contains it. */
    ghost predicate Valid()
      reads this, traversal
    {
      forall id :: id in bodies ==> Sound(traversal.blockers, rules, radius, bodies[id])
    }

    constructor (traversal: TraversalWorld, rules: MovementRules, radius: int)
      ensures Valid() && bodies == map[] && this.traversal == traversal
    {
      this.traversal, this.rules, this.radius := traversal, rules, radius;
      bodies := map[];
    }

    method Spawn(id: CharacterId, position: Position) returns (r: Result<(), ZoneError>)
      requires Valid()
      modifies this
      ensures Valid()
      ensures r.Ok? <==> Legal(traversal.blockers, radius, position.x, position.y) && id !in old(bodies)
      ensures r.Err? ==> bodies == old(bodies)
      ensures r.Ok? ==> bodies == old(bodies)[id := Body(position, Vector(0, 0), None)]
    {
      var placed := traversal.ValidatePlacement(position, radius);
      if placed.Err? {
        return Err(Placement(placed.error));
      }
      if id in bodies {
        return Err(DuplicateSpawn);
      }
      bodies := bodies[id := Body(position, Vector(0, 0), None)];
      r := Ok(());
    }

    method Despawn(id: CharacterId) returns (r: Result<(), ZoneError>)
      requires Valid()
      modifies this
      ensures Valid()
      ensures r.Ok? <==> id in old(bodies)
      ensures bodies == old(bodies) - {id}
    {
      if id !in bodies {
        return Err(UnknownCharacter);
      }
      bodies := bodies - {id};
      r := Ok(());
    }

    method AcceptMoveIntent(id: CharacterId, input: MovementInput) returns (r: Result<(), ZoneError>)
      requires Valid()
      modifies this
      ensures Valid()
      ensures r.Ok? <==> id in old(bodies)
      ensures r.Err? ==> bodies == old(bodies)
      ensures r.Ok? ==> bodies == old(bodies)[id := old(bodies)[id].(intent := Some(input))]
    {
      if id !in bodies {
        return Err(UnknownCharacter);
      }
      bodies := bodies[id := bodies[id].(intent := Some(input))];
      r := Ok(());
    }

    /** The tick of one body.  Integration cannot fail; travel fails only past the coordinates,
        when the carried remainder has already advanced. */
    method TickBody(body: Body) returns (after: Body, failure: Option<ZoneError>)
      requires Sound(traversal.blockers, rules, radius, body)
      ensures Sound(traversal.blockers, rules, radius, after)
      ensures failure.None? ==> BodyTicks(traversal.blockers, rules, radius, body, after)
      ensures failure.Some? <==> LeavesCoordinates(rules, body)
    {
      after, failure := body, None;
      if body.intent.Some? {
        TickNeverOverflows(rules, body.intent.value, body.remainder);
        TickDeltaFits(rules, body.intent.value, body.remainder);
        var remainder := new MovementRemainder.From(body.remainder);
        var integrated := remainder.Integrate(rules, body.intent.value);
        var delta := integrated.value;
        after := body.(remainder := remainder.View());
        if delta != Vector(0, 0) {
          var resolution := traversal.ResolveHorizontal(body.position, delta, radius);
          if resolution.Err? {
            failure := Some(Placement(resolution.error));
          } else {
            after := after.(position := resolution.value.position);
          }
        }
      }
    }

    /** One movement tick over all bodies, in any order.  It succeeds exactly when no body would leave
        the coordinates, and leaves every character legally placed either way. */
    method MovementTick() returns (r: Result<(), ZoneError>)
      requires Valid()
      modifies this
      ensures Valid() && bodies.Keys == old(bodies).Keys
      ensures r.Ok? ==> forall id :: id in bodies ==>
                BodyTicks(traversal.blockers, rules, radius, old(bodies)[id], bodies[id])
      ensures r.Err? <==> exists id :: id in old(bodies) && LeavesCoordinates(rules, old(bodies)[id])
    {
      ghost var start := bodies;
      var pending := bodies.Keys;
      while pending != {}
        invariant pending <= bodies.Keys == start.Keys
        invariant Valid()
        invariant forall id :: id in pending ==> bodies[id] == start[id]
        invariant forall id :: id in bodies && id !in pending ==>
                    BodyTicks(traversal.blockers, rules, radius, start[id], bodies[id])
                    && !LeavesCoordinates(rules, start[id])
        decreases |pending|
      {
        var id :| id in pending;
        pending := pending - {id};
        var before := bodies[id];
        var after, failure := TickBody(before);
        bodies := bodies[id := after];
        if failure.Some? {
          return Err(failure.value);
        }
      }
      r := Ok(());
    }
  }
}
