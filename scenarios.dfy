/** Worked examples of one call of `Move`, for both the character (`Slide`)
    and the bullet (`Bounce`): a body of radius 0.5 at the origin moving with
    velocity (10, 0) over one time unit. The concrete values come in as
    parameters pinned by `requires`. */
module Scenarios {
  import opened Vectors
  import opened Contacts
  import opened Resolver

  /** The body of both scenarios. */
  predicate IsStart(radius: real, t: real, position: Vector2, velocity: Vector2)
  {
    radius == 0.5 && t == 1.0 && position == Zero && velocity == Vector2(10.0, 0.0)
  }

  /** The wall of the second scenario: touching (distance 0), on the body's
      right, with point and centroid both at (0.5, 0). */
  predicate IsWall(h: Hit)
  {
    h == Hit(0.0, Vector2(0.5, 0.0), Vector2(-1.0, 0.0), Vector2(0.5, 0.0), true)
  }

  /** Nothing in the way: the body ends at (10, 0) with its velocity. */
  lemma ScenarioFreeFlight(p: Policy, eng: Engine, radius: real, t: real, position: Vector2, velocity: Vector2)
    requires IsStart(radius, t, position, velocity)
    requires eng.circleCastAll(position, radius, velocity, eng.magnitude(velocity)) == []
    ensures Resolve(p, eng, radius, t, position, velocity) == Movement(Vector2(10.0, 0.0), Vector2(10.0, 0.0), Done)
  {
    assert Scale(t, velocity) == velocity;
    FastEnough(t, velocity);
  }

  lemma FastEnough(t: real, velocity: Vector2)
    requires t == 1.0 && velocity == Vector2(10.0, 0.0)
    ensures Abs(t) > FloatEpsilon && LengthSq(velocity) > FloatEpsilon * FloatEpsilon
  {
    assert LengthSq(velocity) == 100.0;
    assert 0.0 < FloatEpsilon < 1.0;
    assert FloatEpsilon * FloatEpsilon < FloatEpsilon * 1.0;
  }

  lemma WallIsTouching(h: Hit)
    requires IsWall(h)
    ensures Touching([h]) == [h]
  {
    assert IsTouching(h);
    assert Touching([]) == [];
  }

  lemma WallNormalIsUnit(h: Hit)
    requires IsWall(h)
    ensures IsUnit(h.normal)
  {
  }

  lemma HeadingIntoWall(h: Hit, velocity: Vector2)
    requires IsWall(h) && velocity == Vector2(10.0, 0.0)
    ensures Dot(velocity, h.normal) < 0.0
  {
  }

  lemma PlacedAtOrigin(h: Hit, radius: real)
    requires IsWall(h) && radius == 0.5
    ensures Place(h, radius) == Zero
  {
    assert Sub(h.point, h.centroid) == Zero;
    assert IsThin(h, radius);
    assert Scale(radius, h.normal) == Vector2(-0.5, 0.0);
  }

  lemma SlideAgainstWall(h: Hit, velocity: Vector2)
    requires IsWall(h) && velocity == Vector2(10.0, 0.0)
    ensures Respond(Slide, velocity, h.normal) == Zero
  {
  }

  lemma BounceOffWall(h: Hit, velocity: Vector2)
    requires IsWall(h) && velocity == Vector2(10.0, 0.0)
    ensures Respond(Bounce, velocity, h.normal) == Vector2(-10.0, 0.0)
  {
  }

  /** The first pass against the wall: placed back at the origin, responding. */
  lemma HeadOnFirstPass(c: Call, f: PassState, h: Hit)
    requires IsStart(c.radius, c.t, f.position, f.velocity) && f.offset == f.velocity
    requires IsWall(h) && f.hits == [h]
    ensures var r := Respond(c.policy, f.velocity, h.normal);
      PassStep(c, f) == Continue(PassState(Zero, r, r, []))
  {
    WallIsTouching(h);
    WallNormalIsUnit(h);
    HeadingIntoWall(h, f.velocity);
    PlacedAtOrigin(h, c.radius);
    SingleContactPass(c, f);
    assert Scale(c.t, Respond(c.policy, f.velocity, h.normal)) == Respond(c.policy, f.velocity, h.normal);
  }

  lemma RunTwoPasses(pass: PassState -> Step, f: PassState, g: PassState, last: PassState, o: Outcome)
    requires pass(f) == Continue(g) && pass(g) == Stop(last, o)
    ensures Run(pass, f, 0) == Settled(last, o)
  {
  }

  /** The loop against the wall: one contact pass, then a free pass. */
  lemma HeadOnRun(c: Call, f: PassState, h: Hit)
    requires IsStart(c.radius, c.t, f.position, f.velocity) && c.origin == Zero && f.offset == f.velocity
    requires IsWall(h) && f.hits == [h]
    ensures var r := Respond(c.policy, f.velocity, h.normal);
      Run(Pass(c), f, 0) == Settled(PassState(r, r, r, []), Done)
  {
    var r := Respond(c.policy, f.velocity, h.normal);
    var g := PassState(Zero, r, r, []);
    HeadOnFirstPass(c, f, h);
    FreePass(c, g);
    assert Add(Zero, r) == r;
    assert Pass(c)(f) == Continue(g);
    assert Pass(c)(g) == Stop(PassState(r, r, r, []), Done);
    RunTwoPasses(Pass(c), f, g, PassState(r, r, r, []), Done);
  }

  /** The body already touches the wall. The first pass places it back at the
      origin and responds to the wall; the second finds nothing left in the
      list and moves by the new offset. */
  lemma HeadOnContact(p: Policy, eng: Engine, radius: real, t: real, position: Vector2, velocity: Vector2, h: Hit)
    requires IsStart(radius, t, position, velocity) && IsWall(h)
    requires eng.circleCastAll(position, radius, velocity, eng.magnitude(velocity)) == [h]
    ensures var r := Respond(p, velocity, h.normal);
      Resolve(p, eng, radius, t, position, velocity) == Movement(r, r, Done)
  {
    assert Scale(t, velocity) == velocity;
    assert SortByDistance([h]) == [h];
    FastEnough(t, velocity);
    HeadOnRun(Call(p, eng, radius, t, position), PassState(position, velocity, velocity, [h]), h);
    ResolveRunsLoop(p, eng, radius, t, position, velocity);
  }

  /** So the character, touching the wall head-on, slides to a standstill ... */
  lemma ScenarioHeadOnSlide(eng: Engine, radius: real, t: real, position: Vector2, velocity: Vector2, h: Hit)
    requires IsStart(radius, t, position, velocity) && IsWall(h)
    requires eng.circleCastAll(position, radius, velocity, eng.magnitude(velocity)) == [h]
    ensures Resolve(Slide, eng, radius, t, position, velocity) == Movement(Zero, Zero, Done)
  {
    HeadOnContact(Slide, eng, radius, t, position, velocity, h);
    SlideAgainstWall(h, velocity);
  }

  /** ... and the bullet bounces straight back at full speed. */
  lemma ScenarioHeadOnBounce(eng: Engine, radius: real, t: real, position: Vector2, velocity: Vector2, h: Hit)
    requires IsStart(radius, t, position, velocity) && IsWall(h)
    requires eng.circleCastAll(position, radius, velocity, eng.magnitude(velocity)) == [h]
    ensures Resolve(Bounce, eng, radius, t, position, velocity) == Movement(Vector2(-10.0, 0.0), Vector2(-10.0, 0.0), Done)
  {
    HeadOnContact(Bounce, eng, radius, t, position, velocity, h);
    BounceOffWall(h, velocity);
  }
}
