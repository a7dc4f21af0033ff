/** What one call of `Move` does, as functions of the body's state: one pass of
    the `while (true)` loop (`PassStep`), the loop with its cap of five passes
    (`Run`), and the whole call with its early exits (`Resolve`). The character
    and the bullet share this resolver; they differ only in their `Policy`,
    which fixes both the velocity response and what the wedge escape does. The
    imperative `Move` methods of the two classes are proved to compute exactly
    `Resolve`. */
module Resolver {
  import opened Vectors
  import opened Contacts

  /** `Slide` is the character (project the velocity off the normal, and a wedge
      escape that slides along the chosen contact and drops every contact);
      `Bounce` is the bullet (`Vector2.Reflect`, and a wedge escape that
      reflects on the center normal and keeps the contacts). */
  datatype Policy = Slide | Bounce

  /** The velocity response against a normal. */
  function Respond(p: Policy, v: Vector2, n: Vector2): Vector2
  {
    match p
    case Slide => Project(v, n)
    case Bounce => Reflect(v, n)
  }

  /** How a call of `Move` ends: `Done` (returned or left the loop), `Aborted`
      (the sixth pass was refused), or a request to go on with `Move(t2)` from the
      new state. `RecurseNonFinite` is the same request when `offset.magnitude`
      is zero and C# computes `t2` as an infinity or NaN. */
  datatype Outcome = Done | Aborted | Recurse(t2: real) | RecurseNonFinite

  /** What the loop changes: the body's position and velocity, the local
      `offset` and the working list `allHits`. */
  datatype PassState = PassState(position: Vector2, velocity: Vector2, offset: Vector2, hits: seq<Hit>)

  /** What the loop does not change during one call. */
  datatype Call = Call(policy: Policy, eng: Engine, radius: real, t: real, origin: Vector2)

  datatype Step = Continue(next: PassState) | Stop(last: PassState, outcome: Outcome)

  datatype Settled = Settled(state: PassState, outcome: Outcome)

  datatype Movement = Movement(position: Vector2, velocity: Vector2, outcome: Outcome)

  /** The loop refuses its sixth entry (`iterationCount > 5`). */
  const MaxPasses: nat := 5

  /** The hand-over to `Move(t2)` after snapping to a future hit, with
      `t2 = (posOrigin - position).magnitude / offset.magnitude * t`: the
      fraction of the offset travelled so far, times `t`. */
  function HandOver(eng: Engine, origin: Vector2, position: Vector2, offset: Vector2, t: real): Outcome
  {
    var length := eng.magnitude(offset);
    if length != 0.0 then Recurse(eng.magnitude(Sub(origin, position)) / length * t)
    else RecurseNonFinite
  }

  /** One pass of the loop body, after the iteration counter was checked. */
  function PassStep(c: Call, f: PassState): Step
  {
    var contacts := Touching(f.hits);
    var first := FirstUncontact(f.hits);
    if |contacts| == 0 then
      if first.None? then
        Stop(f.(position := Add(f.position, f.offset)), Done)
      else
        var h := first.value;
        Stop(f.(position := h.centroid, velocity := Respond(c.policy, f.velocity, h.normal)),
             HandOver(c.eng, c.origin, h.centroid, f.offset, c.t))
    else if |contacts| == 1 then
      var h := contacts[0];
      var v := if Dot(f.velocity, h.normal) < 0.0 then Respond(c.policy, f.velocity, h.normal) else f.velocity;
      Continue(PassState(Place(h, c.radius), v, Scale(c.t, v), RemoveFirst(f.hits, h)))
    else
      var center := CenterNormal(contacts, c.eng);
      if c.eng.angle(center, f.velocity) <= MaxAngle(contacts, center, c.eng) then
        Stop(f.(velocity := Zero), Done)
      else
        var minHit := MinAngleHit(contacts, f.velocity, c.eng);
        if !minHit.hasCollider then
          Stop(f, Done)
        else
          match c.policy
          case Slide =>
            var v := Project(f.velocity, minHit.normal);
            Continue(PassState(Place(minHit, c.radius), v, Scale(c.t, v), RemoveEach(f.hits, contacts)))
          case Bounce =>
            var v := Reflect(f.velocity, center);
            Continue(PassState(Place(minHit, c.radius), v, Scale(c.t, v), f.hits))
  }

  /** The pass function of one call. */
  function Pass(c: Call): PassState -> Step
  {
    f => PassStep(c, f)
  }

  /** The loop, entered with `passes` passes already done, for any pass function. */
  function Run(pass: PassState -> Step, f: PassState, passes: nat): Settled
    requires passes <= MaxPasses
    decreases MaxPasses - passes
  {
    if passes == MaxPasses then Settled(f, Aborted)
    else
      match pass(f)
      case Continue(g) => Run(pass, g, passes + 1)
      case Stop(g, o) => Settled(g, o)
  }

  /** One call of `Move(t)` on a body at `position` moving with `velocity`. */
  function Resolve(p: Policy, eng: Engine, radius: real, t: real, position: Vector2, velocity: Vector2): Movement
  {
    if Abs(t - 0.0) <= FloatEpsilon then Movement(position, velocity, Done)
    else if LengthSq(velocity) <= FloatEpsilon * FloatEpsilon then Movement(position, velocity, Done)
    else
      var offset := Scale(t, velocity);
      var hits := eng.circleCastAll(position, radius, velocity, eng.magnitude(offset));
      if |hits| == 0 then Movement(Add(position, offset), velocity, Done)
      else
        var r := Run(Pass(Call(p, eng, radius, t, position)), PassState(position, velocity, offset, SortByDistance(hits)), 0);
        Movement(r.state.position, r.state.velocity, r.outcome)
  }

  // ------------------------------------------------------- the whole call

  /** A time step or a speed within `float.Epsilon` of zero changes nothing. */
  lemma ResolveEarlyExit(p: Policy, eng: Engine, radius: real, t: real, position: Vector2, velocity: Vector2)
    requires Abs(t) <= FloatEpsilon || LengthSq(velocity) <= FloatEpsilon * FloatEpsilon
    ensures Resolve(p, eng, radius, t, position, velocity) == Movement(position, velocity, Done)
  {
  }

  /** When the sweep reports nothing the body moves by the full `t * velocity`. */
  lemma ResolveWithoutHits(p: Policy, eng: Engine, radius: real, t: real, position: Vector2, velocity: Vector2)
    requires Abs(t) > FloatEpsilon && LengthSq(velocity) > FloatEpsilon * FloatEpsilon
    requires eng.circleCastAll(position, radius, velocity, eng.magnitude(Scale(t, velocity))) == []
    ensures Resolve(p, eng, radius, t, position, velocity) == Movement(Add(position, Scale(t, velocity)), velocity, Done)
  {
  }

  /** Past the early exits and with something in the way, the call is the loop
      run over the sorted hits from the body's own state. */
  lemma ResolveRunsLoop(p: Policy, eng: Engine, radius: real, t: real, position: Vector2, velocity: Vector2)
    requires Abs(t) > FloatEpsilon && LengthSq(velocity) > FloatEpsilon * FloatEpsilon
    requires eng.circleCastAll(position, radius, velocity, eng.magnitude(Scale(t, velocity))) != []
    ensures var hits := eng.circleCastAll(position, radius, velocity, eng.magnitude(Scale(t, velocity)));
      var r := Run(Pass(Call(p, eng, radius, t, position)), PassState(position, velocity, Scale(t, velocity), SortByDistance(hits)), 0);
      Resolve(p, eng, radius, t, position, velocity) == Movement(r.state.position, r.state.velocity, r.outcome)
  {
  }

  // ------------------------------------------------------ the loop bound

  /** A pass never reports `Aborted` itself: only the loop's counter does. */
  ghost predicate NeverAborts(pass: PassState -> Step)
  {
    forall f :: pass(f).Stop? ==> pass(f).outcome != Aborted
  }

  lemma PassNeverAborts(c: Call)
    ensures NeverAborts(Pass(c))
  {
  }

  /** The next `n` passes all continue the loop. */
  ghost predicate ContinuesFor(pass: PassState -> Step, f: PassState, n: nat)
    decreases n
  {
    n == 0 || (pass(f).Continue? && ContinuesFor(pass, pass(f).next, n - 1))
  }

  /** The loop state after `n` continuing passes. */
  ghost function After(pass: PassState -> Step, f: PassState, n: nat): PassState
    requires ContinuesFor(pass, f, n)
    decreases n
  {
    if n == 0 then f else After(pass, pass(f).next, n - 1)
  }

  /** The loop body runs at most five times. The call is aborted exactly when
      all five passes continue, and then the state is the one the fifth pass
      left; otherwise some pass `k < 5` stopped the loop and its result is the
      call's result. */
  lemma {:induction false} RunIsBounded(pass: PassState -> Step, f: PassState, passes: nat)
    requires passes <= MaxPasses
    requires NeverAborts(pass)
    ensures Run(pass, f, passes).outcome == Aborted <==> ContinuesFor(pass, f, MaxPasses - passes)
    ensures Run(pass, f, passes).outcome == Aborted ==> Run(pass, f, passes).state == After(pass, f, MaxPasses - passes)
    ensures Run(pass, f, passes).outcome != Aborted ==>
      exists k: nat :: k < MaxPasses - passes && ContinuesFor(pass, f, k) &&
        pass(After(pass, f, k)) == Stop(Run(pass, f, passes).state, Run(pass, f, passes).outcome)
    decreases MaxPasses - passes
  {
    if passes < MaxPasses {
      match pass(f)
      case Continue(g) =>
        RunIsBounded(pass, g, passes + 1);
        if Run(pass, f, passes).outcome != Aborted {
          var k: nat :| k < MaxPasses - (passes + 1) && ContinuesFor(pass, g, k) &&
            pass(After(pass, g, k)) == Stop(Run(pass, g, passes + 1).state, Run(pass, g, passes + 1).outcome);
          assert ContinuesFor(pass, f, k + 1) && After(pass, f, k + 1) == After(pass, g, k);
        }
      case Stop(g, o) =>
        assert ContinuesFor(pass, f, 0) && After(pass, f, 0) == f;
    }
  }

  /** A pass that continues after a single contact, or after the character's
      wedge escape, leaves no contact in the working list. */
  lemma ContinueClearsContacts(c: Call, f: PassState)
    requires PassStep(c, f).Continue?
    requires c.policy == Slide || |Touching(f.hits)| == 1
    ensures Touching(PassStep(c, f).next.hits) == []
  {
    var contacts := Touching(f.hits);
    if |contacts| == 1 {
      RemoveFirstContact(f.hits);
      assert PassStep(c, f).next.hits == RemoveFirst(f.hits, contacts[0]);
    } else {
      var center := CenterNormal(contacts, c.eng);
      assert c.eng.angle(center, f.velocity) > MaxAngle(contacts, center, c.eng);
      assert MinAngleHit(contacts, f.velocity, c.eng).hasCollider;
      SlideWedgeEscapePass(c, f);
    }
  }

  /** So the character's loop stops by its second pass: it can never reach the
      cap of five, and `Move` never ends `Aborted`. */
  lemma SlideStopsBySecondPass(c: Call, f: PassState, passes: nat)
    requires c.policy == Slide && passes + 2 <= MaxPasses
    ensures !ContinuesFor(Pass(c), f, 2)
    ensures Run(Pass(c), f, passes).outcome != Aborted
  {
    if PassStep(c, f).Continue? {
      ContinueClearsContacts(c, f);
      var g := PassStep(c, f).next;
      assert PassStep(c, g).Stop?;
    }
  }

  lemma SlideResolveNeverAborts(eng: Engine, radius: real, t: real, position: Vector2, velocity: Vector2)
    ensures Resolve(Slide, eng, radius, t, position, velocity).outcome != Aborted
  {
    var offset := Scale(t, velocity);
    var hits := eng.circleCastAll(position, radius, velocity, eng.magnitude(offset));
    SlideStopsBySecondPass(Call(Slide, eng, radius, t, position), PassState(position, velocity, offset, SortByDistance(hits)), 0);
  }

  // ----------------------------------------------------- the three branches

  /** No contact and no future hit: move by the whole offset and stop. */
  lemma FreePass(c: Call, f: PassState)
    requires Touching(f.hits) == [] && FirstUncontact(f.hits) == None
    ensures PassStep(c, f) == Stop(f.(position := Add(f.position, f.offset)), Done)
  {
  }

  /** No contact but a future hit: the body is put at that hit's centroid as it
      stands (not through `Place`), the velocity responds to that hit's normal,
      and the call hands over to `Move(t2)` with `t2` the travelled fraction of
      the offset times `t`. With a unit normal the slide leaves no normal
      component and the bounce keeps the speed and flips the normal component. */
  lemma FutureHitPass(c: Call, f: PassState)
    requires Touching(f.hits) == [] && FirstUncontact(f.hits).Some?
    ensures var h := FirstUncontact(f.hits).value;
      var s := PassStep(c, f);
      && s.Stop?
      && s.last.position == h.centroid
      && s.last.velocity == Respond(c.policy, f.velocity, h.normal)
      && s.last.hits == f.hits && s.last.offset == f.offset
      && (c.eng.magnitude(f.offset) != 0.0 ==>
            s.outcome == Recurse(c.eng.magnitude(Sub(c.origin, h.centroid)) / c.eng.magnitude(f.offset) * c.t))
      && (c.eng.magnitude(f.offset) == 0.0 ==> s.outcome == RecurseNonFinite)
      && (IsUnit(h.normal) && c.policy == Slide ==> Dot(s.last.velocity, h.normal) == 0.0)
      && (IsUnit(h.normal) && c.policy == Bounce ==>
            Dot(s.last.velocity, h.normal) == -Dot(f.velocity, h.normal) &&
            LengthSq(s.last.velocity) == LengthSq(f.velocity))
  {
    var h := FirstUncontact(f.hits).value;
    if IsUnit(h.normal) {
      ProjectRemovesNormalPart(f.velocity, h.normal);
      ReflectNegatesNormalPart(f.velocity, h.normal);
      ReflectPreservesSpeed(f.velocity, h.normal);
    }
  }

  /** Exactly one contact: the body is placed against it; the velocity responds
      only if it points into the surface, so that afterwards it never does; the
      offset is recomputed from the new velocity and the original `t`; that hit
      leaves the working list, which then holds no contact at all. */
  lemma SingleContactPass(c: Call, f: PassState)
    requires |Touching(f.hits)| == 1
    requires IsUnit(Touching(f.hits)[0].normal)
    ensures var h := Touching(f.hits)[0];
      var s := PassStep(c, f);
      && s.Continue?
      && s.next.position == Place(h, c.radius)
      && Dot(s.next.velocity, h.normal) >= 0.0
      && (Dot(f.velocity, h.normal) >= 0.0 ==> s.next.velocity == f.velocity)
      && (Dot(f.velocity, h.normal) < 0.0 ==> s.next.velocity == Respond(c.policy, f.velocity, h.normal))
      && (Dot(f.velocity, h.normal) < 0.0 && c.policy == Slide ==> Dot(s.next.velocity, h.normal) == 0.0)
      && (Dot(f.velocity, h.normal) < 0.0 && c.policy == Bounce ==>
            Dot(s.next.velocity, h.normal) == -Dot(f.velocity, h.normal) &&
            LengthSq(s.next.velocity) == LengthSq(f.velocity))
      && s.next.offset == Scale(c.t, s.next.velocity)
      && |s.next.hits| == |f.hits| - 1
      && multiset(s.next.hits) == multiset(f.hits) - multiset{h}
      && Touching(s.next.hits) == []
  {
    var h := Touching(f.hits)[0];
    TouchingMembers(f.hits, h);
    RemoveFirstContact(f.hits);
    ProjectRemovesNormalPart(f.velocity, h.normal);
    ReflectNegatesNormalPart(f.velocity, h.normal);
    ReflectPreservesSpeed(f.velocity, h.normal);
  }

  /** A wedge whose span contains the velocity blocks the body: the velocity
      becomes exactly zero, nothing else changes, and the loop ends. */
  lemma WedgeBlockedPass(c: Call, f: PassState)
    requires |Touching(f.hits)| >= 2
    requires var contacts := Touching(f.hits);
      var center := CenterNormal(contacts, c.eng);
      c.eng.angle(center, f.velocity) <= MaxAngle(contacts, center, c.eng)
    ensures PassStep(c, f) == Stop(f.(velocity := Zero), Done)
  {
  }

  /** A wedge escape with no contact picked (a null `minHit.collider`) ends the
      loop with the state untouched. */
  lemma WedgeWithoutEscapePass(c: Call, f: PassState)
    requires |Touching(f.hits)| >= 2
    requires var contacts := Touching(f.hits);
      var center := CenterNormal(contacts, c.eng);
      && c.eng.angle(center, f.velocity) > MaxAngle(contacts, center, c.eng)
      && !MinAngleHit(contacts, f.velocity, c.eng).hasCollider
    ensures PassStep(c, f) == Stop(f, Done)
  {
  }

  /** The character's wedge escape: placed against the contact whose escape
      angle is least, the velocity slides along that contact's own normal
      (losing its normal component when that is a unit vector), and every
      contact is removed, so that the next pass sees none. */
  lemma SlideWedgeEscapePass(c: Call, f: PassState)
    requires c.policy == Slide
    requires |Touching(f.hits)| >= 2
    requires var contacts := Touching(f.hits);
      var center := CenterNormal(contacts, c.eng);
      && c.eng.angle(center, f.velocity) > MaxAngle(contacts, center, c.eng)
      && MinAngleHit(contacts, f.velocity, c.eng).hasCollider
    ensures var m := MinAngleHit(Touching(f.hits), f.velocity, c.eng);
      var s := PassStep(c, f);
      && m in Touching(f.hits)
      && s.Continue?
      && s.next.position == Place(m, c.radius)
      && s.next.velocity == Project(f.velocity, m.normal)
      && (IsUnit(m.normal) ==> Dot(s.next.velocity, m.normal) == 0.0)
      && s.next.offset == Scale(c.t, s.next.velocity)
      && s.next.hits == NonTouching(f.hits)
      && Touching(s.next.hits) == []
  {
    var m := MinAngleHit(Touching(f.hits), f.velocity, c.eng);
    MinAngleHitIsContact(Touching(f.hits), f.velocity, c.eng);
    RemoveAllContacts(f.hits);
    if IsUnit(m.normal) {
      ProjectRemovesNormalPart(f.velocity, m.normal);
    }
  }

  /** The bullet's wedge escape: placed against the contact whose escape angle
      is least, the velocity is reflected on the aggregate center normal (not on
      that contact's own normal), and no hit is removed, so that the next pass
      meets the very same contacts again. */
  lemma BounceWedgeEscapePass(c: Call, f: PassState)
    requires c.policy == Bounce
    requires |Touching(f.hits)| >= 2
    requires var contacts := Touching(f.hits);
      var center := CenterNormal(contacts, c.eng);
      && c.eng.angle(center, f.velocity) > MaxAngle(contacts, center, c.eng)
      && MinAngleHit(contacts, f.velocity, c.eng).hasCollider
    ensures var contacts := Touching(f.hits);
      var center := CenterNormal(contacts, c.eng);
      var m := MinAngleHit(contacts, f.velocity, c.eng);
      var s := PassStep(c, f);
      && m in contacts
      && s.Continue?
      && s.next.position == Place(m, c.radius)
      && s.next.velocity == Reflect(f.velocity, center)
      && (IsUnit(center) ==> LengthSq(s.next.velocity) == LengthSq(f.velocity))
      && s.next.offset == Scale(c.t, s.next.velocity)
      && s.next.hits == f.hits
      && Touching(s.next.hits) == contacts
  {
    var contacts := Touching(f.hits);
    var center := CenterNormal(contacts, c.eng);
    MinAngleHitIsContact(contacts, f.velocity, c.eng);
    if IsUnit(center) {
      ReflectPreservesSpeed(f.velocity, center);
    }
  }

  /** Because the bullet's wedge escape keeps its contacts, a bullet that enters
      a pass touching two or more hits never leaves the wedge during this call:
      the working list stays as it is, every later pass is a wedge pass again,
      the call ends `Done` (blocked, or no contact picked) or `Aborted` (five
      escapes), never by a free move or a hand-over to `Move(t2)`, and the body
      ends where it was or placed against one of those contacts. */
  lemma {:induction false} BounceWedgeTraps(c: Call, f: PassState, passes: nat)
    requires passes <= MaxPasses
    requires c.policy == Bounce && |Touching(f.hits)| >= 2
    ensures var r := Run(Pass(c), f, passes);
      && r.state.hits == f.hits
      && (r.outcome == Done || r.outcome == Aborted)
      && (r.state.position == f.position || exists m :: m in Touching(f.hits) && r.state.position == Place(m, c.radius))
    decreases MaxPasses - passes
  {
    if passes < MaxPasses {
      var contacts := Touching(f.hits);
      var center := CenterNormal(contacts, c.eng);
      if c.eng.angle(center, f.velocity) <= MaxAngle(contacts, center, c.eng) {
        WedgeBlockedPass(c, f);
      } else if !MinAngleHit(contacts, f.velocity, c.eng).hasCollider {
        WedgeWithoutEscapePass(c, f);
      } else {
        BounceWedgeEscapePass(c, f);
        var g := PassStep(c, f).next;
        BounceWedgeTraps(c, g, passes + 1);
      }
    }
  }

  // ---------------------------------------------------------------- speed

  ghost predicate UnitNormals(s: seq<Hit>)
  {
    forall h :: h in s ==> IsUnit(h.normal)
  }

  /** The engine's `normalized` gives a unit vector, or zero (as Unity does for
      a vector too short to normalize). */
  ghost predicate NormalizesToUnitOrZero(eng: Engine)
  {
    forall v :: eng.normalized(v) == Zero || IsUnit(eng.normalized(v))
  }

  function StepFrame(s: Step): PassState
  {
    match s
    case Continue(g) => g
    case Stop(g, _) => g
  }

  lemma LengthSqNonNegative(v: Vector2)
    ensures LengthSq(v) >= 0.0
  {
    assert v.x * v.x >= 0.0 && v.y * v.y >= 0.0;
  }

  lemma PassStepKeepsUnitNormals(c: Call, f: PassState)
    requires UnitNormals(f.hits)
    ensures PassStep(c, f).Continue? ==> UnitNormals(PassStep(c, f).next.hits)
  {
    var contacts := Touching(f.hits);
    if |contacts| == 1 {
      var h := contacts[0];
      var r := RemoveFirst(f.hits, h);
      forall x | x in r ensures IsUnit(x.normal) {
        assert x in multiset(r);
      }
    } else if |contacts| >= 2 {
      var r := RemoveEach(f.hits, contacts);
      RemoveEachShrinks(f.hits, contacts);
      forall x | x in r ensures IsUnit(x.normal) {
        assert x in multiset(r);
      }
    }
  }

  /** One pass of the character never speeds it up. */
  lemma SlidePassNeverSpeedsUp(c: Call, f: PassState)
    requires c.policy == Slide && UnitNormals(f.hits)
    ensures LengthSq(StepFrame(PassStep(c, f)).velocity) <= LengthSq(f.velocity)
  {
    var contacts := Touching(f.hits);
    var v := f.velocity;
    LengthSqNonNegative(v);
    if |contacts| == 0 {
      if FirstUncontact(f.hits).Some? {
        FutureHitPass(c, f);
        ProjectSpeed(v, FirstUncontact(f.hits).value.normal);
      } else {
        FreePass(c, f);
      }
    } else if |contacts| == 1 {
      TouchingMembers(f.hits, contacts[0]);
      SingleContactPass(c, f);
      ProjectSpeed(v, contacts[0].normal);
    } else {
      var center := CenterNormal(contacts, c.eng);
      var m := MinAngleHit(contacts, v, c.eng);
      if c.eng.angle(center, v) <= MaxAngle(contacts, center, c.eng) {
        WedgeBlockedPass(c, f);
      } else if !m.hasCollider {
        WedgeWithoutEscapePass(c, f);
      } else {
        SlideWedgeEscapePass(c, f);
        TouchingMembers(f.hits, m);
        ProjectSpeed(v, m.normal);
      }
    }
  }

  /** One pass of the bullet keeps its speed, except that a blocking wedge stops it. */
  lemma BouncePassKeepsSpeed(c: Call, f: PassState)
    requires c.policy == Bounce && UnitNormals(f.hits) && NormalizesToUnitOrZero(c.eng)
    ensures var s := PassStep(c, f);
      (s.Continue? ==> LengthSq(s.next.velocity) == LengthSq(f.velocity)) &&
      (s.Stop? ==> s.last.velocity == Zero || LengthSq(s.last.velocity) == LengthSq(f.velocity))
  {
    var contacts := Touching(f.hits);
    var v := f.velocity;
    if |contacts| == 0 {
      var first := FirstUncontact(f.hits);
      if first.Some? {
        ReflectPreservesSpeed(v, first.value.normal);
      }
    } else if |contacts| == 1 {
      TouchingMembers(f.hits, contacts[0]);
      ReflectPreservesSpeed(v, contacts[0].normal);
    } else {
      var center := CenterNormal(contacts, c.eng);
      if center == Zero {
        assert Reflect(v, center) == v;
      } else {
        ReflectPreservesSpeed(v, center);
      }
    }
  }

  /** Over the whole loop the character never speeds up. */
  lemma {:induction false} SlideRunNeverSpeedsUp(c: Call, f: PassState, passes: nat)
    requires passes <= MaxPasses
    requires c.policy == Slide && UnitNormals(f.hits)
    ensures LengthSq(Run(Pass(c), f, passes).state.velocity) <= LengthSq(f.velocity)
    decreases MaxPasses - passes
  {
    if passes < MaxPasses {
      SlidePassNeverSpeedsUp(c, f);
      PassStepKeepsUnitNormals(c, f);
      if PassStep(c, f).Continue? {
        SlideRunNeverSpeedsUp(c, PassStep(c, f).next, passes + 1);
      }
    }
  }

  /** Over the whole loop the bullet keeps its speed unless a wedge stopped it dead. */
  lemma {:induction false} BounceRunKeepsSpeed(c: Call, f: PassState, passes: nat)
    requires passes <= MaxPasses
    requires c.policy == Bounce && UnitNormals(f.hits) && NormalizesToUnitOrZero(c.eng)
    ensures var v := Run(Pass(c), f, passes).state.velocity;
      v == Zero || LengthSq(v) == LengthSq(f.velocity)
    decreases MaxPasses - passes
  {
    if passes < MaxPasses {
      BouncePassKeepsSpeed(c, f);
      PassStepKeepsUnitNormals(c, f);
      if PassStep(c, f).Continue? {
        BounceRunKeepsSpeed(c, PassStep(c, f).next, passes + 1);
      }
    }
  }

  lemma SortedKeepsUnitNormals(hits: seq<Hit>)
    requires UnitNormals(hits)
    ensures UnitNormals(SortByDistance(hits))
  {
    var r := SortByDistance(hits);
    forall x | x in r ensures IsUnit(x.normal) {
      assert x in multiset(r);
    }
  }

  /** A call of the character's `Move` never increases its speed, provided the
      sweep reports unit normals. */
  lemma SlideResolveNeverSpeedsUp(eng: Engine, radius: real, t: real, position: Vector2, velocity: Vector2)
    requires UnitNormals(eng.circleCastAll(position, radius, velocity, eng.magnitude(Scale(t, velocity))))
    ensures LengthSq(Resolve(Slide, eng, radius, t, position, velocity).velocity) <= LengthSq(velocity)
  {
    var offset := Scale(t, velocity);
    var hits := eng.circleCastAll(position, radius, velocity, eng.magnitude(offset));
    SortedKeepsUnitNormals(hits);
    SlideRunNeverSpeedsUp(Call(Slide, eng, radius, t, position), PassState(position, velocity, offset, SortByDistance(hits)), 0);
  }

  /** A call of the bullet's `Move` keeps its speed, or stops it dead in a wedge,
      provided the sweep reports unit normals and `normalized` behaves as Unity's. */
  lemma BounceResolveKeepsSpeed(eng: Engine, radius: real, t: real, position: Vector2, velocity: Vector2)
    requires UnitNormals(eng.circleCastAll(position, radius, velocity, eng.magnitude(Scale(t, velocity))))
    requires NormalizesToUnitOrZero(eng)
    ensures var v := Resolve(Bounce, eng, radius, t, position, velocity).velocity;
      v == Zero || LengthSq(v) == LengthSq(velocity)
  {
    var offset := Scale(t, velocity);
    var hits := eng.circleCastAll(position, radius, velocity, eng.magnitude(offset));
    SortedKeepsUnitNormals(hits);
    BounceRunKeepsSpeed(Call(Bounce, eng, radius, t, position), PassState(position, velocity, offset, SortByDistance(hits)), 0);
  }
}
