/** `BulletBehaviour`: a projectile that bounces (`Vector2.Reflect`) off what it
    meets and asks to be destroyed once it has lived for one time unit. */
module Bullet {
  import opened Vectors
  import opened Contacts
  import opened Resolver

  /** The lifetime cap of `Update`. */
  const MaxLifeTime: real := 1.0

  /** The bullet's `lifeTime` after each of a run of frames lasting `deltaTimes`:
      element `i` is the `lifeTime` that `i + 1` successive calls of
      `BulletBehaviour.Update` leave, each adding its frame's length as
      `Update`'s contract says. */
  function LifeTimes(lifeTime: real, deltaTimes: seq<real>): (r: seq<real>)
    ensures |r| == |deltaTimes|
    ensures |r| > 0 ==> r[0] == lifeTime + deltaTimes[0]
    ensures forall i :: 0 < i < |r| ==> r[i] == r[i - 1] + deltaTimes[i]
    decreases |deltaTimes|
  {
    if deltaTimes == [] then []
    else [lifeTime + deltaTimes[0]] + LifeTimes(lifeTime + deltaTimes[0], deltaTimes[1..])
  }

  /** With frames of non-negative length the lifetime never decreases, so once a
      frame has asked for destruction every later frame asks for it too. */
  lemma {:induction false} LifeTimeNeverDecreases(lifeTime: real, deltaTimes: seq<real>)
    requires forall i :: 0 <= i < |deltaTimes| ==> deltaTimes[i] >= 0.0
    ensures var r := LifeTimes(lifeTime, deltaTimes);
      && (forall i :: 0 <= i < |r| ==> lifeTime <= r[i])
      && (forall i, j :: 0 <= i <= j < |r| ==> r[i] <= r[j])
      && (forall i, j :: 0 <= i <= j < |r| && r[i] >= MaxLifeTime ==> r[j] >= MaxLifeTime)
  {
    var r := LifeTimes(lifeTime, deltaTimes);
    for j := 0 to |r|
      invariant forall i :: 0 <= i < j ==> lifeTime <= r[i]
      invariant forall i, k :: 0 <= i <= k < j ==> r[i] <= r[k]
    {
      if j > 0 {
        assert r[j] == r[j - 1] + deltaTimes[j];
      }
    }
  }

  /** The lifetime is the starting one plus the frames summed. */
  function Sum(s: seq<real>): real
    decreases |s|
  {
    if s == [] then 0.0 else s[0] + Sum(s[1..])
  }

  lemma {:induction false} LifeTimeIsSum(lifeTime: real, deltaTimes: seq<real>)
    requires deltaTimes != []
    ensures LifeTimes(lifeTime, deltaTimes)[|deltaTimes| - 1] == lifeTime + Sum(deltaTimes)
    decreases |deltaTimes|
  {
    if |deltaTimes| > 1 {
      LifeTimeIsSum(lifeTime + deltaTimes[0], deltaTimes[1..]);
    }
  }

  class BulletBehaviour {
    const radius: real

    var position: Vector2
    var velocity: Vector2
    var lifeTime: real
    /** Set once `Destroy(gameObject)` was called. */
    var destroyRequested: bool

    constructor (radius: real, position: Vector2, velocity: Vector2)
      ensures this.radius == radius && this.position == position && this.velocity == velocity
      ensures lifeTime == 0.0 && !destroyRequested
    {
      this.radius := radius;
      this.position := position;
      this.velocity := velocity;
      lifeTime := 0.0;
      destroyRequested := false;
    }

    /** A physics tick: one call of `Move` for `fixedDeltaTime`. */
    method FixedUpdate(fixedDeltaTime: real, eng: Engine) returns (outcome: Outcome)
      modifies this`position, this`velocity
      ensures Movement(position, velocity, outcome) ==
        Resolve(Bounce, eng, radius, fixedDeltaTime, old(position), old(velocity))
    {
      outcome := Move(fixedDeltaTime, eng);
    }

    /** A frame: the lifetime grows by the frame's length, and destruction is
        requested when it has reached the cap. */
    method Update(deltaTime: real) returns (destroy: bool)
      modifies this`lifeTime, this`destroyRequested
      ensures lifeTime == old(lifeTime) + deltaTime
      ensures destroy <==> lifeTime >= MaxLifeTime
      ensures destroyRequested == (old(destroyRequested) || destroy)
    {
      lifeTime := lifeTime + deltaTime;
      destroy := false;
      if lifeTime >= MaxLifeTime {
        destroyRequested := true;
        destroy := true;
      }
    }

    /** `SetPositionByHitCentroid`. */
    method SetPositionByHitCentroid(hit: Hit)
      modifies this`position
      ensures position == Place(hit, radius)
    {
      if IsThin(hit, radius) {
        position := Add(hit.point, Scale(radius, hit.normal));
      } else {
        position := hit.centroid;
      }
    }

    /** One pass of the `while (true)` loop of `Move`, after the counter check;
        `stop` says whether the pass leaves the loop. */
    method MovePass(t: real, eng: Engine, posOrigin: Vector2, offset0: Vector2, allHits0: seq<Hit>)
      returns (stop: bool, outcome: Outcome, offset: Vector2, allHits: seq<Hit>)
      modifies this`position, this`velocity
      ensures PassStep(Call(Bounce, eng, radius, t, posOrigin), PassState(old(position), old(velocity), offset0, allHits0)) ==
        if stop then Stop(PassState(position, velocity, offset, allHits), outcome)
        else Continue(PassState(position, velocity, offset, allHits))
    {
      stop, outcome, offset, allHits := true, Done, offset0, allHits0;
      var contactList, firstHitUncontact := Classify(allHits);
      if |contactList| == 0 {
        if !firstHitUncontact.hasCollider {
          position := Add(position, offset);
        } else {
          position := firstHitUncontact.centroid;
          outcome := HandOver(eng, posOrigin, position, offset, t);
          velocity := Reflect(velocity, firstHitUncontact.normal);
        }
      } else if |contactList| == 1 {
        var hit := contactList[0];
        SetPositionByHitCentroid(hit);
        if Dot(velocity, hit.normal) < 0.0 {
          velocity := Reflect(velocity, hit.normal);
        }
        offset := Scale(t, velocity);
        allHits := RemoveFirst(allHits, hit);
        stop := false;
      } else {
        var centerNormal := ComputeCenterNormal(contactList, eng);
        var maxAngle := ComputeMaxAngle(contactList, centerNormal, eng);
        var curAngle := eng.angle(centerNormal, velocity);
        if curAngle <= maxAngle {
          velocity := Zero;
        } else {
          var minHit := SelectMinAngleHit(contactList, velocity, eng);
          if minHit.hasCollider {
            SetPositionByHitCentroid(minHit);
            velocity := Reflect(velocity, centerNormal);
            offset := Scale(t, velocity);
            stop := false;
          }
        }
      }
    }

    /** `Move(t)`: one call of the swept-circle resolver with the bounce response. */
    method Move(t: real, eng: Engine) returns (outcome: Outcome)
      modifies this`position, this`velocity
      ensures Movement(position, velocity, outcome) == Resolve(Bounce, eng, radius, t, old(position), old(velocity))
    {
      outcome := Done;
      if Abs(t - 0.0) <= FloatEpsilon { return; }
      if LengthSq(velocity) <= FloatEpsilon * FloatEpsilon { return; }

      var posOrigin := position;
      var offset := Scale(t, velocity);
      var hits := eng.circleCastAll(posOrigin, radius, velocity, eng.magnitude(offset));
      if |hits| == 0 {
        position := Add(position, offset);
        return;
      }

      var allHits := SortByDistance(hits);
      ghost var pass := Pass(Call(Bounce, eng, radius, t, posOrigin));
      ghost var goal := Run(pass, PassState(position, velocity, offset, allHits), 0);
      assert Resolve(Bounce, eng, radius, t, old(position), old(velocity)) ==
        Movement(goal.state.position, goal.state.velocity, goal.outcome);
      var iterationCount := 0;
      while true
        invariant 0 <= iterationCount <= MaxPasses
        invariant Run(pass, PassState(position, velocity, offset, allHits), iterationCount) == goal
        decreases MaxPasses - iterationCount
      {
        iterationCount := iterationCount + 1;
        if iterationCount > MaxPasses {
          outcome := Aborted;
          return;
        }

        var stop, passOutcome;
        stop, passOutcome, offset, allHits := MovePass(t, eng, posOrigin, offset, allHits);
        if stop {
          outcome := passOutcome;
          break;
        }
      }
    }
  }
}
