/** `CharacterBehaviour`: the player's circle. Each physics tick it turns the
    held keys into a velocity and moves with the slide response; each frame it
    may fire, subject to a cooldown. */
module Character {
  import opened Vectors
  import opened Contacts
  import opened Resolver

  /** Which of W, A, S, D are held during a physics tick. */
  datatype Keys = Keys(w: bool, a: bool, s: bool, d: bool)

  /** The velocity the keys ask for: W wins over S and A wins over D. */
  function KeyVelocity(keys: Keys, speed: real): (v: Vector2)
    ensures v.y == (if keys.w then speed else if keys.s then -speed else 0.0)
    ensures v.x == (if keys.a then -speed else if keys.d then speed else 0.0)
  {
    var direction := Vector2(if keys.a then -1.0 else if keys.d then 1.0 else 0.0,
                             if keys.w then 1.0 else if keys.s then -1.0 else 0.0);
    Scale(speed, direction)
  }

  /** Holding a key that loses its pair changes nothing, and a held pair of
      opposite keys never cancels out. */
  lemma KeyPriority(keys: Keys, speed: real)
    ensures keys.w ==> KeyVelocity(keys, speed) == KeyVelocity(keys.(s := !keys.s), speed)
    ensures keys.a ==> KeyVelocity(keys, speed) == KeyVelocity(keys.(d := !keys.d), speed)
    ensures keys.w && keys.s ==> KeyVelocity(keys, speed).y == speed
    ensures keys.a && keys.d ==> KeyVelocity(keys, speed).x == -speed
    ensures !keys.w && !keys.a && !keys.s && !keys.d ==> KeyVelocity(keys, speed) == Zero
  {
  }

  /** The fire gate of `Update`: the left button is held and strictly more than
      the cooldown has passed since the last shot. */
  function MayFire(mouseHeld: bool, time: real, lastFireTime: real, fireCD: real): bool
  {
    mouseHeld && time - lastFireTime > fireCD
  }

  /** One frame as `Update` sees it. */
  datatype FrameInput = FrameInput(mouseHeld: bool, time: real)

  /** The times at which a sequence of frames fires, starting from `lastFireTime`. */
  function ShotTimes(frames: seq<FrameInput>, lastFireTime: real, fireCD: real): seq<real>
  {
    if frames == [] then []
    else if MayFire(frames[0].mouseHeld, frames[0].time, lastFireTime, fireCD) then
      [frames[0].time] + ShotTimes(frames[1..], frames[0].time, fireCD)
    else ShotTimes(frames[1..], lastFireTime, fireCD)
  }

  /** Whatever the frames, every shot comes strictly more than `fireCD` after the
      one before it (the first one after the starting `lastFireTime`), and a
      shot happens only on a frame where the button is held. */
  lemma {:induction false} ShotsRespectCooldown(frames: seq<FrameInput>, lastFireTime: real, fireCD: real)
    ensures var shots := ShotTimes(frames, lastFireTime, fireCD);
      && |shots| <= |frames|
      && (|shots| > 0 ==> shots[0] > lastFireTime + fireCD)
      && (forall i :: 0 < i < |shots| ==> shots[i] > shots[i - 1] + fireCD)
      && (forall x :: x in shots ==> exists j :: 0 <= j < |frames| && frames[j].mouseHeld && frames[j].time == x)
  {
    if frames != [] {
      var rest := frames[1..];
      var fired := MayFire(frames[0].mouseHeld, frames[0].time, lastFireTime, fireCD);
      var last' := if fired then frames[0].time else lastFireTime;
      ShotsRespectCooldown(rest, last', fireCD);
      var tail := ShotTimes(rest, last', fireCD);
      forall x | x in tail ensures exists j :: 0 <= j < |frames| && frames[j].mouseHeld && frames[j].time == x {
        var j :| 0 <= j < |rest| && rest[j].mouseHeld && rest[j].time == x;
        assert frames[j + 1] == rest[j];
      }
      if fired {
        assert ShotTimes(frames, lastFireTime, fireCD) == [frames[0].time] + tail;
      }
    }
  }

  class CharacterBehaviour {
    const speed: real
    const radius: real
    const fireCD: real

    var lastFireTime: real
    var position: Vector2
    var velocity: Vector2

    constructor (speed: real, radius: real, fireCD: real, position: Vector2)
      ensures this.speed == speed && this.radius == radius && this.fireCD == fireCD
      ensures this.position == position && velocity == Zero && lastFireTime == 0.0
    {
      this.speed := speed;
      this.radius := radius;
      this.fireCD := fireCD;
      this.position := position;
      velocity := Zero;
      lastFireTime := 0.0;
    }

    /** A physics tick: the keys set the velocity, then the body moves for
        `fixedDeltaTime`. */
    method FixedUpdate(keys: Keys, fixedDeltaTime: real, eng: Engine) returns (outcome: Outcome)
      modifies this`position, this`velocity
      ensures Movement(position, velocity, outcome) ==
        Resolve(Slide, eng, radius, fixedDeltaTime, old(position), KeyVelocity(keys, speed))
    {
      velocity := Zero;
      if keys.w {
        velocity := velocity.(y := 1.0);
      } else if keys.s {
        velocity := velocity.(y := -1.0);
      }
      if keys.a {
        velocity := velocity.(x := -1.0);
      } else if keys.d {
        velocity := velocity.(x := 1.0);
      }
      velocity := Scale(speed, velocity);
      outcome := Move(fixedDeltaTime, eng);
    }

    /** A frame: fire when the gate opens, and remember when. Spawning the
        bullet is left to the caller, told by `fired`. */
    method Update(mouseHeld: bool, time: real) returns (fired: bool)
      modifies this`lastFireTime
      ensures fired == MayFire(mouseHeld, time, old(lastFireTime), fireCD)
      ensures lastFireTime == if fired then time else old(lastFireTime)
    {
      fired := false;
      if MayFire(mouseHeld, time, lastFireTime, fireCD) {
        lastFireTime := time;
        fired := true;
      }
    }

    /** `SetPositionByHitCentroid`. */
    method SetPositionByHitCentroid(hit: Hit)
      modifies this`position
      ensures position == Place(hit, radius)
    {
      if IsThin(hit, radius) {
        position := Add(hit.point, Scale(radius, hit.normal));
      } else {
        position := hit.centroid;
      }
    }

    /** One pass of the `while (true)` loop of `Move`, after the counter check;
        `stop` says whether the pass leaves the loop. */
    method MovePass(t: real, eng: Engine, posOrigin: Vector2, offset0: Vector2, allHits0: seq<Hit>)
      returns (stop: bool, outcome: Outcome, offset: Vector2, allHits: seq<Hit>)
      modifies this`position, this`velocity
      ensures PassStep(Call(Slide, eng, radius, t, posOrigin), PassState(old(position), old(velocity), offset0, allHits0)) ==
        if stop then Stop(PassState(position, velocity, offset, allHits), outcome)
        else Continue(PassState(position, velocity, offset, allHits))
    {
      stop, outcome, offset, allHits := true, Done, offset0, allHits0;
      var contactList, firstHitUncontact := Classify(allHits);
      if |contactList| == 0 {
        if !firstHitUncontact.hasCollider {
          position := Add(position, offset);
        } else {
          position := firstHitUncontact.centroid;
          outcome := HandOver(eng, posOrigin, position, offset, t);
          velocity := Project(velocity, firstHitUncontact.normal);
        }
      } else if |contactList| == 1 {
        var hit := contactList[0];
        SetPositionByHitCentroid(hit);
        if Dot(velocity, hit.normal) < 0.0 {
          velocity := Project(velocity, hit.normal);
        }
        offset := Scale(t, velocity);
        allHits := RemoveFirst(allHits, hit);
        stop := false;
      } else {
        var centerNormal := ComputeCenterNormal(contactList, eng);
        var maxAngle := ComputeMaxAngle(contactList, centerNormal, eng);
        var curAngle := eng.angle(centerNormal, velocity);
        if curAngle <= maxAngle {
          velocity := Zero;
        } else {
          var minHit := SelectMinAngleHit(contactList, velocity, eng);
          if minHit.hasCollider {
            SetPositionByHitCentroid(minHit);
            velocity := Project(velocity, minHit.normal);
            offset := Scale(t, velocity);
            allHits := RemoveContacts(allHits, contactList);
            stop := false;
          }
        }
      }
    }

    /** `Move(t)`: one call of the swept-circle resolver with the slide response. */
    method Move(t: real, eng: Engine) returns (outcome: Outcome)
      modifies this`position, this`velocity
      ensures Movement(position, velocity, outcome) == Resolve(Slide, eng, radius, t, old(position), old(velocity))
    {
      outcome := Done;
      if Abs(t - 0.0) <= FloatEpsilon { return; }
      if LengthSq(velocity) <= FloatEpsilon * FloatEpsilon { return; }

      var posOrigin := position;
      var offset := Scale(t, velocity);
      var hits := eng.circleCastAll(posOrigin, radius, velocity, eng.magnitude(offset));
      if |hits| == 0 {
        position := Add(position, offset);
        return;
      }

      var allHits := SortByDistance(hits);
      ghost var pass := Pass(Call(Slide, eng, radius, t, posOrigin));
      ghost var goal := Run(pass, PassState(position, velocity, offset, allHits), 0);
      assert Resolve(Slide, eng, radius, t, old(position), old(velocity)) ==
        Movement(goal.state.position, goal.state.velocity, goal.outcome);
      var iterationCount := 0;
      while true
        invariant 0 <= iterationCount <= MaxPasses
        invariant Run(pass, PassState(position, velocity, offset, allHits), iterationCount) == goal
        decreases MaxPasses - iterationCount
      {
        iterationCount := iterationCount + 1;
        if iterationCount > MaxPasses {
          outcome := Aborted;
          return;
        }

        var stop, passOutcome;
        stop, passOutcome, offset, allHits := MovePass(t, eng, posOrigin, offset, allHits);
        if stop {
          outcome := passOutcome;
          break;
        }
      }
    }
  }
}
