# Swept-circle motion of Unity2DCollision, in Dafny

Unity2DCollision moves two kinds of circles through a 2D scene without a
rigid body. One is the player character (`CharacterBehaviour`); the other is
the bullet it fires (`BulletBehaviour`). On every physics tick each calls its
own copy of `Move(t)`, which works as follows:

- It sweeps the circle along `t * velocity` with `Physics2D.CircleCastAll`.
- It sorts the hits by distance.
- It runs at most five passes of a loop. Each pass splits the working hit list
  into contacts (distance within `float.Epsilon` of zero) and the first future
  hit, then acts on the number of contacts:
  - **No contact:** move freely, or snap to the future hit's `centroid` and
    hand over to `Move(t2)`, with `t2` the travelled fraction of the offset
    times `t`.
  - **One contact:** place the body against it, take the velocity out of the
    surface, and drop that hit from the list.
  - **Two or more contacts (a wedge):** stop dead, or escape along the contact
    whose escape direction is closest to the velocity.

The two copies differ in how the velocity responds to a surface:

- The character slides: `v - Dot(v, n) * n`.
- The bullet bounces: `Vector2.Reflect`, that is `v - 2 * Dot(v, n) * n`.

They also differ in the wedge escape:

- The character removes every contact from the working list.
- The bullet reflects on the wedge's center normal and removes nothing.

Around `Move` there are smaller rules:

- the character turns the W/A/S/D keys into a velocity;
- it fires only when more than a cooldown has passed since the last shot;
- a bullet asks to be destroyed once it has lived one time unit.

The project is organised as follows:

- `vectors.dfy`: `Vector2` over the reals, with the two velocity responses and
  their algebra.
- `contacts.dfy`:
  - the hit record and the engine interface;
  - the distance sort;
  - the classification loop;
  - the `List.Remove` calls;
  - `SetPositionByHitCentroid`;
  - the three accumulating loops of the wedge case (center normal, largest
    spread angle, smallest escape angle).
- `resolver.dfy`: the specification both `Move`s share.
  - `PassStep` is one pass of the loop.
  - `Run` is the loop with its five-pass cap.
  - `Resolve` is the whole call.
  - There are lemmas for each branch, the loop bound, termination of the slide
    loop, the bullet wedge trap, and speed.
  - A `Policy` (`Slide` or `Bounce`) selects the velocity response and the
    wedge escape.
- `character.dfy` and `bullet.dfy`: the two behaviours as classes.
  - Their `position` and `velocity` are fields that the methods update.
  - `Move` is a `while` loop whose passes change those fields in place.
  - Each `Move` is proved to end in exactly the state and outcome that
    `Resolve` gives for its policy.
- `scenarios.dfy`: worked calls. The body has radius 0.5, sits at the origin
  and moves at (10, 0) over one time unit.
  - Free flight ends at (10, 0).
  - A head-on contact with a wall slides the character to a standstill.
  - The same contact bounces the bullet back at (-10, 0).

How `Move` ends is an `Outcome`:

- `Done`: the call returned or left the loop.
- `Aborted`: the sixth pass was refused, after `Debug.LogError`.
- `Recurse(t2)`: the call handed over to `Move(t2)` from the new state, with `t2`
  the travelled fraction of the offset times `t`.
- `RecurseNonFinite`: the same hand-over when `offset.magnitude` is zero, where
  C# computes `t2` as an infinity or NaN.

Several things are facts of the code that the model keeps:

- The future-hit branch puts the body at the hit's raw `centroid`, not through
  `SetPositionByHitCentroid`.
- The character's wedge escape projects on the chosen contact's own normal.
- The bullet's wedge escape reflects on the center normal.
- Although the comment above the bullet's escape talks of leaving the touched
  walls out, the bullet's escape keeps every contact in the list. As
  `Resolver.BounceWedgeTraps` shows, a bullet entering a wedge therefore stays
  in it for the rest of the call: it ends blocked, stuck, or aborted after five
  escapes.
- The character's loop, by contrast, always stops by its second pass
  (`Resolver.SlideStopsBySecondPass`), so the character's `Move` never aborts.

## Model

Rows marked "definition" name the functions the contracts are stated
against. Several lemmas only unfold one branch of `Resolve` or `PassStep` and
Dafny proves them from the definitions alone: `ResolveEarlyExit`,
`ResolveWithoutHits`, `ResolveRunsLoop`, `PassNeverAborts`, `FreePass`,
`WedgeBlockedPass` and `WedgeWithoutEscapePass`. They record the branch facts
the code promises. The induction and loop proofs carry the weight:
`RunIsBounded`, `SlideStopsBySecondPass`, `BounceWedgeTraps`, `Classify`,
`FirstUncontactIsFirst` and the speed lemmas.

| member | source | states |
|---|---|---|
| Vectors.Reflect | Assets/Scripts/BulletBehaviour.cs:104 | definition of Unity's `Vector2.Reflect(v, n)` as `v - 2 * Dot(v, n) * n`, the bounce response used at lines 104, 119 and 183 |
| Vectors.Project | Assets/Scripts/CharacterBehaviour.cs:141 | definition of the slide `v - Dot(v, n) * n`, written out at lines 141, 159 and 230 |
| Vectors.ReflectNegatesNormalPart | Assets/Scripts/BulletBehaviour.cs:104 | reflecting across a unit normal negates the velocity's component along that normal |
| Vectors.ReflectPreservesSpeed | Assets/Scripts/BulletBehaviour.cs:119 | reflecting across a unit normal keeps the squared speed |
| Vectors.ReflectInvolutive | Assets/Scripts/BulletBehaviour.cs:183 | reflecting twice across the same unit normal gives the original velocity back |
| Vectors.ProjectRemovesNormalPart | Assets/Scripts/CharacterBehaviour.cs:159 | after the slide against a unit normal, the velocity has no component along it |
| Vectors.ProjectSpeed | Assets/Scripts/CharacterBehaviour.cs:141 | the slide's squared speed is the old one minus the squared normal component, so it never grows |
| Vectors.ProjectIdempotent | Assets/Scripts/CharacterBehaviour.cs:230 | sliding twice against the same unit normal equals sliding once |
| Vectors.ProjectIsHalfwayToReflect | Assets/Scripts/CharacterBehaviour.cs:141 | the slide response is the average of the velocity and its reflection |
| Contacts.CompareByDistance | Assets/Scripts/CharacterBehaviour.cs:89-94 | the comparator answers -1, 0 or 1; it answers 0 if and only if the distances are within `float.Epsilon`, -1 only when the first hit is nearer, and 1 only when it is farther |
| Contacts.CompareByDistanceAntisymmetric | Assets/Scripts/CharacterBehaviour.cs:89-94 | swapping the two hits negates the comparator's answer |
| Contacts.SortByDistance | Assets/Scripts/CharacterBehaviour.cs:85-94 | the working list is ascending by distance and is a permutation of the cast result |
| Contacts.SortedAgreesWithComparator | Assets/Scripts/CharacterBehaviour.cs:89-94 | in a list sorted by distance, the source's comparator never puts an earlier hit after a later one |
| Contacts.Touching | Assets/Scripts/CharacterBehaviour.cs:110-116 | the contact list is no longer than the hit list and holds only touching hits |
| Contacts.NonTouching | Assets/Scripts/CharacterBehaviour.cs:110-121 | the hits the classification loop leaves out of `contactList`, in order: no more than the list and none touching |
| Contacts.FirstUncontact | Assets/Scripts/CharacterBehaviour.cs:107-120 | a found future hit is in the list, not touching, and has a collider; none is found only when every hit is touching or has no collider |
| Contacts.ClassificationPartitions | Assets/Scripts/CharacterBehaviour.cs:110-121 | the touching and non-touching hits together are exactly the working list, as multisets and by count |
| Contacts.TouchingMembers | Assets/Scripts/CharacterBehaviour.cs:113-115 | a hit is a contact if and only if it is in the list and touching |
| Contacts.FirstUncontactIsFirst | Assets/Scripts/CharacterBehaviour.cs:117-120 | the future hit is never a contact, and every hit before it is touching or has no collider |
| Contacts.Classify | Assets/Scripts/CharacterBehaviour.cs:106-121 | the loop yields exactly the in-order touching hits, and it yields a hit with a collider if and only if a future hit exists, which is then that hit |
| Contacts.RemoveFirst | Assets/Scripts/CharacterBehaviour.cs:163 | `List.Remove` of a present hit shortens the list by one, dropping one copy of that hit; an absent hit leaves the list unchanged |
| Contacts.RemoveFirstDropsFirstOccurrence | Assets/Scripts/CharacterBehaviour.cs:163 | `List.Remove` of a present hit takes out its first occurrence and keeps every other hit in its order |
| Contacts.RemoveFirstContact | Assets/Scripts/CharacterBehaviour.cs:163 | removing the first contact leaves the remaining contacts and every non-touching hit in place |
| Contacts.RemoveEach | Assets/Scripts/CharacterBehaviour.cs:233-236 | definition of `allHits.Remove(contactList[i])` for each contact in turn |
| Contacts.RemoveEachShrinks | Assets/Scripts/CharacterBehaviour.cs:233-236 | the removal loop never adds a hit |
| Contacts.RemoveAllContacts | Assets/Scripts/CharacterBehaviour.cs:233-236 | removing every contact leaves exactly the non-touching hits, so no contact is left |
| Contacts.RemoveContacts | Assets/Scripts/CharacterBehaviour.cs:233-236 | the removal loop computes the successive `List.Remove` of every contact |
| Contacts.Place | Assets/Scripts/CharacterBehaviour.cs:243-253 | definition of where `SetPositionByHitCentroid` puts the body, with the magnitude test on squared lengths (`IsThin`) |
| Contacts.PlaceAgainstHit | Assets/Scripts/CharacterBehaviour.cs:243-253 | a thin contact places the body at `point + radius * normal`, which is one radius from the point when the normal is unit; otherwise the body goes to the centroid |
| Contacts.CenterSum | Assets/Scripts/CharacterBehaviour.cs:171-176 | definition of the running sum: add each negated normal in turn and renormalise |
| Contacts.CenterNormal | Assets/Scripts/CharacterBehaviour.cs:177-178 | definition of the center normal: the running sum divided by the contact count and normalised |
| Contacts.ComputeCenterNormal | Assets/Scripts/CharacterBehaviour.cs:171-178 | the loop computes the renormalised running sum of negated normals, divided by the contact count and normalised |
| Contacts.MaxAngle | Assets/Scripts/CharacterBehaviour.cs:183-193 | the largest spread angle is non-negative, bounds every contact's angle, and is 0 or attained by a contact |
| Contacts.ComputeMaxAngle | Assets/Scripts/BulletBehaviour.cs:138-148 | the loop computes that largest spread angle |
| Contacts.MinAngleIndex | Assets/Scripts/CharacterBehaviour.cs:206-216 | the chosen contact has the least escape angle, strictly below `float.MaxValue` and strictly below every earlier one; none is chosen only when every angle is at least `float.MaxValue` |
| Contacts.MinAngleHit | Assets/Scripts/CharacterBehaviour.cs:206-216 | definition of `minHit`: the contact at `MinAngleIndex`, or the default hit with a null collider |
| Contacts.MinAngleHitIsContact | Assets/Scripts/BulletBehaviour.cs:161-173 | a chosen hit with a collider is one of the contacts |
| Contacts.SelectMinAngleHit | Assets/Scripts/BulletBehaviour.cs:161-171 | the loop picks that contact, or the default hit when none is chosen |
| Resolver.Respond | Assets/Scripts/CharacterBehaviour.cs:141 | definition of the velocity response: the slide for the character, `Vector2.Reflect` for the bullet (Assets/Scripts/BulletBehaviour.cs line 104) |
| Resolver.HandOver | Assets/Scripts/CharacterBehaviour.cs:138 | definition of `t2 = (posOrigin - position).magnitude / offset.magnitude * t` as a hand-over, non-finite on a zero-length offset (also BulletBehaviour.cs line 101) |
| Resolver.PassStep | Assets/Scripts/CharacterBehaviour.cs:106-238 | definition of one pass of the loop body for either policy (the bullet's is BulletBehaviour.cs lines 70-187) |
| Resolver.Run | Assets/Scripts/CharacterBehaviour.cs:96-104 | definition of the `while (true)` loop with its counter refusing the sixth pass (BulletBehaviour.cs lines 60-68) |
| Resolver.Resolve | Assets/Scripts/CharacterBehaviour.cs:65-97 | definition of one call: the two early exits, the cast, the empty-cast move, the sort, then `Run` (BulletBehaviour.cs lines 29-61) |
| Resolver.ResolveEarlyExit | Assets/Scripts/CharacterBehaviour.cs:67-68 | a time step or a speed within `float.Epsilon` of zero changes nothing and ends `Done` |
| Resolver.ResolveWithoutHits | Assets/Scripts/CharacterBehaviour.cs:71-82 | an empty cast moves the body by `t * velocity` and keeps the velocity |
| Resolver.ResolveRunsLoop | Assets/Scripts/CharacterBehaviour.cs:71-97 | otherwise the call is the loop run from the body's state over the sorted cast result |
| Resolver.PassNeverAborts | Assets/Scripts/CharacterBehaviour.cs:106-238 | no pass of the loop body ends the call as aborted; only the counter does |
| Resolver.RunIsBounded | Assets/Scripts/CharacterBehaviour.cs:96-104 | the call aborts if and only if five passes in a row continue, keeping the state the fifth pass left; otherwise some pass before the sixth stops the loop and gives the result |
| Resolver.ContinueClearsContacts | Assets/Scripts/CharacterBehaviour.cs:148-236 | after a continuing single-contact pass, or a continuing wedge escape of the character, no contact is left in the working list |
| Resolver.SlideStopsBySecondPass | Assets/Scripts/CharacterBehaviour.cs:96-240 | the character's loop never continues two passes in a row, so it never reaches the cap |
| Resolver.SlideResolveNeverAborts | Assets/Scripts/CharacterBehaviour.cs:65-241 | the character's `Move` never ends aborted |
| Resolver.FreePass | Assets/Scripts/CharacterBehaviour.cs:126-131 | with no contact and no future hit, the body moves by the whole offset and the loop ends |
| Resolver.FutureHitPass | Assets/Scripts/BulletBehaviour.cs:95-109 | with a future hit, the body goes to its raw centroid and the velocity responds to its normal. The call hands over to `Move(t2)`, with `t2 = |origin - centroid| / |offset| * t`, or a non-finite `t2` when `|offset|` is zero. For a unit normal, the slide leaves no normal component and the bounce keeps the speed |
| Resolver.SingleContactPass | Assets/Scripts/CharacterBehaviour.cs:148-164 | one contact with a unit normal: the body is placed against it. Afterwards the velocity never points into the surface: it responds only if it did and is untouched otherwise. The offset is `t * velocity`, and the list loses exactly that hit, leaving no contact |
| Resolver.WedgeBlockedPass | Assets/Scripts/BulletBehaviour.cs:150-157 | when the velocity lies within the wedge's spread, it becomes exactly zero, nothing else changes, and the loop ends |
| Resolver.WedgeWithoutEscapePass | Assets/Scripts/BulletBehaviour.cs:173-177 | when no escape contact is chosen, the loop ends with the state unchanged |
| Resolver.SlideWedgeEscapePass | Assets/Scripts/CharacterBehaviour.cs:225-236 | the character is placed against the chosen contact and slides along that contact's normal. The offset is recomputed, and the list keeps exactly its non-touching hits |
| Resolver.BounceWedgeEscapePass | Assets/Scripts/BulletBehaviour.cs:179-185 | the bullet is placed against the chosen contact and reflected on the center normal, keeping its speed for a unit center. The offset is recomputed, and the list is unchanged, so the same contacts remain |
| Resolver.BounceWedgeTraps | Assets/Scripts/BulletBehaviour.cs:125-186 | a bullet entering a pass with two or more contacts keeps its list for the rest of the loop and ends `Done` or `Aborted`, never by a free move or a hand-over; it ends where it was or against one of those contacts |
| Resolver.PassStepKeepsUnitNormals | Assets/Scripts/CharacterBehaviour.cs:148-236 | the removals keep the invariant that every hit in the working list has a unit normal |
| Resolver.SlidePassNeverSpeedsUp | Assets/Scripts/CharacterBehaviour.cs:123-238 | no pass of the character's loop increases its squared speed |
| Resolver.BouncePassKeepsSpeed | Assets/Scripts/BulletBehaviour.cs:87-186 | every pass of the bullet keeps its squared speed, except a blocking wedge, which zeroes it |
| Resolver.SlideRunNeverSpeedsUp | Assets/Scripts/CharacterBehaviour.cs:96-240 | the character's whole loop never increases its squared speed |
| Resolver.BounceRunKeepsSpeed | Assets/Scripts/BulletBehaviour.cs:60-188 | the bullet's whole loop keeps its squared speed or ends at zero velocity |
| Resolver.SlideResolveNeverSpeedsUp | Assets/Scripts/CharacterBehaviour.cs:65-241 | given unit normals from the cast, a call of the character's `Move` never speeds it up |
| Resolver.BounceResolveKeepsSpeed | Assets/Scripts/BulletBehaviour.cs:29-189 | given unit normals from the cast and a `normalized` that yields unit or zero vectors, a call of the bullet's `Move` keeps its speed or stops it dead |
| Character.MayFire | Assets/Scripts/CharacterBehaviour.cs:49 | definition of the fire gate: button held and strictly more than `fireCD` since the last shot |
| Character.ShotTimes | Assets/Scripts/CharacterBehaviour.cs:49-53 | definition of the shot times of a run of `Update` frames |
| Character.KeyVelocity | Assets/Scripts/CharacterBehaviour.cs:23-42 | `y` is `speed` if W is held, else `-speed` if S is, else 0; `x` is `-speed` if A is held, else `speed` if D is, else 0 |
| Character.KeyPriority | Assets/Scripts/CharacterBehaviour.cs:23-42 | W makes S irrelevant and A makes D irrelevant, opposite keys never cancel, and no key gives zero velocity |
| Character.ShotsRespectCooldown | Assets/Scripts/CharacterBehaviour.cs:49-53 | over any sequence of frames there are no more shots than frames. Each shot comes strictly more than `fireCD` after the previous one, or after the starting `lastFireTime`, and only on a frame with the button held |
| Character.CharacterBehaviour.FixedUpdate | Assets/Scripts/CharacterBehaviour.cs:19-45 | the tick sets the velocity from the keys and then ends in the state `Resolve` gives for the slide policy |
| Character.CharacterBehaviour.Update | Assets/Scripts/CharacterBehaviour.cs:47-54 | a shot is fired, and `lastFireTime` set to the time, if and only if the button is held and strictly more than `fireCD` has passed; otherwise `lastFireTime` is unchanged |
| Character.CharacterBehaviour.SetPositionByHitCentroid | Assets/Scripts/CharacterBehaviour.cs:243-253 | the body is put where `Place` says: against a thin contact, or at the centroid |
| Character.CharacterBehaviour.MovePass | Assets/Scripts/CharacterBehaviour.cs:106-238 | one pass of the loop body changes the fields, the offset and the working list exactly as `PassStep` does for the slide policy |
| Character.CharacterBehaviour.Move | Assets/Scripts/CharacterBehaviour.cs:65-241 | the call ends in exactly the position, velocity and outcome `Resolve` gives for the slide policy |
| Bullet.LifeTimes | Assets/Scripts/BulletBehaviour.cs:21 | the lifetime after each of a run of frames: one value per frame, the first the start plus the first frame's length, each next one the previous plus its frame's length, as successive `Update` calls leave it |
| Bullet.LifeTimeNeverDecreases | Assets/Scripts/BulletBehaviour.cs:21-25 | with frames of non-negative length, the lifetime never falls below its start and never decreases, so once destruction is due it stays due |
| Bullet.LifeTimeIsSum | Assets/Scripts/BulletBehaviour.cs:21 | after a run of frames, the lifetime is the starting one plus the sum of their lengths |
| Bullet.BulletBehaviour.FixedUpdate | Assets/Scripts/BulletBehaviour.cs:12-17 | a tick ends in the state `Resolve` gives for the bounce policy |
| Bullet.BulletBehaviour.Update | Assets/Scripts/BulletBehaviour.cs:19-26 | the lifetime grows by the frame's length; destruction is requested if and only if the lifetime has reached 1, and a request is never withdrawn |
| Bullet.BulletBehaviour.SetPositionByHitCentroid | Assets/Scripts/BulletBehaviour.cs:191-201 | the body is put where `Place` says: against a thin contact, or at the centroid |
| Bullet.BulletBehaviour.MovePass | Assets/Scripts/BulletBehaviour.cs:70-187 | one pass of the loop body changes the fields, the offset and the working list exactly as `PassStep` does for the bounce policy |
| Bullet.BulletBehaviour.Move | Assets/Scripts/BulletBehaviour.cs:29-189 | the call ends in exactly the position, velocity and outcome `Resolve` gives for the bounce policy |
| Scenarios.ScenarioFreeFlight | Assets/Scripts/CharacterBehaviour.cs:75-82 | with nothing in the way, the body at the origin moving at (10, 0) for one time unit ends at (10, 0) with its velocity |
| Scenarios.HeadOnFirstPass | Assets/Scripts/CharacterBehaviour.cs:148-164 | touching a wall on its right, the first pass places the body at the origin, responds to the wall and empties the list |
| Scenarios.HeadOnRun | Assets/Scripts/CharacterBehaviour.cs:96-164 | the loop then takes one free pass and ends `Done` at the responded offset |
| Scenarios.HeadOnContact | Assets/Scripts/CharacterBehaviour.cs:65-164 | the whole call ends at the responded velocity, both as position and as velocity |
| Scenarios.ScenarioHeadOnSlide | Assets/Scripts/CharacterBehaviour.cs:148-164 | the character touching the wall head-on ends at the origin with zero velocity |
| Scenarios.ScenarioHeadOnBounce | Assets/Scripts/BulletBehaviour.cs:111-124 | the bullet touching the wall head-on ends at (-10, 0) with velocity (-10, 0) |

## Left out

- `Physics2D.CircleCastAll` is an engine query. The cast is a function value in
  the `Engine` parameter. Where a property needs unit normals from it, that is a
  precondition.
- `Vector2.magnitude`, `Vector2.normalized` and `Vector2.Angle` involve square
  roots and arc-cosines, so they are left uninterpreted in `Engine`. Two
  consequences follow:
  - no wedge example can be computed through the center normal and angles;
  - the wedge facts hold for any angle values.
  The two comparisons of a magnitude with a constant are modelled exactly on
  squared lengths: the speed test and the thin-contact test.
- `float` is modelled as `real`, so the model makes no claim about rounding,
  overflow or NaN. `float.Epsilon` and `float.MaxValue` are their exact values
  as constants, not free parameters.
- `t2` on a zero-length offset is the outcome `RecurseNonFinite`, because C#
  would divide by zero there.
- `Move(t2)` is not followed. A call ends with the outcome
  `Recurse(t2)` or `RecurseNonFinite`, which a caller can use to continue. The
  `count > 10` guard is dropped because it can never trip: the character calls
  `Move(t2)` without `count`, and the bullet resets `count` and never
  increments it.
- Unity's lifecycle and I/O are left out:
  - `Input.GetKey` and `Input.GetMouseButton` become method parameters (`Keys`,
    `mouseHeld`);
  - `Time.time`, `Time.deltaTime` and `Time.fixedDeltaTime` become method
    parameters;
  - `Destroy(gameObject)` becomes the flag `destroyRequested`;
  - `Debug.LogError` is the outcome `Aborted`.
- `Fire` is left out: its aim direction (`Camera.main.WorldToScreenPoint`, a
  normalisation), `Instantiate` and the bullet spawn are engine calls.
  `Character.CharacterBehaviour.Update` only reports `fired`.
- The drawing state is left out, because it only feeds `OnDrawGizmos`:
  `hitToDraw`, the field `this.centerNormal`, and `OnDrawGizmos` itself.
- The unused `maxNormal` and the z coordinate of `transform.position` are left
  out; the motion is planar.
- Tie order of the sort is not modelled. `List.Sort` is unstable. The model
  sorts by insertion with one fixed tie order. `Contacts.SortByDistance`
  states only sortedness and permutation, which hold for every tie order.
- Character.CharacterBehaviour.Move, and with it `MovePass` and `FixedUpdate`,
  equals `Resolve` only for the model's fixed tie order. The comparator answers
  0 for any two touching hits, so `contactList` comes in the sort's unspecified
  order. The renormalised running sum (`CenterSum`) and the first strict
  minimum (`MinAngleIndex`) depend on that order, and so does the choice among
  future hits at equal distance.
- Bullet.BulletBehaviour.Move, and with it `MovePass` and `FixedUpdate`, equals
  `Resolve` only for the model's fixed tie order, for the same reason.
- For every tie order, the following still hold, because they are stated for
  every `PassState` whatever the order of its hits: `RunIsBounded`,
  `SlideStopsBySecondPass`, `BounceWedgeTraps` and the pass and run speed
  lemmas.
- `RaycastHit2D` keeps only the fields the resolver reads. So the equality that
  `List.Remove` uses compares only those fields.
- The loop body of each `Move` is factored into a `MovePass` method. It does what
  one pass of the `while (true)` body does after the counter check.

