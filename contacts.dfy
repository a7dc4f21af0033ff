/** The hit list one call of `Move` works on: the records `Physics2D.CircleCastAll`
    returns, their ordering by distance, the split into touching contacts and the
    first future hit, the removals from the working list, the placement of the
    body against a hit, and the angle bookkeeping of the wedge case. Both
    `CharacterBehaviour.Move` and `BulletBehaviour.Move` run these same loops. */
module Contacts {
  import opened Vectors

  datatype Option<T> = None | Some(value: T)

  /** A `RaycastHit2D` as the resolver reads it. `hasCollider` is false for the
      default value `new RaycastHit2D()`, whose collider is null. */
  datatype Hit = Hit(distance: real, point: Vector2, normal: Vector2, centroid: Vector2, hasCollider: bool)

  /** `new RaycastHit2D()`: every field zero, no collider. */
  const NoHit: Hit := Hit(0.0, Zero, Zero, Zero, false)

  /** C#'s `float.Epsilon`, the least positive single-precision value, 2^-149. */
  const FloatEpsilon: real := 1.0 / 713623846352979940529142984724747568191373312.0

  /** C#'s `float.MaxValue`, (2 - 2^-23) * 2^127. */
  const FloatMax: real := 340282346638528859811704183484516925440.0

  /** What the resolver asks of the engine: the sweep query and the three
      vector operations that involve square roots or arc-cosines. Nothing is
      assumed about their values. */
  datatype Engine = Engine(
    circleCastAll: (Vector2, real, Vector2, real) -> seq<Hit>, // origin, radius, direction, distance
    magnitude: Vector2 -> real,                                // Vector2.magnitude
    normalized: Vector2 -> Vector2,                            // Vector2.normalized
    angle: (Vector2, Vector2) -> real)                         // Vector2.Angle, in degrees

  /** A hit the body already touches: `Mathf.Abs(hit.distance - 0) < float.Epsilon`. */
  predicate IsTouching(h: Hit) { Abs(h.distance - 0.0) < FloatEpsilon }

  // ---------------------------------------------------------------- sorting

  /** The comparator handed to `allHits.Sort`. */
  function CompareByDistance(h1: Hit, h2: Hit): (r: int)
    ensures -1 <= r <= 1
    ensures r == 0 <==> Abs(h1.distance - h2.distance) < FloatEpsilon
    ensures r < 0 ==> h1.distance < h2.distance
    ensures r > 0 ==> h1.distance > h2.distance
  {
    if Abs(h1.distance - h2.distance) < FloatEpsilon then 0
    else if h1.distance < h2.distance then -1
    else 1
  }

  /** Swapping the two hits flips the comparator's answer. */
  lemma CompareByDistanceAntisymmetric(h1: Hit, h2: Hit)
    ensures CompareByDistance(h1, h2) == -CompareByDistance(h2, h1)
  {
    assert Abs(h1.distance - h2.distance) == Abs(h2.distance - h1.distance);
  }

  ghost predicate SortedByDistance(s: seq<Hit>)
  {
    forall i, j :: 0 <= i < j < |s| ==> s[i].distance <= s[j].distance
  }

  function InsertByDistance(h: Hit, s: seq<Hit>): (r: seq<Hit>)
    requires SortedByDistance(s)
    ensures SortedByDistance(r)
    ensures multiset(r) == multiset(s) + multiset{h}
  {
    if s == [] then [h]
    else if h.distance <= s[0].distance then
      ConsSorted(h, s);
      [h] + s
    else
      var rest := InsertByDistance(h, s[1..]);
      assert s == [s[0]] + s[1..];
      BoundedTail(s, h, rest);
      ConsSorted(s[0], rest);
      [s[0]] + rest
  }

  /** A hit no farther than every hit of a sorted list can go in front of it. */
  lemma ConsSorted(x: Hit, rest: seq<Hit>)
    requires SortedByDistance(rest)
    requires forall y :: y in rest ==> x.distance <= y.distance
    ensures SortedByDistance([x] + rest)
  {
    var r := [x] + rest;
    forall i, j | 0 <= i < j < |r| ensures r[i].distance <= r[j].distance {
      if i == 0 {
        assert r[j] == rest[j - 1];
        assert rest[j - 1] in rest;
      } else {
        assert r[i] == rest[i - 1] && r[j] == rest[j - 1];
      }
    }
  }

  /** What the head of a sorted list bounds, it still bounds once a farther hit
      has been inserted into the tail. */
  lemma BoundedTail(s: seq<Hit>, h: Hit, rest: seq<Hit>)
    requires s != [] && SortedByDistance(s) && s[0].distance < h.distance
    requires multiset(rest) == multiset(s[1..]) + multiset{h}
    ensures forall y :: y in rest ==> s[0].distance <= y.distance
  {
    forall y | y in rest ensures s[0].distance <= y.distance {
      assert y in multiset(rest);
      if y != h {
        assert y in multiset(s[1..]);
        var k :| 0 <= k < |s[1..]| && s[1..][k] == y;
        assert s[k + 1] == y;
      }
    }
  }

  /** `allHits.Sort(...)`: the hits in ascending order of distance, a permutation
      of the cast result. */
  function SortByDistance(s: seq<Hit>): (r: seq<Hit>)
    ensures SortedByDistance(r)
    ensures multiset(r) == multiset(s)
  {
    if s == [] then []
    else
      assert s == [s[0]] + s[1..];
      InsertByDistance(s[0], SortByDistance(s[1..]))
  }

  /** A list sorted by distance never has a pair the comparator puts out of order. */
  lemma SortedAgreesWithComparator(s: seq<Hit>)
    requires SortedByDistance(s)
    ensures forall i, j :: 0 <= i < j < |s| ==> CompareByDistance(s[i], s[j]) <= 0
  {
  }

  // --------------------------------------------------------- classification

  /** `contactList` as the classification loop fills it: the touching hits, in order. */
  function Touching(s: seq<Hit>): (r: seq<Hit>)
    ensures |r| <= |s|
    ensures forall h :: h in r ==> IsTouching(h)
  {
    if s == [] then []
    else
      assert s == [s[0]] + s[1..];
      (if IsTouching(s[0]) then [s[0]] else []) + Touching(s[1..])
  }

  /** The hits that are not touching, in order. */
  function NonTouching(s: seq<Hit>): (r: seq<Hit>)
    ensures |r| <= |s|
    ensures forall h :: h in r ==> !IsTouching(h)
  {
    if s == [] then []
    else
      assert s == [s[0]] + s[1..];
      (if IsTouching(s[0]) then [] else [s[0]]) + NonTouching(s[1..])
  }

  /** `firstHitUncontact`: the first hit that is not touching and has a collider.
      (The loop keeps overwriting it while it still has a null collider, so a
      non-touching hit without a collider never blocks a later one.) */
  function FirstUncontact(s: seq<Hit>): (r: Option<Hit>)
    ensures r.Some? ==> r.value in s && !IsTouching(r.value) && r.value.hasCollider
    ensures r.None? ==> forall h :: h in s ==> IsTouching(h) || !h.hasCollider
  {
    if s == [] then None
    else if !IsTouching(s[0]) && s[0].hasCollider then Some(s[0])
    else FirstUncontact(s[1..])
  }

  /** Every hit is either touching or not, and the two lists hold all of them. */
  lemma {:induction false} ClassificationPartitions(s: seq<Hit>)
    ensures multiset(Touching(s)) + multiset(NonTouching(s)) == multiset(s)
    ensures |Touching(s)| + |NonTouching(s)| == |s|
  {
    if s != [] {
      ClassificationPartitions(s[1..]);
      assert s == [s[0]] + s[1..];
    }
  }

  /** A hit is a contact exactly when it is in the list and touching. */
  lemma {:induction false} TouchingMembers(s: seq<Hit>, h: Hit)
    ensures h in Touching(s) <==> h in s && IsTouching(h)
  {
    if s != [] {
      TouchingMembers(s[1..], h);
      assert s == [s[0]] + s[1..];
    }
  }

  /** The future hit found is the first one of its kind, and it is never also a contact. */
  lemma {:induction false} FirstUncontactIsFirst(s: seq<Hit>)
    ensures FirstUncontact(s).Some? ==>
      FirstUncontact(s).value !in Touching(s) &&
      exists k :: 0 <= k < |s| && s[k] == FirstUncontact(s).value &&
        forall j :: 0 <= j < k ==> IsTouching(s[j]) || !s[j].hasCollider
  {
    if s != [] && FirstUncontact(s).Some? {
      if !IsTouching(s[0]) && s[0].hasCollider {
        assert s[0] == FirstUncontact(s).value;
      } else {
        FirstUncontactIsFirst(s[1..]);
        var k :| 0 <= k < |s[1..]| && s[1..][k] == FirstUncontact(s).value &&
          forall j :: 0 <= j < k ==> IsTouching(s[1..][j]) || !s[1..][j].hasCollider;
        assert s[k + 1] == FirstUncontact(s).value;
        assert forall j :: 0 <= j < k + 1 ==> IsTouching(s[j]) || !s[j].hasCollider by {
          forall j | 0 <= j < k + 1 ensures IsTouching(s[j]) || !s[j].hasCollider {
            if j > 0 { assert s[j] == s[1..][j - 1]; }
          }
        }
      }
    }
  }

  lemma {:induction false} TouchingSnoc(s: seq<Hit>, h: Hit)
    ensures Touching(s + [h]) == Touching(s) + (if IsTouching(h) then [h] else [])
  {
    if s == [] {
      assert [] + [h] == [h];
    } else {
      var t := s + [h];
      var head := if IsTouching(s[0]) then [s[0]] else [];
      assert t[0] == s[0] && t[1..] == s[1..] + [h];
      TouchingSnoc(s[1..], h);
      assert Touching(t) == head + Touching(s[1..] + [h]);
      assert Touching(s) == head + Touching(s[1..]);
    }
  }

  lemma {:induction false} FirstUncontactSnoc(s: seq<Hit>, h: Hit)
    ensures FirstUncontact(s + [h]) ==
      if FirstUncontact(s).Some? then FirstUncontact(s)
      else if !IsTouching(h) && h.hasCollider then Some(h)
      else None
  {
    if s == [] {
      assert [] + [h] == [h];
    } else {
      FirstUncontactSnoc(s[1..], h);
      assert (s + [h])[1..] == s[1..] + [h];
    }
  }

  /** The classification loop: it collects the touching hits into `contactList`
      and keeps the first non-touching hit that has a collider. The default
      `NoHit` stands for "no future hit". */
  method Classify(allHits: seq<Hit>) returns (contactList: seq<Hit>, firstHitUncontact: Hit)
    ensures contactList == Touching(allHits)
    ensures firstHitUncontact.hasCollider <==> FirstUncontact(allHits).Some?
    ensures firstHitUncontact.hasCollider ==> firstHitUncontact == FirstUncontact(allHits).value
  {
    contactList := [];
    firstHitUncontact := NoHit;
    for i := 0 to |allHits|
      invariant contactList == Touching(allHits[..i])
      invariant firstHitUncontact.hasCollider <==> FirstUncontact(allHits[..i]).Some?
      invariant firstHitUncontact.hasCollider ==> firstHitUncontact == FirstUncontact(allHits[..i]).value
    {
      var hit := allHits[i];
      assert allHits[..i + 1] == allHits[..i] + [hit];
      TouchingSnoc(allHits[..i], hit);
      FirstUncontactSnoc(allHits[..i], hit);
      if IsTouching(hit) {
        contactList := contactList + [hit];
      } else if !firstHitUncontact.hasCollider {
        firstHitUncontact := hit;
      }
    }
    assert allHits[..|allHits|] == allHits;
  }

  // --------------------------------------------------------------- removals

  /** `List.Remove(h)`: drop the first element equal to `h`, if there is one. */
  function RemoveFirst(s: seq<Hit>, h: Hit): (r: seq<Hit>)
    ensures h in s ==> |r| == |s| - 1 && multiset(r) == multiset(s) - multiset{h}
    ensures h !in s ==> r == s
  {
    if s == [] then []
    else if s[0] == h then
      assert s == [s[0]] + s[1..];
      s[1..]
    else
      assert s == [s[0]] + s[1..];
      [s[0]] + RemoveFirst(s[1..], h)
  }

  /** `h` occurs first at index `i` of `s`. */
  predicate FirstAt(s: seq<Hit>, h: Hit, i: int)
  {
    0 <= i < |s| && s[i] == h && h !in s[..i]
  }

  /** `List.Remove` takes out the first element equal to `h` and keeps the
      others in their order. */
  lemma {:induction false} RemoveFirstDropsFirstOccurrence(s: seq<Hit>, h: Hit)
    ensures h in s ==> exists i :: FirstAt(s, h, i) && RemoveFirst(s, h) == s[..i] + s[i + 1..]
  {
    if s != [] && h in s {
      if s[0] == h {
        assert FirstAt(s, h, 0);
        assert RemoveFirst(s, h) == s[..0] + s[1..];
      } else {
        var t := s[1..];
        assert s == [s[0]] + t;
        RemoveFirstDropsFirstOccurrence(t, h);
        var i :| FirstAt(t, h, i) && RemoveFirst(t, h) == t[..i] + t[i + 1..];
        FirstAtCons(s[0], t, h, i);
      }
    }
  }

  lemma FirstAtCons(x: Hit, t: seq<Hit>, h: Hit, i: int)
    requires x != h && FirstAt(t, h, i)
    ensures var s := [x] + t;
      FirstAt(s, h, i + 1) && [x] + (t[..i] + t[i + 1..]) == s[..i + 1] + s[i + 2..]
  {
    var s := [x] + t;
    assert s[..i + 1] == [x] + t[..i];
    assert s[i + 2..] == t[i + 1..];
  }

  /** `allHits.Remove(contactList[i])` for each `i` in turn. */
  function RemoveEach(s: seq<Hit>, cs: seq<Hit>): seq<Hit>
    decreases |cs|
  {
    if cs == [] then s else RemoveEach(RemoveFirst(s, cs[0]), cs[1..])
  }

  /** Removals never add a hit. */
  lemma {:induction false} RemoveEachShrinks(s: seq<Hit>, cs: seq<Hit>)
    ensures multiset(RemoveEach(s, cs)) <= multiset(s)
    decreases |cs|
  {
    if cs != [] {
      RemoveEachShrinks(RemoveFirst(s, cs[0]), cs[1..]);
    }
  }

  /** Removing the first contact from the list takes that contact out of the
      contact list and leaves the other hits alone. */
  lemma {:induction false} RemoveFirstContact(s: seq<Hit>)
    requires Touching(s) != []
    ensures Touching(RemoveFirst(s, Touching(s)[0])) == Touching(s)[1..]
    ensures NonTouching(RemoveFirst(s, Touching(s)[0])) == NonTouching(s)
  {
    assert s != [];
    var c := Touching(s)[0];
    if IsTouching(s[0]) {
      assert c == s[0];
    } else {
      assert c != s[0];
      assert Touching(s) == Touching(s[1..]);
      RemoveFirstContact(s[1..]);
      var r := RemoveFirst(s[1..], c);
      assert RemoveFirst(s, c) == [s[0]] + r;
      assert ([s[0]] + r)[1..] == r;
    }
  }

  /** The wedge escape of the character removes every contact: afterwards the
      list holds exactly the hits that were not touching. */
  lemma {:induction false} RemoveAllContacts(s: seq<Hit>)
    ensures RemoveEach(s, Touching(s)) == NonTouching(s)
    ensures Touching(RemoveEach(s, Touching(s))) == []
    decreases |Touching(s)|
  {
    if Touching(s) == [] {
      NoContactsMeansAllFree(s);
    } else {
      var s' := RemoveFirst(s, Touching(s)[0]);
      RemoveFirstContact(s);
      RemoveAllContacts(s');
    }
    NonTouchingHasNoContacts(NonTouching(s));
  }

  lemma {:induction false} NoContactsMeansAllFree(s: seq<Hit>)
    requires Touching(s) == []
    ensures NonTouching(s) == s
  {
    if s != [] {
      NoContactsMeansAllFree(s[1..]);
      assert s == [s[0]] + s[1..];
    }
  }

  lemma {:induction false} NonTouchingHasNoContacts(s: seq<Hit>)
    requires forall h :: h in s ==> !IsTouching(h)
    ensures Touching(s) == []
  {
    if s != [] {
      NonTouchingHasNoContacts(s[1..]);
    }
  }

  /** The character's removal loop over `contactList`. */
  method RemoveContacts(allHits: seq<Hit>, contactList: seq<Hit>) returns (remaining: seq<Hit>)
    ensures remaining == RemoveEach(allHits, contactList)
  {
    remaining := allHits;
    for i := 0 to |contactList|
      invariant RemoveEach(remaining, contactList[i..]) == RemoveEach(allHits, contactList)
    {
      assert contactList[i..][1..] == contactList[i + 1..];
      remaining := RemoveFirst(remaining, contactList[i]);
    }
  }

  // -------------------------------------------------------------- placement

  /** `(hit.point - hit.centroid).magnitude < radius`, compared through squares.
      Since a magnitude is never negative the comparison needs `radius > 0`. */
  predicate IsThin(h: Hit, radius: real)
  {
    radius > 0.0 && LengthSq(Sub(h.point, h.centroid)) < radius * radius
  }

  /** `SetPositionByHitCentroid`: where the body is put against a hit. */
  function Place(h: Hit, radius: real): Vector2
  {
    if IsThin(h, radius) then Add(h.point, Scale(radius, h.normal)) else h.centroid
  }

  /** A thin contact puts the body one radius out along the normal, which for a
      unit normal is exactly one radius away from the contact point; any other
      contact puts it at the query's centroid. */
  lemma PlaceAgainstHit(h: Hit, radius: real)
    ensures IsThin(h, radius) ==> Place(h, radius) == Add(h.point, Scale(radius, h.normal))
    ensures IsThin(h, radius) && IsUnit(h.normal) ==>
      LengthSq(Sub(Place(h, radius), h.point)) == radius * radius
    ensures !IsThin(h, radius) ==> Place(h, radius) == h.centroid
  {
    if IsThin(h, radius) && IsUnit(h.normal) {
      var p := Place(h, radius);
      assert Sub(p, h.point) == Scale(radius, h.normal);
      assert LengthSq(Scale(radius, h.normal)) == radius * radius * LengthSq(h.normal);
    }
  }

  // ------------------------------------------------------------ wedge angles

  /** The running sum of the center-normal loop: add the negated normal, then
      renormalize, once per contact. */
  function CenterSum(cs: seq<Hit>, eng: Engine): Vector2
  {
    if cs == [] then Zero
    else eng.normalized(Add(CenterSum(cs[..|cs| - 1], eng), Neg(cs[|cs| - 1].normal)))
  }

  /** `centerNormal` after `centerNormal /= contactList.Count; centerNormal = centerNormal.normalized`. */
  function CenterNormal(cs: seq<Hit>, eng: Engine): Vector2
    requires cs != []
  {
    eng.normalized(Div(CenterSum(cs, eng), |cs| as real))
  }

  method ComputeCenterNormal(contactList: seq<Hit>, eng: Engine) returns (centerNormal: Vector2)
    requires contactList != []
    ensures centerNormal == CenterNormal(contactList, eng)
  {
    centerNormal := Zero;
    for i := 0 to |contactList|
      invariant centerNormal == CenterSum(contactList[..i], eng)
    {
      assert contactList[..i + 1][..i] == contactList[..i];
      centerNormal := Add(centerNormal, Neg(contactList[i].normal));
      centerNormal := eng.normalized(centerNormal);
    }
    assert contactList[..|contactList|] == contactList;
    centerNormal := Div(centerNormal, |contactList| as real);
    centerNormal := eng.normalized(centerNormal);
  }

  /** `Vector2.Angle(-contact.normal, centerNormal)`. */
  function SpreadAngle(h: Hit, center: Vector2, eng: Engine): real
  {
    eng.angle(Neg(h.normal), center)
  }

  /** `maxAngle`: the largest spread angle, starting from 0. */
  function MaxAngle(cs: seq<Hit>, center: Vector2, eng: Engine): (m: real)
    ensures m >= 0.0
    ensures forall i :: 0 <= i < |cs| ==> SpreadAngle(cs[i], center, eng) <= m
    ensures m == 0.0 || exists i :: 0 <= i < |cs| && m == SpreadAngle(cs[i], center, eng)
  {
    if cs == [] then 0.0
    else
      var prev := MaxAngle(cs[..|cs| - 1], center, eng);
      var a := SpreadAngle(cs[|cs| - 1], center, eng);
      assert forall i :: 0 <= i < |cs| - 1 ==> cs[..|cs| - 1][i] == cs[i];
      if a > prev then a else prev
  }

  method ComputeMaxAngle(contactList: seq<Hit>, centerNormal: Vector2, eng: Engine) returns (maxAngle: real)
    ensures maxAngle == MaxAngle(contactList, centerNormal, eng)
  {
    maxAngle := 0.0;
    for i := 0 to |contactList|
      invariant maxAngle == MaxAngle(contactList[..i], centerNormal, eng)
    {
      assert contactList[..i + 1][..i] == contactList[..i];
      var angle := SpreadAngle(contactList[i], centerNormal, eng);
      if angle > maxAngle {
        maxAngle := angle;
      }
    }
    assert contactList[..|contactList|] == contactList;
  }

  /** `Vector2.Angle(velocity, -contact.normal)`: how far a contact's escape
      direction is from the velocity. */
  function EscapeAngle(v: Vector2, h: Hit, eng: Engine): real
  {
    eng.angle(v, Neg(h.normal))
  }

  /** The index the minimum-angle loop ends on: the first contact whose escape
      angle is strictly below `float.MaxValue` and below every earlier one, or
      -1 when none is. */
  function MinAngleIndex(cs: seq<Hit>, v: Vector2, eng: Engine): (k: int)
    ensures -1 <= k < |cs|
    ensures k == -1 ==> forall i :: 0 <= i < |cs| ==> EscapeAngle(v, cs[i], eng) >= FloatMax
    ensures k >= 0 ==> EscapeAngle(v, cs[k], eng) < FloatMax
    ensures k >= 0 ==> forall i :: 0 <= i < |cs| ==> EscapeAngle(v, cs[k], eng) <= EscapeAngle(v, cs[i], eng)
    ensures k >= 0 ==> forall i :: 0 <= i < k ==> EscapeAngle(v, cs[k], eng) < EscapeAngle(v, cs[i], eng)
  {
    if cs == [] then -1
    else
      var n := |cs| - 1;
      var k := MinAngleIndex(cs[..n], v, eng);
      assert forall i :: 0 <= i < n ==> cs[..n][i] == cs[i];
      var best := if k < 0 then FloatMax else EscapeAngle(v, cs[k], eng);
      if EscapeAngle(v, cs[n], eng) < best then n else k
  }

  /** `minHit`: the contact the minimum-angle loop picks, or the default hit. */
  function MinAngleHit(cs: seq<Hit>, v: Vector2, eng: Engine): Hit
  {
    var k := MinAngleIndex(cs, v, eng);
    if k < 0 then NoHit else cs[k]
  }

  /** Only a real contact can be picked: a picked hit with a collider is one of the contacts. */
  lemma MinAngleHitIsContact(cs: seq<Hit>, v: Vector2, eng: Engine)
    ensures MinAngleHit(cs, v, eng).hasCollider ==> MinAngleHit(cs, v, eng) in cs
  {
  }

  method SelectMinAngleHit(contactList: seq<Hit>, velocity: Vector2, eng: Engine) returns (minHit: Hit)
    ensures minHit == MinAngleHit(contactList, velocity, eng)
  {
    var minAngle := FloatMax;
    minHit := NoHit;
    ghost var k := -1;
    for i := 0 to |contactList|
      invariant k == MinAngleIndex(contactList[..i], velocity, eng)
      invariant -1 <= k < i
      invariant minAngle == if k < 0 then FloatMax else EscapeAngle(velocity, contactList[k], eng)
      invariant minHit == if k < 0 then NoHit else contactList[k]
    {
      assert contactList[..i + 1][..i] == contactList[..i];
      assert k >= 0 ==> contactList[..i][k] == contactList[k];
      var angle := EscapeAngle(velocity, contactList[i], eng);
      if angle < minAngle {
        minAngle := angle;
        minHit := contactList[i];
        k := i;
      }
    }
    assert contactList[..|contactList|] == contactList;
  }
}
