/**
  The per-frame ECS systems (Module1/Systems.h).

  The registry is an array of entity records; a system's view is the set of entities
  carrying all of the view's components, and the system rewrites the components of
  each such entity in place. The step function beside each system states what the
  system does to one entity.

  Key state, the frame's delta time and clock, glm::length's square root and
  glm::quatLookAtRH are parameters.
 */
module Systems {
  import opened Wrappers
  import opened Vec
  import opened Components

  /** The four movement keys of eeng::InputManager::Key. */
  datatype Key = W | A | S | D

  /** glm::vec3(0, 1, 0) */
  const Up := Vec3(0.0, 1.0, 0.0)

  /** proximityThresholdSq, 0.1f */
  const ProximityThresholdSq := 0.1

  // ---------------------------------------------------------------------------
  // PlayerControllerSystem
  // ---------------------------------------------------------------------------

  predicate InControllerView(e: EntityRecord)
  {
    e.transform.Some? && e.velocity.Some? && e.controller.Some? && e.anime.Some?
  }

  /** The right vector the controller derives from its forward vector. */
  function RightOf(forward: Vec3): Vec3
  {
    Cross(forward, Up)
  }

  /** +1, -1 or 0: the net press along one axis of the keyboard. */
  function KeyAxis(pressed: set<Key>, plus: Key, minus: Key): real
  {
    (if plus in pressed then 1.0 else 0.0) - (if minus in pressed then 1.0 else 0.0)
  }

  /** The summed move direction: +forward for W, -forward for S, +right for D, -right for A. */
  function MoveDirection(pressed: set<Key>, forward: Vec3, right: Vec3): Vec3
  {
    var afterW := if W in pressed then Add(Zero, forward) else Zero;
    var afterS := if S in pressed then Sub(afterW, forward) else afterW;
    var afterD := if D in pressed then Add(afterS, right) else afterS;
    if A in pressed then Sub(afterD, right) else afterD
  }

  /** glm::length(moveDir) > 0: the player has somewhere to go. */
  predicate IsMoving(moveDir: Vec3, sqrt: real -> real)
  {
    Length(moveDir, sqrt) > 0.0
  }

  /** What PlayerControllerSystem does to one entity. */
  function ControlStep(e: EntityRecord, pressed: set<Key>, sqrt: real -> real, lookAt: Vec3 -> Quat): EntityRecord
  {
    if !InControllerView(e) then e
    else
      var controller := e.controller.value;
      var right := RightOf(controller.fwd);
      var moveDir := MoveDirection(pressed, controller.fwd, right);
      if IsMoving(moveDir, sqrt) then
        var dir := Normalize(moveDir, sqrt);
        e.(transform := Some(e.transform.value.(rotation := lookAt(Neg(dir)))),
           velocity := Some(LinearVelocity(Scale(dir, controller.speed))),
           controller := Some(controller.(right := right)),
           anime := Some(e.anime.value.(currentState := Walking)))
      else
        e.(velocity := Some(LinearVelocity(Zero)),
           controller := Some(controller.(right := right)),
           anime := Some(e.anime.value.(currentState := Idle)))
  }

  /** The net move direction is forward and right weighted by the net key presses. */
  lemma MoveDirectionIsKeyWeighted(pressed: set<Key>, forward: Vec3, right: Vec3)
    ensures MoveDirection(pressed, forward, right)
         == Add(Scale(forward, KeyAxis(pressed, W, S)), Scale(right, KeyAxis(pressed, D, A)))
  {
    var f := KeyAxis(pressed, W, S);
    var r := KeyAxis(pressed, D, A);
    assert Scale(forward, f) == if f == 1.0 then forward else if f == -1.0 then Neg(forward) else Zero;
    assert Scale(right, r) == if r == 1.0 then right else if r == -1.0 then Neg(right) else Zero;
  }

  /** The stored right vector is horizontal and perpendicular to forward and to up. */
  lemma RightIsPerpendicular(forward: Vec3)
    ensures RightOf(forward) == Vec3(-forward.z, 0.0, forward.x)
    ensures Dot(RightOf(forward), forward) == 0.0
    ensures Dot(RightOf(forward), Up) == 0.0
  {
  }

  /** The default controller's right vector is the one its forward vector yields. */
  lemma DefaultControllerIsConsistent()
    ensures RightOf(DefaultPlayerController.fwd) == DefaultPlayerController.right
  {
    RightIsPerpendicular(DefaultPlayerController.fwd);
  }

  /**
    With a true square root, the player walks exactly when the net move direction is
    nonzero, at speed `speed`; otherwise it idles with zero velocity. Position, scale,
    forward vector, speed and the other animation fields are untouched.
   */
  lemma ControlWalksIffMoving(e: EntityRecord, pressed: set<Key>, sqrt: real -> real, lookAt: Vec3 -> Quat)
    requires InControllerView(e)
    requires SqrtAt(sqrt, LengthSq(MoveDirection(pressed, e.controller.value.fwd, RightOf(e.controller.value.fwd))))
    ensures var r := ControlStep(e, pressed, sqrt, lookAt);
      var moveDir := MoveDirection(pressed, e.controller.value.fwd, RightOf(e.controller.value.fwd));
      && InControllerView(r)
      && (r.anime.value.currentState == Walking <==> moveDir != Zero)
      && (r.anime.value.currentState == Idle <==> moveDir == Zero)
      && (moveDir == Zero ==> r.velocity.value.velocity == Zero)
      && (moveDir == Zero ==> r.transform == e.transform)
      && (moveDir != Zero ==> LengthSq(r.velocity.value.velocity) == Square(e.controller.value.speed))
      && r.controller.value == e.controller.value.(right := RightOf(e.controller.value.fwd))
      && r.transform.value.position == e.transform.value.position
      && r.transform.value.scale == e.transform.value.scale
      && r.anime.value.previousState == e.anime.value.previousState
      && r.anime.value.blendTimer == e.anime.value.blendTimer
      && r.npc == e.npc
  {
    var moveDir := MoveDirection(pressed, e.controller.value.fwd, RightOf(e.controller.value.fwd));
    LengthPositive(moveDir, sqrt);
    if moveDir != Zero {
      NormalizeScaledLength(moveDir, e.controller.value.speed, sqrt);
    }
  }

  /**
    A walking player's velocity points along the net move direction (its component
    along it is speed times its length), and the player is turned to face it.
   */
  lemma ControlHeadsAlongDirection(e: EntityRecord, pressed: set<Key>, sqrt: real -> real, lookAt: Vec3 -> Quat)
    requires InControllerView(e)
    requires SqrtAt(sqrt, LengthSq(MoveDirection(pressed, e.controller.value.fwd, RightOf(e.controller.value.fwd))))
    requires MoveDirection(pressed, e.controller.value.fwd, RightOf(e.controller.value.fwd)) != Zero
    ensures var r := ControlStep(e, pressed, sqrt, lookAt);
      var moveDir := MoveDirection(pressed, e.controller.value.fwd, RightOf(e.controller.value.fwd));
      && Dot(r.velocity.value.velocity, moveDir) == e.controller.value.speed * Length(moveDir, sqrt)
      && r.transform.value.rotation == lookAt(Neg(Normalize(moveDir, sqrt)))
  {
    var moveDir := MoveDirection(pressed, e.controller.value.fwd, RightOf(e.controller.value.fwd));
    var r := ControlStep(e, pressed, sqrt, lookAt);
    WalkingStep(e, pressed, sqrt, lookAt);
    VelocityAlong(r.velocity.value.velocity, moveDir, e.controller.value.speed, sqrt);
  }

  /** A velocity of normalize(d) * k has component k * |d| along d. */
  lemma VelocityAlong(v: Vec3, d: Vec3, k: real, sqrt: real -> real)
    requires SqrtAt(sqrt, LengthSq(d)) && d != Zero
    requires v == Scale(Normalize(d, sqrt), k)
    ensures Dot(v, d) == k * Length(d, sqrt)
  {
    NormalizedAlong(d, k, sqrt);
  }

  /** A walking step sets velocity to normalize(moveDir) * speed and faces -normalize(moveDir). */
  lemma WalkingStep(e: EntityRecord, pressed: set<Key>, sqrt: real -> real, lookAt: Vec3 -> Quat)
    requires InControllerView(e)
    requires SqrtAt(sqrt, LengthSq(MoveDirection(pressed, e.controller.value.fwd, RightOf(e.controller.value.fwd))))
    requires MoveDirection(pressed, e.controller.value.fwd, RightOf(e.controller.value.fwd)) != Zero
    ensures var r := ControlStep(e, pressed, sqrt, lookAt);
      var dir := Normalize(MoveDirection(pressed, e.controller.value.fwd, RightOf(e.controller.value.fwd)), sqrt);
      && r.velocity.value.velocity == Scale(dir, e.controller.value.speed)
      && r.transform.value.rotation == lookAt(Neg(dir))
  {
    var moveDir := MoveDirection(pressed, e.controller.value.fwd, RightOf(e.controller.value.fwd));
    LengthPositive(moveDir, sqrt);
  }

  /** With opposite keys pressed alike, the move direction sums to zero. */
  lemma CancelledKeysGiveZero(pressed: set<Key>, forward: Vec3, right: Vec3)
    requires W in pressed <==> S in pressed
    requires A in pressed <==> D in pressed
    ensures MoveDirection(pressed, forward, right) == Zero
  {
    var afterS := if W in pressed then Sub(Add(Zero, forward), forward) else Zero;
    assert afterS == Zero;
    var afterA := if D in pressed then Sub(Add(afterS, right), right) else afterS;
    assert afterA == Zero;
  }

  /**
    Opposite keys cancel: when W and S are both held or both released, and likewise A
    and D, the player idles with zero velocity.
   */
  lemma OpposingKeysCancel(e: EntityRecord, pressed: set<Key>, sqrt: real -> real, lookAt: Vec3 -> Quat)
    requires InControllerView(e)
    requires W in pressed <==> S in pressed
    requires A in pressed <==> D in pressed
    requires SqrtAt(sqrt, 0.0)
    ensures var r := ControlStep(e, pressed, sqrt, lookAt);
      r.anime.value.currentState == Idle && r.velocity.value.velocity == Zero
  {
    var forward := e.controller.value.fwd;
    var moveDir := MoveDirection(pressed, forward, RightOf(forward));
    assert !IsMoving(moveDir, sqrt) by {
      CancelledKeysGiveZero(pressed, forward, RightOf(forward));
      assert LengthSq(Zero) == 0.0;
      LengthPositive(Zero, sqrt);
    }
  }

  /** Applies ControlStep to every entity, rewriting the view's components in place. */
  method PlayerControllerSystem(registry: array<EntityRecord>, pressed: set<Key>, sqrt: real -> real, lookAt: Vec3 -> Quat)
    modifies registry
    ensures forall k :: 0 <= k < registry.Length ==> registry[k] == ControlStep(old(registry[k]), pressed, sqrt, lookAt)
  {
    for i := 0 to registry.Length
      invariant forall k :: 0 <= k < i ==> registry[k] == ControlStep(old(registry[k]), pressed, sqrt, lookAt)
      invariant forall k :: i <= k < registry.Length ==> registry[k] == old(registry[k])
    {
      var e := registry[i];
      if InControllerView(e) {
        var r := ControlEntity(e, pressed, sqrt, lookAt);
        registry[i] := r;
      }
    }
  }

  /** The body of PlayerControllerSystem's loop for one entity of its view. */
  method ControlEntity(e: EntityRecord, pressed: set<Key>, sqrt: real -> real, lookAt: Vec3 -> Quat)
    returns (r: EntityRecord)
    requires InControllerView(e)
    ensures r == ControlStep(e, pressed, sqrt, lookAt)
  {
    var tfm, velocity, controller, anim := e.transform.value, e.velocity.value, e.controller.value, e.anime.value;
    var forward := controller.fwd;
    var right := Cross(forward, Up);
    controller := controller.(right := right);

    var moveDir := Zero;
    if W in pressed { moveDir := Add(moveDir, forward); }
    if S in pressed { moveDir := Sub(moveDir, forward); }
    if D in pressed { moveDir := Add(moveDir, right); }
    if A in pressed { moveDir := Sub(moveDir, right); }

    if Length(moveDir, sqrt) > 0.0 {
      moveDir := Normalize(moveDir, sqrt);
      velocity := velocity.(velocity := Scale(moveDir, controller.speed));
      tfm := tfm.(rotation := lookAt(Neg(moveDir)));
      anim := anim.(currentState := Walking);
    } else {
      velocity := velocity.(velocity := Zero);
      anim := anim.(currentState := Idle);
    }
    r := e.(transform := Some(tfm), velocity := Some(velocity), controller := Some(controller), anime := Some(anim));
  }

  // ---------------------------------------------------------------------------
  // MovementSystem
  // ---------------------------------------------------------------------------

  predicate InMovementView(e: EntityRecord)
  {
    e.transform.Some? && e.velocity.Some?
  }

  /** What MovementSystem does to one entity: position += velocity * deltaTime. */
  function MoveStep(e: EntityRecord, deltaTime: real): EntityRecord
  {
    if !InMovementView(e) then e
    else
      var t := e.transform.value;
      e.(transform := Some(t.(position := Add(t.position, Scale(e.velocity.value.velocity, deltaTime)))))
  }

  /** Two steps of a and b move as far as one step of a + b; velocity and all else stay. */
  lemma MoveStepsAdd(e: EntityRecord, a: real, b: real)
    ensures MoveStep(MoveStep(e, a), b) == MoveStep(e, a + b)
    ensures MoveStep(e, a).velocity == e.velocity
    ensures MoveStep(e, a).(transform := e.transform) == e
  {
    if InMovementView(e) {
      var p := e.transform.value.position;
      var v := e.velocity.value.velocity;
      assert Add(Add(p, Scale(v, a)), Scale(v, b)) == Add(p, Scale(v, a + b)) by {
        assert v.x * a + v.x * b == v.x * (a + b);
        assert v.y * a + v.y * b == v.y * (a + b);
        assert v.z * a + v.z * b == v.z * (a + b);
      }
    }
  }

  /** A step of zero time changes nothing, so a step of dt is undone by a step of -dt. */
  lemma MoveStepReversible(e: EntityRecord, deltaTime: real)
    ensures MoveStep(e, 0.0) == e
    ensures MoveStep(MoveStep(e, deltaTime), -deltaTime) == e
  {
    if InMovementView(e) {
      var t := e.transform.value;
      assert Add(t.position, Scale(e.velocity.value.velocity, 0.0)) == t.position;
      assert e.(transform := Some(t)) == e;
    }
    MoveStepsAdd(e, deltaTime, -deltaTime);
  }

  /** Applies MoveStep to every entity in place. */
  method MovementSystem(registry: array<EntityRecord>, deltaTime: real)
    modifies registry
    ensures forall k :: 0 <= k < registry.Length ==> registry[k] == MoveStep(old(registry[k]), deltaTime)
  {
    for i := 0 to registry.Length
      invariant forall k :: 0 <= k < i ==> registry[k] == MoveStep(old(registry[k]), deltaTime)
      invariant forall k :: i <= k < registry.Length ==> registry[k] == old(registry[k])
    {
      var e := registry[i];
      if InMovementView(e) {
        var transform, velocity := e.transform.value, e.velocity.value;
        transform := transform.(position := Add(transform.position, Scale(velocity.velocity, deltaTime)));
        registry[i] := e.(transform := Some(transform));
      }
    }
  }

  // ---------------------------------------------------------------------------
  // NPCControllerSystem
  // ---------------------------------------------------------------------------

  predicate InNpcView(e: EntityRecord)
  {
    e.transform.Some? && e.npc.Some? && e.velocity.Some?
  }

  /**
    The NPC's current waypoint exists whenever it has waypoints: the system indexes the
    list without a check.
   */
  predicate WaypointIndexValid(e: EntityRecord)
  {
    InNpcView(e) && |e.npc.value.waypoints| > 0 ==> e.npc.value.currentWaypointIndex < |e.npc.value.waypoints|
  }

  /** The vector from the NPC to its current waypoint. */
  function ToWaypoint(e: EntityRecord): Vec3
    requires InNpcView(e) && WaypointIndexValid(e) && |e.npc.value.waypoints| > 0
  {
    Sub(e.npc.value.waypoints[e.npc.value.currentWaypointIndex], e.transform.value.position)
  }

  /** What NPCControllerSystem does to one entity. */
  function NpcStep(e: EntityRecord, sqrt: real -> real): EntityRecord
    requires WaypointIndexValid(e)
  {
    if !InNpcView(e) then e
    else
      var npc := e.npc.value;
      if |npc.waypoints| == 0 then
        e.(velocity := Some(LinearVelocity(Zero)))
      else
        var dir := ToWaypoint(e);
        if LengthSq(dir) < ProximityThresholdSq then
          e.(npc := Some(npc.(currentWaypointIndex := (npc.currentWaypointIndex + 1) % |npc.waypoints|)),
             velocity := Some(LinearVelocity(Zero)))
        else
          e.(velocity := Some(LinearVelocity(Scale(Normalize(dir, sqrt), npc.speed))))
  }

  /** An NPC without waypoints stops and keeps its index. */
  lemma NpcWithoutWaypointsStops(e: EntityRecord, sqrt: real -> real)
    requires InNpcView(e) && |e.npc.value.waypoints| == 0
    ensures NpcStep(e, sqrt) == e.(velocity := Some(LinearVelocity(Zero)))
    ensures NpcStep(e, sqrt).npc == e.npc
  {
  }

  /** Within the proximity threshold the NPC stops and targets the next waypoint, cyclically. */
  lemma NpcAdvancesWhenNear(e: EntityRecord, sqrt: real -> real)
    requires InNpcView(e) && WaypointIndexValid(e) && |e.npc.value.waypoints| > 0
    requires LengthSq(ToWaypoint(e)) < ProximityThresholdSq
    ensures var r := NpcStep(e, sqrt);
      var n := |e.npc.value.waypoints|;
      var i := e.npc.value.currentWaypointIndex;
      && r.velocity == Some(LinearVelocity(Zero))
      && r.npc.value.currentWaypointIndex == (if i + 1 == n then 0 else i + 1)
      && r.npc.value.waypoints == e.npc.value.waypoints
      && r.transform == e.transform
  {
    NextIndex(e.npc.value.currentWaypointIndex, |e.npc.value.waypoints|);
  }

  /**
    Farther away, the NPC keeps its target and heads for it at speed `speed`: its
    velocity has squared length speed * speed, and its dot product with the vector to
    the waypoint is speed times the distance, so for positive speed it points there.
   */
  lemma NpcHeadsForWaypoint(e: EntityRecord, sqrt: real -> real)
    requires InNpcView(e) && WaypointIndexValid(e) && |e.npc.value.waypoints| > 0
    requires !(LengthSq(ToWaypoint(e)) < ProximityThresholdSq)
    requires SqrtAt(sqrt, LengthSq(ToWaypoint(e)))
    ensures var r := NpcStep(e, sqrt);
      && r.npc == e.npc
      && r.transform == e.transform
      && LengthSq(r.velocity.value.velocity) == Square(e.npc.value.speed)
      && Dot(r.velocity.value.velocity, ToWaypoint(e)) == e.npc.value.speed * Length(ToWaypoint(e), sqrt)
  {
    var dir := ToWaypoint(e);
    var speed := e.npc.value.speed;
    LengthSqZero(dir);
    NormalizeScaledLength(dir, speed, sqrt);
    NormalizedAlong(dir, speed, sqrt);
  }

  /** Scaling the normalized vector of `a` by `k` has component k * |a| along `a`. */
  lemma NormalizedAlong(a: Vec3, k: real, sqrt: real -> real)
    requires SqrtAt(sqrt, LengthSq(a)) && a != Zero
    ensures Dot(Scale(Normalize(a, sqrt), k), a) == k * Length(a, sqrt)
  {
    LengthPositive(a, sqrt);
    var l := Length(a, sqrt);
    var c := (1.0 / l) * k;
    assert Normalize(a, sqrt) == Scale(a, 1.0 / l);
    ScaleScale(a, 1.0 / l, k);
    DotScale(a, c);
    InverseCancels(l, k);
  }

  lemma InverseCancels(l: real, k: real)
    requires l != 0.0
    ensures ((1.0 / l) * k) * Square(l) == k * l
  {
    assert (1.0 / l) * l == 1.0;
  }

  /** Advancing a cyclic index: the successor, or 0 past the end. */
  lemma NextIndex(i: nat, n: nat)
    requires i < n
    ensures (i + 1) % n == if i + 1 == n then 0 else i + 1
  {
  }

  lemma DotScale(a: Vec3, c: real)
    ensures Dot(Scale(a, c), a) == c * LengthSq(a)
  {
  }

  /** NPCControllerSystem keeps every waypoint index in range: waypoints are visited cyclically. */
  lemma NpcIndexStaysInRange(e: EntityRecord, sqrt: real -> real)
    requires WaypointIndexValid(e)
    ensures WaypointIndexValid(NpcStep(e, sqrt))
    ensures InNpcView(NpcStep(e, sqrt)) == InNpcView(e)
  {
  }

  /** Applies NpcStep to every entity in place. */
  method NPCControllerSystem(registry: array<EntityRecord>, sqrt: real -> real)
    requires forall k :: 0 <= k < registry.Length ==> WaypointIndexValid(registry[k])
    modifies registry
    ensures forall k :: 0 <= k < registry.Length ==> WaypointIndexValid(old(registry[k]))
    ensures forall k :: 0 <= k < registry.Length ==> registry[k] == NpcStep(old(registry[k]), sqrt)
    ensures forall k :: 0 <= k < registry.Length ==> WaypointIndexValid(registry[k])
  {
    for i := 0 to registry.Length
      invariant forall k :: 0 <= k < i ==> WaypointIndexValid(old(registry[k]))
      invariant forall k :: 0 <= k < i ==> registry[k] == NpcStep(old(registry[k]), sqrt)
      invariant forall k :: 0 <= k < i ==> WaypointIndexValid(registry[k])
      invariant forall k :: i <= k < registry.Length ==> registry[k] == old(registry[k])
    {
      var e := registry[i];
      NpcIndexStaysInRange(e, sqrt);
      if InNpcView(e) {
        var tfm, npc, vel := e.transform.value, e.npc.value, e.velocity.value;
        if |npc.waypoints| == 0 {
          vel := vel.(velocity := Zero);
        } else {
          var dir := Sub(npc.waypoints[npc.currentWaypointIndex], tfm.position);
          if LengthSq(dir) < ProximityThresholdSq {
            npc := npc.(currentWaypointIndex := (npc.currentWaypointIndex + 1) % |npc.waypoints|);
            vel := vel.(velocity := Zero);
          } else {
            vel := vel.(velocity := Scale(Normalize(dir, sqrt), npc.speed));
          }
        }
        registry[i] := e.(npc := Some(npc), velocity := Some(vel));
      }
    }
  }

  // ---------------------------------------------------------------------------
  // AnimateSystem
  // ---------------------------------------------------------------------------

  predicate InAnimateView(e: EntityRecord)
  {
    e.transform.Some? && e.anime.Some?
  }

  /** What AnimateSystem does to one entity. */
  function AnimateStep(e: EntityRecord, time: real): EntityRecord
  {
    if InAnimateView(e) && time > 1.0 then e.(anime := Some(e.anime.value.(currentState := Walking)))
    else e
  }

  /**
    The animation state becomes Walking only after time 1.0, and is otherwise left as it
    was; nothing but the current state ever changes, and a second run changes nothing.
   */
  lemma AnimateWalksAfterOneSecond(e: EntityRecord, time: real)
    requires InAnimateView(e)
    ensures AnimateStep(e, time).anime.value.currentState == if time > 1.0 then Walking else e.anime.value.currentState
    ensures AnimateStep(e, time).anime.value.(currentState := e.anime.value.currentState) == e.anime.value
    ensures AnimateStep(e, time).(anime := e.anime) == e
    ensures AnimateStep(AnimateStep(e, time), time) == AnimateStep(e, time)
  {
  }

  /** Applies AnimateStep to every entity in place. */
  method AnimateSystem(registry: array<EntityRecord>, time: real)
    modifies registry
    ensures forall k :: 0 <= k < registry.Length ==> registry[k] == AnimateStep(old(registry[k]), time)
  {
    for i := 0 to registry.Length
      invariant forall k :: 0 <= k < i ==> registry[k] == AnimateStep(old(registry[k]), time)
      invariant forall k :: i <= k < registry.Length ==> registry[k] == old(registry[k])
    {
      var e := registry[i];
      if InAnimateView(e) {
        var animeComp := e.anime.value;
        if time > 1.0 {
          animeComp := animeComp.(currentState := Walking);
        }
        registry[i] := e.(anime := Some(animeComp));
      }
    }
  }

  // ---------------------------------------------------------------------------
  // Entities built from default components
  // ---------------------------------------------------------------------------

  /** An NPC entity with every component at its default value: no waypoints. */
  const DefaultNpc := EntityRecord(Some(DefaultTransform), Some(DefaultLinearVelocity),
                                   None, None, Some(DefaultNPCWaypoint))

  /** A default NPC has no waypoints: it stays at rest, and so stays where it is. */
  lemma DefaultNpcStaysPut(sqrt: real -> real, deltaTime: real)
    ensures WaypointIndexValid(DefaultNpc)
    ensures NpcStep(DefaultNpc, sqrt) == DefaultNpc
    ensures MoveStep(NpcStep(DefaultNpc, sqrt), deltaTime) == DefaultNpc
  {
  }

  /** A default animation starts Idle and turns Walking only once time passes 1. */
  lemma DefaultAnimeWalksAfterOneSecond(time: real)
    ensures var e := EntityRecord(Some(DefaultTransform), None, None, Some(DefaultAnime), None);
      AnimateStep(e, time).anime == Some(Anime(Idle, if time > 1.0 then Walking else Idle, 0.0))
  {
  }
}
