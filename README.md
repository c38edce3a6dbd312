# Module1 game core in Dafny

This project models the small sequential cores of the Module1 game:

- **Bounding-sphere seed** (`CollisionGeometry.h`). Each axis is scanned for its first minimum point and first maximum point. The three index pairs are compared by squared extent, using strict comparisons. The sphere is centred on the midpoint of the chosen pair and passes through both of its points.
- **Event queue** (`EventQueue.h`, `EventQueue.cpp`). It holds a table of 256 listener slots with permanent ids, filled first-fit, and a bounded queue of strings. A broadcast delivers every queued event to every occupied slot and then empties the queue.
- **Observer subject** (`Source.h`, `Source.cpp`) and the player that uses it (`PlayerLogic.cpp`). The subject is an array of up to 256 observers: add appends, remove deletes the first occurrence by shifting left, and notify calls each observer in order.
- **Per-frame ECS systems** (`Systems.h`) over the components of `Components.h`. They cover the player controller, movement integration, NPC waypoint cycling and the time-based animation rule.

Modules:

- `Wrappers`: Option.
- `Vec`: glm::vec3 as a triple of reals. The square root behind glm::length and glm::normalize is passed in as a function parameter. A lemma that needs it to be a true root says so at the one argument it uses (`SqrtAt`).
- `CollisionGeometry`.
- `Events`: the class `EventQueue`, with its two arrays and its counter.
- `Subject`: the class `Source`, with its observer array and count.
- `Player`: the class `PlayerLogic`.
- `Components`.
- `Systems`: each system is a method that rewrites an array of entity records in place. A per-entity step function specifies it.

Listener calls and `OnNotify` calls are not executable here. Each is recorded as an entry appended to a ghost trace (`delivered`, `notified`), and the methods' contracts state that trace.

The axis choice follows the code exactly. CollisionGeometry.h:56-62 keeps the X pair when the Y and Z extents tie above X, so the chosen extent is then not the largest. When X ties with Y or with Z for the largest extent, X is kept.

## Model

| member | source | states |
|---|---|---|
| CollisionGeometry.MinIndexIsFirstMin | Module1/CollisionGeometry.h:30-41 | after scanning points[..n], the min index is in range, its coordinate is <= every scanned point's, and every earlier index is strictly greater |
| CollisionGeometry.MaxIndexIsFirstMax | Module1/CollisionGeometry.h:30-41 | after scanning, the max index is in range, its coordinate is >= every scanned point's, and every earlier index is strictly smaller |
| CollisionGeometry.MinIndexCharacterized | Module1/CollisionGeometry.h:33-40 | an index is the first index of a smallest coordinate if and only if it is the scan's min index: the strict < keeps the earliest of equal points |
| CollisionGeometry.MaxIndexCharacterized | Module1/CollisionGeometry.h:33-40 | an index is the first index of a largest coordinate if and only if it is the scan's max index: the strict > keeps the earliest of equal points |
| CollisionGeometry.MinMaxValuesCorrect | Module1/CollisionGeometry.h:26-44 | the result has three pairs and all six indices lie in [0, numPoints) (in {0} when numPoints < 1); for numPoints >= 1, pair X/Y/Z holds the first minimum and first maximum on that axis |
| CollisionGeometry.MinMaxValuesSinglePoint | Module1/CollisionGeometry.h:28-30 | with one point (or none) every index of all three pairs is 0 |
| CollisionGeometry.FindMinMaxValues | Module1/CollisionGeometry.h:26-44 | the loop with six index variables returns exactly MinMaxValues, whose meaning MinMaxValuesCorrect states |
| CollisionGeometry.ChosenAxis | Module1/CollisionGeometry.h:56-62 | Y is chosen if and only if yExt > xExt and yExt > zExt; Z if and only if zExt > xExt and zExt > yExt; X if and only if neither holds |
| CollisionGeometry.ChosenAxisIsLargestUnlessTie | Module1/CollisionGeometry.h:58-62 | the chosen extent is >= all three extents if and only if it is not the case that Y and Z tie above X |
| CollisionGeometry.ChosenAxisTieExample | Module1/CollisionGeometry.h:58-62 | with extents (1, 4, 4) the X pair is kept, although its extent 1 is below the maximum 4 |
| CollisionGeometry.FindMostDistantPoints | Module1/CollisionGeometry.h:46-65 | the returned pair is one of the three input pairs, namely the one ChosenAxis selects from their squared extents |
| CollisionGeometry.MidpointIsHalfway | Module1/CollisionGeometry.h:76 | 0.5 * (p1 + p2) equals p1 + (p2 - p1) / 2 |
| CollisionGeometry.MidpointOffsetsOpposite | Module1/CollisionGeometry.h:76-77 | p1 - centre is the negation of p2 - centre |
| CollisionGeometry.MidpointOffsetDoubled | Module1/CollisionGeometry.h:76-77 | p2 - p1 is twice p2 - centre |
| CollisionGeometry.MidpointOffsetZero | Module1/CollisionGeometry.h:76-77 | p2 - centre is zero if and only if p1 == p2 |
| CollisionGeometry.SphereThroughProperties | Module1/CollisionGeometry.h:72-78 | with a true root: the centre is halfway from p1 to p2; the radius is >= 0; radius^2 = \|p2 - centre\|^2 = \|p1 - centre\|^2 = \|p2 - p1\|^2 / 4; the radius is 0 if and only if p1 == p2 |
| CollisionGeometry.SphereFromPointsProperties | Module1/CollisionGeometry.h:68-81 | for numPoints >= 1 the seed sphere passes through the first minimum and first maximum point of the chosen axis; its squared radius is a quarter of their squared distance; the radius is 0 exactly when the two coincide |
| CollisionGeometry.BuildSphereFromPoints | Module1/CollisionGeometry.h:68-81 | composing the scan, the selection and the sphere construction yields SphereFromPoints, whose properties SphereFromPointsProperties states |
| Events.FirstEmpty | Module1/EventQueue.cpp:15-19 | the result is at most the table length; every slot before it is occupied; if it is inside the table, that slot is empty |
| Events.RegisterUsesLowestEmptySlot | Module1/EventQueue.cpp:14-19 | when slot k is the lowest empty slot, registration puts the listener in slot k, keeps slot k's id, changes no other slot, and returns slot k's id |
| Events.RegisterWhenFull | Module1/EventQueue.cpp:20 | with every slot occupied, registration changes nothing and returns 255 |
| Events.FullIdIsAlsoValidId | Module1/EventQueue.cpp:20 | with slots 0..254 occupied, 255 is returned whether or not the listener was stored in slot 255 (whose id is 255), so the caller cannot tell success from failure |
| Events.RegistrationKeepsIds | Module1/EventQueue.cpp:17 | registering and deregistering leave the table length and every slot's id unchanged |
| Events.DeregisterFreesLowest | Module1/EventQueue.cpp:33-35 | after deregistering id, the lowest empty slot is the smaller of id and the previous lowest empty slot, so a later registration reuses it |
| Events.FirstEmptyIsUnique | Module1/EventQueue.cpp:15-19 | an empty slot m with every earlier slot occupied is the lowest empty slot |
| Events.OccupiedInSlotOrder | Module1/EventQueue.cpp:25-27 | the called listeners are those of the occupied slots, each exactly once, in strictly increasing slot order: the j-th is the listener of the j-th occupied slot, and every occupied slot appears |
| Events.FanoutInSlotOrder | Module1/EventQueue.cpp:25-28 | one event makes one call per occupied slot, in increasing slot order, each calling that slot's listener with the event; empty slots make no call |
| Events.FanoutStep | Module1/EventQueue.cpp:25-28 | scanning one more slot adds a delivery exactly when that slot is occupied |
| Events.DeliveriesStep | Module1/EventQueue.cpp:24-29 | delivering one more queued event appends its fan-out to the deliveries of the earlier events |
| Events.OccupiedMembers | Module1/EventQueue.cpp:26 | a listener is called if and only if some slot holds it |
| Events.DeliveriesLength | Module1/EventQueue.cpp:24-29 | a broadcast makes (queued events) * (occupied slots) deliveries |
| Events.DeliveryAt | Module1/EventQueue.cpp:24-29 | delivery number i * m + j is occupied listener j receiving queued event i, where m is the number of occupied slots: events in enqueue order, listeners in slot order within each event |
| Events.EventQueue.constructor | Module1/EventQueue.cpp:4-12 | slot i has id i and no listener; the queue is empty; nothing has been delivered |
| Events.EventQueue.RegisterListener | Module1/EventQueue.cpp:14-21 | the first-fit scan leaves the table as AfterRegister and returns RegisterId (see the lemmas above); the queue is untouched |
| Events.EventQueue.BroadcastAllEvents | Module1/EventQueue.cpp:23-31 | the trace grows by Deliveries of the pending events over the listener table; the count becomes 0; the table and the event buffer are unchanged |
| Events.EventQueue.DeliverToListeners | Module1/EventQueue.cpp:25-28 | the inner loop of the broadcast appends the fan-out of queued event i |
| Events.EventQueue.DeregisterListener | Module1/EventQueue.cpp:33-35 | exactly the listener half of slot id is cleared; nothing else changes |
| Events.EventQueue.EnqueueEvent | Module1/EventQueue.cpp:37-41 | below 255 the event is written at index count and count grows by one; at 255 nothing changes; the count stays <= 255 |
| Subject.IndexOf | Module1/Source.cpp:20-21 | the index of the first occurrence, or the length if the observer is absent (both directions) |
| Subject.RemoveFirstPresent | Module1/Source.cpp:19-27 | removing a present observer shortens the list by one and removes exactly one copy of it |
| Subject.RemoveFirstAbsent | Module1/Source.cpp:20-21 | removing an absent observer leaves the list unchanged |
| Subject.RemoveFirstKeepsOrder | Module1/Source.cpp:22-24 | entries before the first occurrence stay in place and later entries move left by one, keeping their order |
| Subject.AddTwiceRemoveOnce | Module1/Source.cpp:11-15 | with no duplicate check, an observer added twice is still present after one removal |
| Subject.BroadcastOrder | Module1/Source.cpp:4-8 | Notify produces one notification per observer, the k-th naming observer k with the same source and event |
| Subject.Source.constructor | Module1/Source.h:9-11 | an empty list: count 0, every slot null, nothing notified |
| Subject.Source.Notify | Module1/Source.cpp:4-8 | the trace grows by Broadcast of the current observers; the array and count are unchanged |
| Subject.Source.AddObserver | Module1/Source.cpp:11-15 | below 256 the observer is written at index count and count grows by one; at 256 nothing changes |
| Subject.Source.RemoveObserver | Module1/Source.cpp:19-30 | the list becomes RemoveFirst of the old list; if present, count drops by one, the vacated slot is null and the slots beyond are untouched; if absent, nothing changes |
| Subject.Source.CloseGap | Module1/Source.cpp:22-26 | the shift loop removes entry i, nulls the old last slot and decrements count |
| Player.PlayerLogic.constructor | Module1/PlayerLogic.cpp:10 | stores the entity; starts with no observers and nothing notified |
| Player.PlayerLogic.Jump | Module1/PlayerLogic.cpp:12-14 | every observer, in order, is told (entity, PlayerJumped); the observer list and count are unchanged |
| Player.PlayerLogic.Walk | Module1/PlayerLogic.cpp:16-18 | every observer, in order, is told (entity, PlayerWalked); the observer list and count are unchanged |
| Player.PlayerLogic.GetEntity | Module1/PlayerLogic.cpp:20-22 | returns the entity given to the constructor |
| Player.JumpReachesObserversInOrder | Module1/PlayerLogic.cpp:12-14 | a new player with two observers that jumps notifies the first observer and then the second, both with (entity, PlayerJumped) |
| Systems.MoveDirectionIsKeyWeighted | Module1/Systems.h:33-37 | the move direction is forward * (W - S) + right * (D - A), taking each key as 1 when pressed and 0 otherwise |
| Systems.RightIsPerpendicular | Module1/Systems.h:29-31 | right = cross(fwd, up) is (-fwd.z, 0, fwd.x), perpendicular to fwd and to up |
| Systems.DefaultControllerIsConsistent | Module1/Components.h:38-42 | the default right vector (1,0,0) is the one the default forward (0,0,-1) yields |
| Systems.ControlWalksIffMoving | Module1/Systems.h:29-49 | state becomes Walking if and only if the net direction is nonzero, and Idle if and only if it is zero; velocity becomes zero and the transform is untouched when idle, and velocity has length speed when walking; right is recomputed; position, scale and the other fields are untouched |
| Systems.ControlHeadsAlongDirection | Module1/Systems.h:41-43 | when walking, the velocity's component along the net direction is speed times that direction's length, so it points along it, and the rotation is lookAt(-normalize(direction)) |
| Systems.WalkingStep | Module1/Systems.h:41-43 | when walking, the velocity is normalize(direction) * speed and the rotation is lookAt(-normalize(direction)) |
| Systems.CancelledKeysGiveZero | Module1/Systems.h:33-37 | when W and S, and also A and D, are both held or both released, the direction is zero |
| Systems.OpposingKeysCancel | Module1/Systems.h:33-48 | when W and S, and also A and D, are both held or both released, the player idles with zero velocity |
| Systems.ControlEntity | Module1/Systems.h:29-49 | the per-entity body returns ControlStep, whose meaning ControlWalksIffMoving states |
| Systems.PlayerControllerSystem | Module1/Systems.h:19-51 | every record becomes ControlStep of its old value; records outside the view are untouched |
| Systems.MoveStepsAdd | Module1/Systems.h:59 | two steps of a and b equal one step of a + b; velocity and every component except the transform are unchanged |
| Systems.MoveStepReversible | Module1/Systems.h:59 | a step of 0 changes nothing; a step of -dt undoes a step of dt |
| Systems.MovementSystem | Module1/Systems.h:54-61 | every record becomes MoveStep of its old value: position += velocity * deltaTime |
| Systems.NpcWithoutWaypointsStops | Module1/Systems.h:72-75 | with no waypoints, only the velocity changes, and it becomes zero; the index is untouched |
| Systems.NpcAdvancesWhenNear | Module1/Systems.h:77-80 | within squared distance 0.1, the index advances cyclically (wrapping to 0 at the end) and the velocity becomes zero; position and waypoints are untouched |
| Systems.NpcHeadsForWaypoint | Module1/Systems.h:82-84 | otherwise the index is unchanged, the velocity has length speed, and its dot product with the way to the waypoint is speed times that distance, so it points at the waypoint |
| Systems.NormalizedAlong | Module1/Systems.h:83 | dot(normalize(a) * k, a) = k * \|a\| |
| Systems.NpcIndexStaysInRange | Module1/Systems.h:77-79 | an index below the waypoint count stays below it, and the view membership is unchanged |
| Systems.NPCControllerSystem | Module1/Systems.h:64-86 | every record becomes NpcStep of its old value, and every waypoint index stays in range |
| Systems.AnimateWalksAfterOneSecond | Module1/Systems.h:113-115 | the state becomes Walking when time > 1 and is kept otherwise; nothing else changes; applying the step twice equals applying it once |
| Systems.AnimateSystem | Module1/Systems.h:106-117 | every record becomes AnimateStep of its old value |
| Systems.DefaultNpcStaysPut | Module1/Components.h:24-32 | an NPC whose components all have their default values (no waypoints, zero velocity, origin) is a valid record, is left unchanged by the NPC step, and does not move |
| Systems.DefaultAnimeWalksAfterOneSecond | Module1/Components.h:18-22 | a default animation (Idle, Idle, 0) stays Idle up to time 1 and turns Walking after it, keeping its previous state and blend timer |
| Vec.LengthSqZero | Module1/Systems.h:39 | the squared length is 0 if and only if the vector is zero |
| Vec.LengthPositive | Module1/Systems.h:39 | with a true root, glm::length(v) > 0 if and only if v is nonzero |
| Vec.NormalizeScaledLength | Module1/Systems.h:41-42 | normalize(v) * k has squared length k^2 for nonzero v |

## Left out

- `Module1/Game.cpp` is not part of this model. It holds mesh loading, renderer and UI setup, ImGui, the camera orbit (Game.cpp:580-599) and ray picking, all of which are I/O and graphics. Game.cpp:139 and Game.cpp:177 call BuildSphereFromPoints with three arguments; CollisionGeometry.h:68 defines only the two-argument version, which is modelled.
- Game.cpp:260 calls `PlayerControllerSystem` with four arguments, and Game.cpp:263 calls `AnimateSystem` with four arguments. These calls do not match the two-argument definitions at Systems.h:19 and Systems.h:106, which are modelled.
- The collision functions and components named at Game.cpp:151 and Game.cpp:265-268 (the BVH, sphere-plane, AABB and AABB-plane systems, BuildAABBFromSphere, colliders and food) are not defined in Systems.h, CollisionGeometry.h or Components.h, and are not modelled.
- `RenderSystem` (Systems.h:89-104) is left out: it only builds matrices and calls the renderer.
- `CalorieTracker.cpp` is left out: it only accumulates floats and logs them.
- `Observer.h` and `Event.h` are not part of this model. Observers are opaque ids (`ObserverPtr`), and `OnNotify` calls are entries of the ghost trace `notified`.
- Floating point is modelled as `real`, without rounding, NaN or infinities. `0.1f` is taken as 0.1.
- `glm::length` and `glm::normalize` take their square root as a parameter `sqrt`. Properties that need a true root hold wherever it is one.
- `Vec.Normalize` returns the zero vector for a zero input, where glm gives NaN components. No caller in the source reaches that case. The player controller normalizes only after checking that the length is positive. The NPC system normalizes only when the squared distance is at least 0.1.
- The rotation `glm::quatLookAtRH(-moveDir, up)` (Systems.h:43) is a function parameter `lookAt`: quaternion maths is not modelled, only that the rotation is set from `-normalize(moveDir)`.
- Input is the set of pressed keys; time and deltaTime are parameters.
- The entt registry is an array of entity records with optional components. A view is the set of records holding all of its components, visited in array order.
- The bodies of `std::function` listeners are opaque handles. Re-entrant registration, enqueueing or observer changes from inside a callback are not modelled.
- `PlayerLogic` derives from `Source` in C++; here it holds a `Source` and calls it. `Notify` is reachable from outside the class, where C++ makes it protected.
- Subject.Source.Notify: requires that no null pointer sits among the first count observers, because the source dereferences each one. Adding a null observer is allowed, as in the source.
- Subject.Source.constructor: the source leaves `_observers` uninitialised; the model fills it with nulls.
- Events.EventQueue.EnqueueEvent: the event strings are copied into an array of 256 strings and only the first 255 positions are ever written, as in the source.
- Systems.AnimateSystem: the source writes `Walking` into the component even when it already is; the model states only the resulting value.
- Systems.NPCControllerSystem: requires every NPC's waypoint index to be below its waypoint count (or the list to be empty). The source indexes the vector without a check, so an index out of range there is undefined behaviour.
- CollisionGeometry.BuildSphereFromPoints: requires at least one point in the array, because the selection reads points[0] even when numPoints < 1.
- Events.DeliveryAt: the order of a broadcast is stated for each pair (event i, listener j), not as one quantified formula.
- Events.EventQueue.DeliverToListeners, Subject.Source.CloseGap and Systems.ControlEntity are the bodies of the source's inner loops, split out as methods of their own. They add no behaviour.
