/**
  The ECS components the systems read and write (Module1/Components.h), with their
  default member values, and an entity as the set of components attached to it.
 */
module Components {
  import opened Wrappers
  import opened Vec

  datatype AnimState = Idle | Walking | Jumping

  datatype Anime = Anime(previousState: AnimState, currentState: AnimState, blendTimer: real)

  const DefaultAnime := Anime(Idle, Idle, 0.0)

  /** glm::quat as (w, x, y, z). */
  datatype Quat = Quat(w: real, x: real, y: real, z: real)

  datatype Transform = Transform(position: Vec3, rotation: Quat, scale: Vec3)

  const DefaultTransform := Transform(Zero, Quat(1.0, 0.0, 0.0, 0.0), Vec3(1.0, 1.0, 1.0))

  datatype LinearVelocity = LinearVelocity(velocity: Vec3)

  const DefaultLinearVelocity := LinearVelocity(Zero)

  datatype PlayerController = PlayerController(speed: real, fwd: Vec3, right: Vec3)

  const DefaultPlayerController := PlayerController(5.0, Vec3(0.0, 0.0, -1.0), Vec3(1.0, 0.0, 0.0))

  datatype NPCWaypoint = NPCWaypoint(waypoints: seq<Vec3>, currentWaypointIndex: nat, speed: real)

  const DefaultNPCWaypoint := NPCWaypoint([], 0, 1.0)

  /** One entity of the registry: each component present or absent. */
  datatype EntityRecord = EntityRecord(
    transform: Option<Transform>,
    velocity: Option<LinearVelocity>,
    controller: Option<PlayerController>,
    anime: Option<Anime>,
    npc: Option<NPCWaypoint>)
}
