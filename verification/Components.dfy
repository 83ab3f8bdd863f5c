/** The component types of the engine, by namespace. Floats are opaque 32-bit patterns. */
module Components {
  import opened Bytes

  type f32 = u32

  datatype Vec2 = Vec2(x: f32, y: f32)
  datatype Vec3 = Vec3(x: f32, y: f32, z: f32)
  datatype Quat = Quat(x: f32, y: f32, z: f32, w: f32)

  /** Components::Common, without Spawned, which is never sent. */
  datatype CommonComponent =
    | Child(name: text)
    | Evolve(name: text)
    | Health(currentHealth: u64, maxHealth: u64, shield: u64, maxShield: u64)
    | Id(id: u64)
    | Level(level: u64, currentWeapon: text, currentExp: u64, requiredExp: u64)
    | Parent(entity: u64)
    | Tag(tag: text)
    | Template(name: text, content: seq<Component>)
    | Timer(lastTime: u64, maxTime: f32)
    | Weapon(minDamage: u64, maxDamage: u64, chargeMaxTime: f32, fireRate: f32, weaponLevel: u64)

  /** Components::_2D */
  datatype PlanarComponent =
    | Transform(position: Vec2, rotation: f32, scale: Vec2)
    | Movable(velocity: Vec2, acceleration: Vec2)
    | Control(up: bool, down: bool, left: bool, right: bool, shoot: bool)
    | Collider(size: Vec2)
    | RigidBody(mass: f32, restitution: f32, friction: f32, gravityScale: f32,
                isGravityAffected: bool, isKinematic: bool)

  /** Components::_3D */
  datatype SpatialComponent =
    | Transform(position: Vec3, rotation: Quat, scale: Vec3)
    | Movable(velocity: Vec3, acceleration: Vec3, minSpeed: f32, maxSpeed: f32)
    | Control(moveUp: bool, moveDown: bool, moveLeft: bool, moveRight: bool, moveFront: bool, moveBack: bool,
              lookUp: bool, lookDown: bool, lookLeft: bool, lookRight: bool, shoot: bool)
    | BoxCollider(center: Vec3, size: Vec3)
    | SphereCollider(center: Vec3, radius: f32)
    | RigidBody(mass: f32, drag: f32, angularDrag: f32, useGravity: bool, isKinematic: bool)

  datatype Component =
    | Common(common: CommonComponent)
    | Planar(planar: PlanarComponent)
    | Spatial(spatial: SpatialComponent)
    | Spawned(hasSpawned: bool)

  /** Named as the protocol's ComponentId, which has no value for Spawned. */
  datatype Kind =
    | CHILD | EVOLVE | HEALTH | ID | LEVEL | PARENT | TAG | TEMPLATE | TIMER | WEAPON
    | TRANSFORM | MOVABLE | CONTROL | COLLIDER | RIGIDBODY
    | TRANSFORM_3D | MOVABLE_3D | CONTROL_3D | BOXCOLLIDER | SPHERECOLLIDER | RIGIDBODY_3D
    | SPAWNED

  function CommonKind(c: CommonComponent): Kind {
    match c
    case Child(_) => CHILD
    case Evolve(_) => EVOLVE
    case Health(_, _, _, _) => HEALTH
    case Id(_) => ID
    case Level(_, _, _, _) => LEVEL
    case Parent(_) => PARENT
    case Tag(_) => TAG
    case Template(_, _) => TEMPLATE
    case Timer(_, _) => TIMER
    case Weapon(_, _, _, _, _) => WEAPON
  }

  function PlanarKind(c: PlanarComponent): Kind {
    match c
    case Transform(_, _, _) => TRANSFORM
    case Movable(_, _) => MOVABLE
    case Control(_, _, _, _, _) => CONTROL
    case Collider(_) => COLLIDER
    case RigidBody(_, _, _, _, _, _) => RIGIDBODY
  }

  function SpatialKind(c: SpatialComponent): Kind {
    match c
    case Transform(_, _, _) => TRANSFORM_3D
    case Movable(_, _, _, _) => MOVABLE_3D
    case Control(_, _, _, _, _, _, _, _, _, _, _) => CONTROL_3D
    case BoxCollider(_, _) => BOXCOLLIDER
    case SphereCollider(_, _) => SPHERECOLLIDER
    case RigidBody(_, _, _, _, _) => RIGIDBODY_3D
  }

  function KindOf(c: Component): Kind {
    match c
    case Common(x) => CommonKind(x)
    case Planar(x) => PlanarKind(x)
    case Spatial(x) => SpatialKind(x)
    case Spawned(_) => SPAWNED
  }
}
