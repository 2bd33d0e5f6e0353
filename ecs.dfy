// The parts of the external entity store that the game's systems talk to.
// The store itself is not part of this model: a system's calls to
// `creator.destroy`, `creator.create…` and `fsm.changeState` are recorded, in
// call order, as requests.

module Ecs {
  import opened Vectors

  type EntityId = nat

  /** An entity a request is about: one that existed when the update began, or the one made by
      the `index`-th create request of the same update. */
  datatype EntityRef = Entity(id: EntityId) | Created(index: nat)

  /** The named states of an asteroid's state machine (Asteroid.State). */
  datatype AsteroidState = Alive | Destroyed

  /** The named states of a spaceship's state machine (Spaceship.State; the source spells the second `destoyed`). */
  datatype SpaceshipState = Playing | Destoyed

  /** One call a system makes into the entity store or an entity's state machine. */
  datatype Request =
    | Destroy(entity: EntityId)
    | CreateAsteroid(radius: real, at: Vector)
    | CreateSpaceship
    | CreateWaitForClick
    | CreateBullet(gun: EntityId)
    | ChangeAsteroidState(asteroid: EntityRef, asteroidState: AsteroidState)
    | ChangeSpaceshipState(spaceship: EntityId, spaceshipState: SpaceshipState)
}
