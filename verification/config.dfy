/** The tuning constants at the top of js/server.js, with the two derived squares it precomputes. */
module Config {
  import opened Vectors

  const OuterRadius: real := 200.0
  /** Radius of the obstacle in the middle of the arena. */
  const InnerRadius: real := 100.0
  /** Upper bound on the distance from a plane's centre to any point of the plane. */
  const SideLength: real := 15.0
  const RadiusBufferSquared: real := (InnerRadius + SideLength) * (InnerRadius + SideLength)
  const RadiusSquared: real := InnerRadius * InnerRadius
  /** Number of entries in a plane's trail. */
  const TrailLength: nat := 100
  const NormalSpeed: real := 0.5
  const FastSpeed: real := 3.0
  /** Side length of the cubes the arena is partitioned into for collision detection. */
  const CellDim: real := 50.0
  const InitialGas: int := 300
  /** Distance from the faces of the arena cube at which a plane is teleported. */
  const Buffer: real := 20.0
  const Epsilon: real := 1.0
  /** Length of a round, in countdown ticks. */
  const InitialSeconds: nat := 30
  const GasReplenish: int := 2
  const GasDeplete: int := -3
  /** Number of characters kept from an accepted display name. */
  const NameLimit: nat := 16
  const DefaultName: string := "guest"

  const Center: Vec3 := Vec3(OuterRadius, OuterRadius, OuterRadius)
}
