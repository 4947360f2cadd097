/**
 * The engine's small value types as the exporters see them: vectors, UVs, quaternions,
 * rotators and colours with float components held as IEEE-754 bit patterns, together with
 * the sign flips that convert them to the interchange format's handedness and their byte
 * layouts (each component written in declaration order).
 */
module MeshData {
  import opened Bytes

  datatype FVector = FVector(X: Float32, Y: Float32, Z: Float32)
  datatype FMeshUVFloat = FMeshUVFloat(U: Float32, V: Float32)
  datatype FQuat = FQuat(X: Float32, Y: Float32, Z: Float32, W: Float32)
  datatype FRotator = FRotator(Pitch: Float32, Yaw: Float32, Roll: Float32)
  /** FColor's memory order is B, G, R, A. */
  datatype FColor = FColor(B: byte, G: byte, R: byte, A: byte)

  /** CMeshVertex: a plain record. */
  datatype CMeshVertex = CMeshVertex(Position: FVector, Normal: FVector, Tangent: FVector, UV: FMeshUVFloat)

  /** `v.Y = -v.Y` on a copy. */
  function FlipY(v: FVector): (r: FVector)
    ensures r.X == v.X && r.Z == v.Z && r.Y != v.Y
    ensures r.Y == Negate(v.Y)
  {
    v.(Y := Negate(v.Y))
  }

  lemma FlipYInvolutive(v: FVector)
    ensures FlipY(FlipY(v)) == v
  {
    NegateInvolutive(v.Y);
  }

  /** `uv.V = -uv.V` on a copy. */
  function FlipV(uv: FMeshUVFloat): (r: FMeshUVFloat)
    ensures r.U == uv.U && r.V != uv.V
    ensures r.V == Negate(uv.V)
  {
    uv.(V := Negate(uv.V))
  }

  /** The bone orientation as BONES writes it: Y and W negated. */
  function FlipYW(q: FQuat): (r: FQuat)
    ensures r.X == q.X && r.Z == q.Z && r.Y != q.Y && r.W != q.W
    ensures r.Y == Negate(q.Y) && r.W == Negate(q.W)
  {
    q.(Y := Negate(q.Y), W := Negate(q.W))
  }

  /** The socket rotation as SOCKETS writes it: yaw negated. */
  function FlipYaw(r0: FRotator): (r: FRotator)
    ensures r.Pitch == r0.Pitch && r.Roll == r0.Roll && r.Yaw != r0.Yaw
    ensures r.Yaw == Negate(r0.Yaw)
  {
    r0.(Yaw := Negate(r0.Yaw))
  }

  function VectorBytes(v: FVector): (r: seq<byte>)
    ensures |r| == 12
  {
    FloatBytes(v.X) + FloatBytes(v.Y) + FloatBytes(v.Z)
  }

  function UVBytes(uv: FMeshUVFloat): (r: seq<byte>)
    ensures |r| == 8
  {
    FloatBytes(uv.U) + FloatBytes(uv.V)
  }

  function QuatBytes(q: FQuat): (r: seq<byte>)
    ensures |r| == 16
  {
    FloatBytes(q.X) + FloatBytes(q.Y) + FloatBytes(q.Z) + FloatBytes(q.W)
  }

  function RotatorBytes(r0: FRotator): (r: seq<byte>)
    ensures |r| == 12
  {
    FloatBytes(r0.Pitch) + FloatBytes(r0.Yaw) + FloatBytes(r0.Roll)
  }

  /** FColor.Serialize is not part of this model; its four bytes are taken as R, G, B, A. */
  function ColorBytes(c: FColor): (r: seq<byte>)
    ensures |r| == 4
  {
    [c.R, c.G, c.B, c.A]
  }
}
