/** The engine objects the tweens and setters write to. Each is a reference
    whose properties the helpers overwrite in place. */
module Scene {
  import opened Values

  /** A material; the fade tweens rewrite its colour. */
  class Material {
    var color: Color

    constructor (color: Color)
      ensures this.color == color
    {
      this.color := color;
    }
  }

  /** A renderer; its material is looked up once per tween and then written. */
  class Renderer {
    const material: Material

    constructor (material: Material)
      ensures this.material == material
    {
      this.material := material;
    }
  }

  /** A transform's world position, local rotation (as Euler angles) and
      local scale. */
  class Transform {
    var position: Vector3
    var localEulerAngles: Vector3
    var localScale: Vector3

    constructor (position: Vector3, localEulerAngles: Vector3, localScale: Vector3)
      ensures this.position == position
      ensures this.localEulerAngles == localEulerAngles
      ensures this.localScale == localScale
    {
      this.position := position;
      this.localEulerAngles := localEulerAngles;
      this.localScale := localScale;
    }
  }

  /** Moves the transform along x only. */
  method SetPositionX(t: Transform, newX: real)
    modifies t
    ensures t.position == Vector3(newX, old(t.position.y), old(t.position.z))
    ensures t.localEulerAngles == old(t.localEulerAngles) && t.localScale == old(t.localScale)
  {
    t.position := Vector3(newX, t.position.y, t.position.z);
  }

  /** Moves the transform along y only. */
  method SetPositionY(t: Transform, newY: real)
    modifies t
    ensures t.position == Vector3(old(t.position.x), newY, old(t.position.z))
    ensures t.localEulerAngles == old(t.localEulerAngles) && t.localScale == old(t.localScale)
  {
    t.position := Vector3(t.position.x, newY, t.position.z);
  }

  /** Moves the transform along z only. */
  method SetPositionZ(t: Transform, newZ: real)
    modifies t
    ensures t.position == Vector3(old(t.position.x), old(t.position.y), newZ)
    ensures t.localEulerAngles == old(t.localEulerAngles) && t.localScale == old(t.localScale)
  {
    t.position := Vector3(t.position.x, t.position.y, newZ);
  }
}
