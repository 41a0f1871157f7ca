/** Values shared by the whole model of the project parser: optional values,
    opaque floating-point scalars, the OpenGL enumerants the parser names and
    texture handles. */
module Common {

  datatype Option<T> = None | Some(value: T)

  /** A 32-bit float, kept as its bit pattern. The parser only stores, copies
      and compares floats, so nothing here interprets the bits. */
  datatype Scalar = Scalar(bits: nat)

  const Zero: Scalar := Scalar(0)
  const One: Scalar := Scalar(0x3F80_0000)

  datatype Vec3 = Vec3(x: Scalar, y: Scalar, z: Scalar)
  datatype Color = Color(r: Scalar, g: Scalar, b: Scalar, a: Scalar)

  const Vec3Zero: Vec3 := Vec3(Zero, Zero, Zero)
  const Vec3One: Vec3 := Vec3(One, One, One)
  const ColorZero: Color := Color(Zero, Zero, Zero, Zero)

  type GLenum = nat

  // Enumerant values as the OpenGL headers define them.
  const GL_ZERO: GLenum := 0
  const GL_ONE: GLenum := 1
  const GL_TRIANGLES: GLenum := 0x0004
  const GL_LESS: GLenum := 0x0201
  const GL_ALWAYS: GLenum := 0x0207
  const GL_FRONT: GLenum := 0x0404
  const GL_BACK: GLenum := 0x0405
  const GL_CW: GLenum := 0x0900
  const GL_CCW: GLenum := 0x0901
  const GL_RGBA: GLenum := 0x1908
  const GL_LINE: GLenum := 0x1B01
  const GL_FILL: GLenum := 0x1B02
  const GL_KEEP: GLenum := 0x1E00
  const GL_CONSTANT_COLOR: GLenum := 0x8001
  const GL_FUNC_ADD: GLenum := 0x8006

  /** A texture handle as the render engine hands it out: 0, the engine's own
      output texture (`RenderEngine::GetTexture()`), or a texture that the
      object registry created. */
  datatype Handle = NoTexture | WindowTexture | ObjectTexture(id: nat)

  /** Size of the `RenderTextures` buffer of a shader pass. The constant lives
      in a header that is not part of this model; no proof depends on its
      value beyond it being positive. */
  const MaxRenderTextures: nat := 16

  /** Concatenation regroups freely. */
  lemma AppendAssoc<T>(a: seq<T>, b: seq<T>, c: seq<T>)
    ensures a + (b + c) == (a + b) + c
  {
  }

  /** A prefix one longer is the shorter prefix and the next element. */
  lemma TakeNext<T>(s: seq<T>, i: nat)
    requires i < |s|
    ensures s[..i + 1] == s[..i] + [s[i]]
  {
  }
}
