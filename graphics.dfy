/**
  The graphics device as the renderer sees it: an object that hands out
  handles and records every command it is given, in order. Nothing of
  WebGL's own semantics (memory, rasterisation, error flags) is modelled;
  what the renderer and its textures do is visible as the command log.
*/
module Graphics {
  import opened Wrappers

  /** A device object (shader stage, program, buffer or texture). */
  type Handle = nat

  datatype Stage = VertexStage | FragmentStage

  datatype ObjectKind = ShaderObject(stage: Stage) | ProgramObject | BufferObject | TextureObject

  /** The device constants that the texture tables name. */
  datatype GlEnum = ClampToEdge | MirroredRepeat | Repeat | Nearest | Linear

  datatype TexParam = TextureWrapS | TextureWrapT | TextureMinFilter | TextureMagFilter

  datatype DrawMode = Triangles

  /**
    An image-like source: `isImage` says whether it is an image element
    (anything else, a canvas or a video, counts as always usable), the rest
    is its decoded state.
  */
  datatype ImageInfo = ImageInfo(isImage: bool, complete: bool, width: nat, height: nat)

  /** A uniform's value: a number, an array of numbers, or an image-like object. */
  datatype Value = Scalar(x: real) | Numbers(xs: seq<real>) | Source(image: ImageInfo)

  /** The location of an active uniform of a linked program. */
  datatype Location = Location(program: Handle, name: string)

  /** The location of a vertex attribute, as the device reports it. */
  datatype AttribLocation = AttribLocation(program: Option<Handle>, name: string)

  /** Pixels handed to a 2D texture upload. */
  datatype PixelSource = Pixels(width: nat, height: nat, rgba: seq<nat>) | Element(image: ImageInfo)

  /**
    One device command. `None` stands for an argument the source passes as
    `undefined` or `null` (a stage that failed to compile, a program that
    failed to link, a location the program does not have).
  */
  datatype Cmd =
    | Create(kind: ObjectKind, handle: Handle)
    | ShaderSource(shader: Handle)
    | CompileShader(shader: Handle)
    | DeleteShader(stage: Option<Handle>)
    | AttachShader(program: Handle, attached: Option<Handle>)
    | LinkProgram(program: Handle)
    | DeleteProgram(deleted: Option<Handle>)
    | BindBuffer(buffer: Handle)
    | BufferData(data: seq<int>)
    | DeleteBuffer(released: Handle)
    | BindTexture(texture: Handle)
    | PixelStoreFlipY
    | TexImage2D(source: PixelSource)
    | GenerateMipmap
    | TexParameter(param: TexParam, setting: GlEnum)
    | DeleteTexture(deletedTexture: Handle)
    | ActiveTexture(unit: nat)
    | Viewport(x: int, y: int, width: int, height: int)
    | ClearColorBuffer
    | UseProgram(used: Option<Handle>)
    | EnableVertexAttribArray(attrib: AttribLocation)
    | VertexAttribPointer(attribute: AttribLocation, size: nat)
    | Uniform(fn: string, location: Option<Location>, value: Value)
    | UniformMatrix(matrixFn: string, matrixLocation: Option<Location>, transpose: bool, matrix: Value)
    | DrawArrays(mode: DrawMode, first: nat, count: nat)

  /** Appending to a log regroups freely. */
  lemma AppendAssociates(a: seq<Cmd>, b: seq<Cmd>, c: seq<Cmd>)
    ensures a + b + c == a + (b + c)
  {
  }

  lemma AppendAssociates4(a: seq<Cmd>, b: seq<Cmd>, c: seq<Cmd>, d: seq<Cmd>)
    ensures a + b + c + d == a + (b + c + d)
  {
  }

  class Device {
    /** Every command issued so far, oldest first. */
    var log: seq<Cmd>
    /** The handle the next created object receives. */
    var nextHandle: Handle

    constructor ()
      ensures log == [] && nextHandle == 0
    {
      log := [];
      nextHandle := 0;
    }

    /** Creates a device object of the given kind. */
    method Allocate(kind: ObjectKind) returns (h: Handle)
      modifies this
      ensures h == old(nextHandle) && nextHandle == h + 1
      ensures log == old(log) + [Create(kind, h)]
    {
      h := nextHandle;
      nextHandle := nextHandle + 1;
      log := log + [Create(kind, h)];
    }

    /** Issues one command that creates nothing. */
    method Issue(c: Cmd)
      modifies this
      ensures nextHandle == old(nextHandle)
      ensures log == old(log) + [c]
    {
      log := log + [c];
    }
  }
}
