/**
  index.js, `update`: what one frame issues. The table entries carry the
  metadata resolved at construction; each frame walks the program's active
  uniforms in the order the device reports them, gives each image uniform
  the next texture unit and pushes every other value with its dispatch name.
*/
module FrameSpec {
  import opened Wrappers
  import opened Graphics
  import opened Uniforms
  import opened Textures

  /**
    A table entry after construction: the declared descriptor plus the
    resolved location, dispatch name, matrix flag and, for an image value,
    the texture that owns its upload (`_location`, `_type`, `_isMatrix`,
    `_isImage`/`_value`).
  */
  datatype Entry = Entry(decl: Descriptor, location: Option<Location>, kind: string, isMatrix: bool,
                         texture: Option<Texture>)
  {
    predicate IsImage() {
      texture.Some?
    }

    function WithValue(v: Value): Entry {
      this.(decl := decl.(value := v))
    }
  }

  /** Every listed name has an entry (the frame loop dereferences it unguarded). */
  predicate Covers(table: map<string, Entry>, names: seq<string>)
  {
    forall n :: n in names ==> n in table
  }

  /** What one active uniform issues when `unit` is the next free texture unit. */
  function PushBlock(u: Entry, unit: nat): seq<Cmd>
  {
    match u.texture
    case Some(t) => [Uniform("uniform1i", u.location, Scalar(unit as real)), ActiveTexture(unit), BindTexture(t.texture)]
    case None =>
      if u.isMatrix then [UniformMatrix(u.kind, u.location, false, u.decl.value)]
      else [Uniform(u.kind, u.location, u.decl.value)]
  }

  /** How many of the named entries are image uniforms. */
  function ImagesIn(table: map<string, Entry>, names: seq<string>): nat
    requires Covers(table, names)
    decreases |names|
  {
    if names == [] then 0
    else ImagesIn(table, names[..|names| - 1]) + if table[names[|names| - 1]].IsImage() then 1 else 0
  }

  /** The pushes for the named uniforms, with texture units counted from 0. */
  function PushAll(table: map<string, Entry>, names: seq<string>): seq<Cmd>
    requires Covers(table, names)
    decreases |names|
  {
    if names == [] then []
    else
      var init := names[..|names| - 1];
      PushAll(table, init) + PushBlock(table[names[|names| - 1]], ImagesIn(table, init))
  }

  /** The pushes for a prefix of the active uniforms are a prefix of the frame's pushes. */
  lemma {:induction false} PushAllPrefix(table: map<string, Entry>, names: seq<string>, i: nat)
    requires Covers(table, names) && i <= |names|
    ensures PushAll(table, names[..i]) <= PushAll(table, names)
    decreases |names|
  {
    if i < |names| {
      var init := names[..|names| - 1];
      assert names[..i] == init[..i];
      PushAllPrefix(table, init, i);
    } else {
      assert names[..i] == names;
    }
  }

  /**
    The i-th active uniform's commands follow those of the uniforms before
    it, using as its texture unit the number of image uniforms before it.
    For an image uniform that means: sampler set to the unit, the unit made
    active, then the texture bound.
  */
  lemma BlockAt(table: map<string, Entry>, names: seq<string>, i: nat)
    requires Covers(table, names) && i < |names|
    ensures PushAll(table, names[..i]) + PushBlock(table[names[i]], ImagesIn(table, names[..i]))
            <= PushAll(table, names)
  {
    PushAllPrefix(table, names, i + 1);
    assert names[..i + 1][..i] == names[..i];
  }

  lemma {:induction false} ImagesMonotone(table: map<string, Entry>, names: seq<string>, i: nat, j: nat)
    requires Covers(table, names) && i <= j <= |names|
    ensures ImagesIn(table, names[..i]) <= ImagesIn(table, names[..j])
    decreases j
  {
    if i < j {
      assert names[..j][..j - 1] == names[..j - 1];
      ImagesMonotone(table, names, i, j - 1);
    }
  }

  /**
    Texture units: an image uniform takes the unit after those of the image
    uniforms before it, a later image uniform a strictly larger one, and all
    units stay below the number of active image uniforms; any other uniform
    takes none.
  */
  lemma UnitAllocation(table: map<string, Entry>, names: seq<string>, i: nat, j: nat)
    requires Covers(table, names) && i < j <= |names|
    ensures ImagesIn(table, names[..i + 1]) ==
              ImagesIn(table, names[..i]) + if table[names[i]].IsImage() then 1 else 0
    ensures table[names[i]].IsImage() ==> ImagesIn(table, names[..i]) < ImagesIn(table, names[..j])
    ensures table[names[i]].IsImage() ==> ImagesIn(table, names[..i]) < ImagesIn(table, names)
  {
    assert names[..i + 1][..i] == names[..i];
    ImagesMonotone(table, names, i + 1, j);
    ImagesMonotone(table, names, j, |names|);
    assert names[..|names|] == names;
  }

  /** The pushes draw nothing, create and delete nothing, and never transpose a matrix. */
  lemma {:induction false} PushShape(table: map<string, Entry>, names: seq<string>)
    requires Covers(table, names)
    ensures forall c :: c in PushAll(table, names) ==>
              && (c.Uniform? || c.UniformMatrix? || c.ActiveTexture? || c.BindTexture?)
              && (c.UniformMatrix? ==> !c.transpose)
    decreases |names|
  {
    if names != [] {
      PushShape(table, names[..|names| - 1]);
    }
  }

  /** The vertex data: one over-sized triangle, (-1,-1), (-1,4), (4,-1). */
  const TRIANGLE: seq<int> := [-1, -1, -1, 4, 4, -1]

  /** Which side of the edge a->b the point p lies on (twice the signed area). */
  function Edge(x0: real, y0: real, x1: real, y1: real, px: real, py: real): real
  {
    (x1 - x0) * (py - y0) - (y1 - y0) * (px - x0)
  }

  /** The point lies inside the triangle given as six coordinates (or on its border). */
  predicate InsideTriangle(v: seq<int>, px: real, py: real)
    requires |v| == 6
  {
    var e0 := Edge(v[0] as real, v[1] as real, v[2] as real, v[3] as real, px, py);
    var e1 := Edge(v[2] as real, v[3] as real, v[4] as real, v[5] as real, px, py);
    var e2 := Edge(v[4] as real, v[5] as real, v[0] as real, v[1] as real, px, py);
    (e0 >= 0.0 && e1 >= 0.0 && e2 >= 0.0) || (e0 <= 0.0 && e1 <= 0.0 && e2 <= 0.0)
  }

  /** The single triangle covers the whole clip-space square. */
  lemma TriangleCoversViewport(px: real, py: real)
    requires -1.0 <= px <= 1.0 && -1.0 <= py <= 1.0
    ensures InsideTriangle(TRIANGLE, px, py)
  {
  }

  /** What a frame issues before any uniform: viewport, clear, program and vertex buffer. */
  function FramePrelude(program: Option<Handle>, position: AttribLocation, buffer: Handle,
                        width: int, height: int): seq<Cmd>
  {
    [Viewport(0, 0, width, height), ClearColorBuffer, UseProgram(program),
     EnableVertexAttribArray(position), BindBuffer(buffer), VertexAttribPointer(position, 2)]
  }

  /** The commands of one frame. */
  function FrameCommands(program: Option<Handle>, position: AttribLocation, buffer: Handle,
                         width: int, height: int, table: map<string, Entry>, active: seq<string>): seq<Cmd>
    requires Covers(table, active)
  {
    FramePrelude(program, position, buffer, width, height)
    + PushAll(table, active)
    + [DrawArrays(Triangles, 0, 3)]
  }

  /**
    A frame sets the viewport to the backing size first, ends with the one
    draw call of three vertices as triangles, and draws nowhere else.
  */
  lemma FrameShape(program: Option<Handle>, position: AttribLocation, buffer: Handle,
                   width: int, height: int, table: map<string, Entry>, active: seq<string>)
    requires Covers(table, active)
    ensures var cmds := FrameCommands(program, position, buffer, width, height, table, active);
      && cmds[0] == Viewport(0, 0, width, height)
      && cmds[|cmds| - 1] == DrawArrays(Triangles, 0, 3)
      && forall i :: 0 <= i < |cmds| - 1 ==> !cmds[i].DrawArrays?
  {
    PushShape(table, active);
    var cmds := FrameCommands(program, position, buffer, width, height, table, active);
    var pushes := PushAll(table, active);
    assert cmds == FramePrelude(program, position, buffer, width, height) + pushes + [DrawArrays(Triangles, 0, 3)];
    forall i | 6 <= i < |cmds| - 1
      ensures !cmds[i].DrawArrays?
    {
      assert cmds[i] == pushes[i - 6] && pushes[i - 6] in pushes;
    }
  }

  /**
    The table after the frame's start: `time` holds the elapsed seconds,
    then the tick hook's writes replace values; nothing but values changes.
  */
  function Ticked(table: map<string, Entry>, seconds: real, writes: map<string, Value>): (r: map<string, Entry>)
    requires "time" in table && writes.Keys <= table.Keys
    ensures r.Keys == table.Keys
    ensures forall k :: k in r ==>
      r[k] == table[k].WithValue(if k in writes then writes[k]
                                 else if k == "time" then Scalar(seconds)
                                 else table[k].decl.value)
  {
    var timed := table["time" := table["time"].WithValue(Scalar(seconds))];
    map k | k in timed :: if k in writes then timed[k].WithValue(writes[k]) else timed[k]
  }
}
