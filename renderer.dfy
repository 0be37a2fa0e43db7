/**
  index.js, the `Shader` class: construction (stages, program, uniform
  table, vertex buffer), `resize`, `start`/`stop`, the per-frame `update`
  and a working teardown. The host's window size, the timestamps the
  scheduler passes and the tick hook are inputs.
*/
module Renderer {
  import opened Wrappers
  import opened Graphics
  import opened Scheduling
  import opened Uniforms
  import opened Textures
  import opened Programs
  import opened FrameSpec
  import opened Teardown

  /** The metadata construction attaches to the entry `name`: `_type`, `_isMatrix`, `_location`. */
  predicate Resolved(u: Entry, name: string, program: Option<Handle>, active: seq<string>)
  {
    && u.decl.semanticType in SemanticTypes
    && u.kind == GetUniformType(u.decl.semanticType).value
    && u.isMatrix == IsMatrixKind(u.kind)
    && u.location == LocationOf(program, active, name)
  }

  /**
    A resolved entry is flagged as a matrix exactly when its declared type
    is mat2, mat3 or mat4, and has a location exactly when the program
    linked and reports it as active.
  */
  lemma ResolvedMeaning(u: Entry, name: string, program: Option<Handle>, active: seq<string>)
    requires Resolved(u, name, program, active)
    ensures u.isMatrix <==> u.decl.semanticType in MatrixTypes
    ensures u.location.Some? <==> program.Some? && name in active
  {
    MatrixFlag(u.decl.semanticType);
  }

  /** The texture made for an image descriptor draws on this device with the descriptor's options. */
  predicate MadeFor(t: Texture, d: Descriptor, device: Device)
  {
    && t.device == device
    && t.flipY == d.flipY
    && t.wrapS == GetProp(WRAP, d.wrapS)
    && t.wrapT == GetProp(WRAP, d.wrapT)
    && t.filter == GetProp(FILTER, d.filter)
  }

  /** Whether the table has a descriptor for `k` whose value is an image. */
  predicate HoldsImage(entries: map<string, Descriptor>, k: string)
  {
    k in entries && IsImageValue(entries[k].value)
  }

  /** How many of the listed keys have a descriptor holding an image. */
  function ImageCount(entries: map<string, Descriptor>, keys: seq<string>): nat
    decreases |keys|
  {
    if keys == [] then 0
    else ImageCount(entries, keys[..|keys| - 1]) + if HoldsImage(entries, keys[|keys| - 1]) then 1 else 0
  }

  /** What construction issues for one descriptor: a texture with handle `texture` for an image, nothing otherwise. */
  function EntrySetup(texture: Handle, d: Descriptor): seq<Cmd>
  {
    if IsImageValue(d.value)
    then CreationCommands(texture, d.value.image, d.flipY,
                          GetProp(WRAP, d.wrapS), GetProp(WRAP, d.wrapT), GetProp(FILTER, d.filter))
    else []
  }

  /**
    The textures construction creates, one per image descriptor in key
    order, with handles counted from `first`.
  */
  function TextureSetup(first: Handle, entries: map<string, Descriptor>, keys: seq<string>): seq<Cmd>
    decreases |keys|
  {
    if keys == [] then []
    else
      var init := keys[..|keys| - 1];
      var k := keys[|keys| - 1];
      TextureSetup(first, entries, init) + if k in entries then EntrySetup(first + ImageCount(entries, init), entries[k]) else []
  }

  /** A texture's creation creates that one texture and deletes none. */
  lemma CreationCreatesOne(texture: Handle, image: ImageInfo, flipY: Option<bool>,
                           wrapS: Option<GlEnum>, wrapT: Option<GlEnum>, filter: Option<GlEnum>)
    ensures forall c :: c in CreationCommands(texture, image, flipY, wrapS, wrapT, filter) ==>
              (c.Create? ==> c == Create(TextureObject, texture)) && !c.DeleteTexture?
  {
    UploadContents(texture, image, flipY, wrapS, wrapT, filter);
    var upload := UploadCommands(texture, image, flipY, wrapS, wrapT, filter);
    assert CreationCommands(texture, image, flipY, wrapS, wrapT, filter)
           == [Create(TextureObject, texture)] + if ReadyAtCreation(image) then upload else PlaceholderCommands(texture);
  }

  /** Every creation in `cmds` is of a texture with a handle in [lo, hi), and nothing deletes a texture. */
  ghost predicate CreatesTexturesIn(cmds: seq<Cmd>, lo: int, hi: int)
  {
    forall c :: c in cmds ==> (c.Create? ==> c.kind == TextureObject && lo <= c.handle < hi) && !c.DeleteTexture?
  }

  lemma CreatesTexturesAppend(a: seq<Cmd>, b: seq<Cmd>, lo: int, mid: int, hi: int)
    requires lo <= mid <= hi
    requires CreatesTexturesIn(a, lo, mid) && CreatesTexturesIn(b, lo, hi)
    ensures CreatesTexturesIn(a + b, lo, hi)
  {
    forall c | c in a + b
      ensures (c.Create? ==> c.kind == TextureObject && lo <= c.handle < hi) && !c.DeleteTexture?
    {
      if c in a {
      } else {
        assert c in b;
      }
    }
  }

  /**
    Construction creates textures only, with the handles from `first` on,
    one per image descriptor, and deletes none.
  */
  lemma {:induction false} TextureSetupCreates(first: Handle, entries: map<string, Descriptor>, keys: seq<string>)
    ensures CreatesTexturesIn(TextureSetup(first, entries, keys), first, first + ImageCount(entries, keys))
    decreases |keys|
  {
    if keys != [] {
      var init := keys[..|keys| - 1];
      var k := keys[|keys| - 1];
      var h := first + ImageCount(entries, init);
      TextureSetupCreates(first, entries, init);
      var step: seq<Cmd> := [];
      if k in entries {
        var d := entries[k];
        if IsImageValue(d.value) {
          CreationCreatesOne(h, d.value.image, d.flipY,
                             GetProp(WRAP, d.wrapS), GetProp(WRAP, d.wrapT), GetProp(FILTER, d.filter));
        }
        step := EntrySetup(h, d);
      }
      assert TextureSetup(first, entries, keys) == TextureSetup(first, entries, init) + step;
      assert CreatesTexturesIn(step, first, first + ImageCount(entries, keys));
      CreatesTexturesAppend(TextureSetup(first, entries, init), step, first, h, first + ImageCount(entries, keys));
    }
  }

  /** One entry's setup creates the texture with handle `h` once when its value is an image, and no other texture. */
  lemma EntrySetupCreates(h: Handle, d: Descriptor, g: Handle)
    ensures Occurrences(EntrySetup(h, d), Create(TextureObject, g)) == if IsImageValue(d.value) && g == h then 1 else 0
  {
    if IsImageValue(d.value) {
      var image, s, t, f := d.value.image, GetProp(WRAP, d.wrapS), GetProp(WRAP, d.wrapT), GetProp(FILTER, d.filter);
      var rest := if ReadyAtCreation(image) then UploadCommands(h, image, d.flipY, s, t, f) else PlaceholderCommands(h);
      UploadContents(h, image, d.flipY, s, t, f);
      assert Create(TextureObject, h) !in rest;
      assert EntrySetup(h, d) == [] + [Create(TextureObject, h)] + rest;
      if g == h {
        OccursOnce([], Create(TextureObject, h), rest);
      } else {
        Absent(EntrySetup(h, d), Create(TextureObject, g));
      }
    } else {
      assert EntrySetup(h, d) == [];
    }
  }

  /**
    Construction creates each handle from `first` up to `first` plus the
    number of image descriptors exactly once.
  */
  lemma {:induction false} TextureSetupCreatesOnce(first: Handle, entries: map<string, Descriptor>, keys: seq<string>)
    ensures forall g :: first <= g < first + ImageCount(entries, keys) ==>
              Occurrences(TextureSetup(first, entries, keys), Create(TextureObject, g)) == 1
    decreases |keys|
  {
    if keys != [] {
      var init := keys[..|keys| - 1];
      var k := keys[|keys| - 1];
      var h := first + ImageCount(entries, init);
      var done := TextureSetup(first, entries, init);
      var step := if k in entries then EntrySetup(h, entries[k]) else [];
      TextureSetupCreatesOnce(first, entries, init);
      TextureSetupCreates(first, entries, init);
      assert TextureSetup(first, entries, keys) == done + step;
      forall g | first <= g < first + ImageCount(entries, keys)
        ensures Occurrences(TextureSetup(first, entries, keys), Create(TextureObject, g)) == 1
      {
        OccurrencesAppend(done, step, Create(TextureObject, g));
        if k in entries {
          EntrySetupCreates(h, entries[k], g);
        } else {
          assert step == [];
        }
        if g == h {
          assert Create(TextureObject, g) !in done;
          Absent(done, Create(TextureObject, g));
        }
      }
    }
  }

  /** One table entry with the metadata construction resolves for it. */
  function ResolvedEntry(d: Descriptor, name: string, program: Option<Handle>, active: seq<string>,
                         texture: Option<Texture>): (u: Entry)
    requires d.semanticType in SemanticTypes
    ensures Resolved(u, name, program, active) && u.decl == d && u.texture == texture
    ensures u.isMatrix <==> d.semanticType in MatrixTypes
    ensures u.location.Some? <==> program.Some? && name in active
    ensures u.location.Some? ==> u.location.value.name == name
  {
    MatrixFlag(d.semanticType);
    var kind := GetUniformType(d.semanticType).value;
    Entry(d, LocationOf(program, active, name), kind, IndexOf(kind, "Matrix") > -1, texture)
  }

  /** What construction knows of the entry it built from descriptor `d`. */
  predicate BuiltFrom(u: Entry, name: string, d: Descriptor, program: Option<Handle>, active: seq<string>, device: Device)
  {
    && u.decl == d
    && Resolved(u, name, program, active)
    && (u.texture.Some? <==> IsImageValue(d.value))
    && (u.texture.Some? ==> MadeFor(u.texture.value, d, device))
  }

  /**
    The table construction builds from the caller's descriptors: one entry
    per key of the merged table, each built from that key's descriptor.
  */
  ghost predicate TableBuilt(entries: map<string, Entry>, caller: Table, program: Option<Handle>, active: seq<string>,
                       device: Device)
    requires WellFormed(caller)
  {
    var table := InitialTable(caller);
    && (forall k :: k in entries <==> k in table.entries)
    && forall k {:trigger BuiltFrom(entries[k], k, table.entries[k], program, active, device)} :: k in entries ==> BuiltFrom(entries[k], k, table.entries[k], program, active, device)
  }

  /**
    One more key in the construction loop: after the entry for `keys[i]` is
    built from handle `h` on, the log and the next handle are those of the
    keys up to and including it.
  */
  lemma SetupStep(first: Handle, entries: map<string, Descriptor>, keys: seq<string>, i: nat,
                  log0: seq<Cmd>, before: seq<Cmd>, after: seq<Cmd>, h: Handle, d: Descriptor)
    requires i < |keys| && keys[i] in entries
    requires before == log0 + TextureSetup(first, entries, keys[..i])
    requires h == first + ImageCount(entries, keys[..i])
    requires d == entries[keys[i]]
    requires after == before + EntrySetup(h, d)
    ensures after == log0 + TextureSetup(first, entries, keys[..i + 1])
    ensures h + (if IsImageValue(d.value) then 1 else 0) == first + ImageCount(entries, keys[..i + 1])
  {
    SetupSnoc(first, entries, keys, i);
    AppendAssociates(log0, TextureSetup(first, entries, keys[..i]), EntrySetup(h, d));
  }

  /** The setup of the keys up to and including `keys[i]` unfolds once. */
  lemma SetupSnoc(first: Handle, entries: map<string, Descriptor>, keys: seq<string>, i: nat)
    requires i < |keys| && keys[i] in entries
    ensures TextureSetup(first, entries, keys[..i + 1])
            == TextureSetup(first, entries, keys[..i]) + EntrySetup(first + ImageCount(entries, keys[..i]), entries[keys[i]])
    ensures ImageCount(entries, keys[..i + 1])
            == ImageCount(entries, keys[..i]) + if IsImageValue(entries[keys[i]].value) then 1 else 0
  {
    var upto := keys[..i + 1];
    assert upto[..|upto| - 1] == keys[..i];
    assert upto[|upto| - 1] == keys[i];
  }

  /** Each built entry carries its key's descriptor from the merged table. */
  lemma BuiltDecl(entries: map<string, Entry>, caller: Table, program: Option<Handle>, active: seq<string>,
                  device: Device, k: string)
    requires WellFormed(caller) && TableBuilt(entries, caller, program, active, device) && k in entries
    ensures k in InitialTable(caller).entries && entries[k].decl == InitialTable(caller).entries[k]
  {
    assert BuiltFrom(entries[k], k, InitialTable(caller).entries[k], program, active, device);
  }

  /** Every texture in the table is bound to `device`. */
  predicate TexturesOn(entries: map<string, Entry>, device: Device)
  {
    forall k :: k in entries && entries[k].texture.Some? ==> entries[k].texture.value.device == device
  }

  /** Every texture construction creates is bound to the shader's device. */
  lemma BuiltOnDevice(entries: map<string, Entry>, caller: Table, program: Option<Handle>, active: seq<string>,
                      device: Device)
    requires WellFormed(caller) && TableBuilt(entries, caller, program, active, device)
    ensures TexturesOn(entries, device)
  {
    forall k | k in entries && entries[k].texture.Some?
      ensures entries[k].texture.value.device == device
    {
      assert BuiltFrom(entries[k], k, InitialTable(caller).entries[k], program, active, device);
    }
  }

  /** After `n` turns of the `forEach`: one entry per key so far, each built from its descriptor. */
  ghost predicate BuiltUpTo(uniforms: map<string, Entry>, table: Table, n: nat, program: Option<Handle>,
                            active: seq<string>, device: Device)
    requires n <= |table.keys|
  {
    && (forall k :: k in uniforms <==> k in table.keys[..n])
    && forall k :: k in uniforms ==> k in table.entries && BuiltFrom(uniforms[k], k, table.entries[k], program, active, device)
  }

  /** One more turn of the `forEach`: the entry for `keys[i]` joins those before it. */
  lemma BuiltStep(uniforms: map<string, Entry>, table: Table, i: nat, program: Option<Handle>, active: seq<string>,
                  device: Device, u: Entry)
    requires WellFormed(table) && i < |table.keys| && BuiltUpTo(uniforms, table, i, program, active, device)
    requires BuiltFrom(u, table.keys[i], table.entries[table.keys[i]], program, active, device)
    ensures BuiltUpTo(uniforms[table.keys[i] := u], table, i + 1, program, active, device)
  {
    var next := uniforms[table.keys[i] := u];
    assert table.keys[..i + 1] == table.keys[..i] + [table.keys[i]];
    forall k
      ensures k in next <==> k in table.keys[..i + 1]
    {
    }
    forall k | k in next
      ensures k in table.entries
    {
      assert k in table.keys[..i + 1];
    }
    forall k | k in next
      ensures BuiltFrom(next[k], k, table.entries[k], program, active, device)
    {
      if k != table.keys[i] {
        assert k in uniforms && next[k] == uniforms[k];
      }
    }
  }

  /** Whether the entry for `k` owns a texture. */
  predicate HasTexture(uniforms: map<string, Entry>, k: string)
  {
    k in uniforms && uniforms[k].texture.Some?
  }

  /**
    Among the first `n` keys, each entry with a texture owns the handle
    construction counted for it: `first` plus the number of image
    descriptors before it.
  */
  ghost predicate HandlesUpTo(uniforms: map<string, Entry>, table: Table, n: nat, first: Handle)
    requires n <= |table.keys|
  {
    forall j :: 0 <= j < n && HasTexture(uniforms, table.keys[j]) ==>
      uniforms[table.keys[j]].texture.value.texture == first + ImageCount(table.entries, table.keys[..j])
  }

  /** One more turn of the `forEach`: the new entry's texture has the next handle. */
  lemma HandlesStep(uniforms: map<string, Entry>, table: Table, i: nat, first: Handle, u: Entry)
    requires WellFormed(table) && i < |table.keys| && HandlesUpTo(uniforms, table, i, first)
    requires u.texture.Some? ==> u.texture.value.texture == first + ImageCount(table.entries, table.keys[..i])
    ensures HandlesUpTo(uniforms[table.keys[i] := u], table, i + 1, first)
  {
    var next := uniforms[table.keys[i] := u];
    forall j | 0 <= j < i + 1 && HasTexture(next, table.keys[j])
      ensures next[table.keys[j]].texture.value.texture == first + ImageCount(table.entries, table.keys[..j])
    {
      if j < i {
        assert table.keys[j] != table.keys[i];
        assert HasTexture(uniforms, table.keys[j]);
      }
    }
  }

  /** An image descriptor at index `j` makes every longer prefix count more images than the keys before `j`. */
  lemma {:induction false} ImageCountGrows(entries: map<string, Descriptor>, keys: seq<string>, j: nat, m: nat)
    requires j < m <= |keys| && HoldsImage(entries, keys[j])
    ensures ImageCount(entries, keys[..j]) < ImageCount(entries, keys[..m])
    decreases m
  {
    var upto := keys[..m];
    assert upto[..m - 1] == keys[..m - 1];
    assert upto[m - 1] == keys[m - 1];
    if m > j + 1 {
      ImageCountGrows(entries, keys, j, m - 1);
    }
  }

  /** The textures construction hands out have handles that grow in key order, so no two are the same. */
  lemma HandlesIncrease(uniforms: map<string, Entry>, table: Table, first: Handle, program: Option<Handle>,
                        active: seq<string>, device: Device)
    requires WellFormed(table) && BuiltUpTo(uniforms, table, |table.keys|, program, active, device)
    requires HandlesUpTo(uniforms, table, |table.keys|, first)
    ensures forall j1, j2 ::
              0 <= j1 < j2 < |table.keys| && HasTexture(uniforms, table.keys[j1]) && HasTexture(uniforms, table.keys[j2])
              ==> uniforms[table.keys[j1]].texture.value.texture < uniforms[table.keys[j2]].texture.value.texture
  {
    forall j1, j2 | 0 <= j1 < j2 < |table.keys| && HasTexture(uniforms, table.keys[j1])
                    && HasTexture(uniforms, table.keys[j2])
      ensures uniforms[table.keys[j1]].texture.value.texture < uniforms[table.keys[j2]].texture.value.texture
    {
      assert BuiltFrom(uniforms[table.keys[j1]], table.keys[j1], table.entries[table.keys[j1]], program, active, device);
      ImageCountGrows(table.entries, table.keys, j1, j2);
    }
  }

  /** The textures construction hands out have handles in [first, first + number of image descriptors). */
  lemma HandlesInRange(uniforms: map<string, Entry>, table: Table, first: Handle, program: Option<Handle>,
                       active: seq<string>, device: Device)
    requires WellFormed(table) && BuiltUpTo(uniforms, table, |table.keys|, program, active, device)
    requires HandlesUpTo(uniforms, table, |table.keys|, first)
    ensures forall k :: HasTexture(uniforms, k) ==>
              first <= uniforms[k].texture.value.texture < first + ImageCount(table.entries, table.keys)
  {
    assert table.keys[..|table.keys|] == table.keys;
    forall k | HasTexture(uniforms, k)
      ensures first <= uniforms[k].texture.value.texture < first + ImageCount(table.entries, table.keys)
    {
      assert k in table.keys;
      var j :| 0 <= j < |table.keys| && table.keys[j] == k;
      assert HoldsImage(table.entries, k) by {
        assert BuiltFrom(uniforms[k], k, table.entries[k], program, active, device);
      }
      ImageCountGrows(table.entries, table.keys, j, |table.keys|);
    }
  }

  /** One step of the `forEach`: the entry for `name`, with a new texture when its value is an image. */
  method BuildEntry(device: Device, program: Option<Handle>, active: seq<string>, name: string, d: Descriptor)
    returns (u: Entry)
    requires d.semanticType in SemanticTypes
    modifies device
    ensures BuiltFrom(u, name, d, program, active, device)
    ensures u.texture.Some? ==> u.texture.value.texture == old(device.nextHandle)
    ensures u.texture.Some? ==> IsImageValue(d.value) && u.texture.value.image == d.value.image
    ensures device.nextHandle == old(device.nextHandle) + if IsImageValue(d.value) then 1 else 0
    ensures device.log == old(device.log) + EntrySetup(old(device.nextHandle), d)
  {
    var texture: Option<Texture> := None;
    if IsImageValue(d.value) {
      var t := new Texture(device, d.value.image, d.wrapS, d.wrapT, d.filter, d.flipY);
      texture := Some(t);
    }
    u := ResolvedEntry(d, name, program, active, texture);
  }

  /**
    The `forEach` over the table's keys: resolves each entry's location,
    dispatch name and matrix flag, and gives each image value a texture.
  */
  method BuildUniforms(device: Device, program: Option<Handle>, active: seq<string>, table: Table)
    returns (uniforms: map<string, Entry>)
    requires WellFormed(table)
    requires forall k :: k in table.entries ==> table.entries[k].semanticType in SemanticTypes
    modifies device
    ensures forall k :: k in uniforms <==> k in table.entries
    ensures forall k :: k in uniforms ==> BuiltFrom(uniforms[k], k, table.entries[k], program, active, device)
    ensures HandlesUpTo(uniforms, table, |table.keys|, old(device.nextHandle))
    ensures device.nextHandle == old(device.nextHandle) + ImageCount(table.entries, table.keys)
    ensures device.log == old(device.log) + TextureSetup(old(device.nextHandle), table.entries, table.keys)
  {
    uniforms := map[];
    var i := 0;
    ghost var first := device.nextHandle;
    ghost var log0 := device.log;
    assert table.keys[..|table.keys|] == table.keys;
    while i < |table.keys|
      invariant 0 <= i <= |table.keys|
      invariant BuiltUpTo(uniforms, table, i, program, active, device)
      invariant HandlesUpTo(uniforms, table, i, first)
      invariant device.nextHandle == first + ImageCount(table.entries, table.keys[..i])
      invariant device.log == log0 + TextureSetup(first, table.entries, table.keys[..i])
    {
      var name := table.keys[i];
      var d := table.entries[name];
      ghost var before := device.log;
      ghost var h := device.nextHandle;
      var u := BuildEntry(device, program, active, name, d);
      SetupStep(first, table.entries, table.keys, i, log0, before, device.log, h, d);
      BuiltStep(uniforms, table, i, program, active, device, u);
      HandlesStep(uniforms, table, i, first, u);
      uniforms := uniforms[name := u];
      i := i + 1;
    }
    assert table.keys[..i] == table.keys;
  }

  /** Everything construction issues, with handles counted from `first`. */
  function ConstructionCommands(first: Handle, vertexCompiles: bool, fragmentCompiles: bool, links: bool,
                                table: Table): seq<Cmd>
  {
    var buffer := first + 3 + ImageCount(table.entries, table.keys);
    SetupCommands(first, vertexCompiles, fragmentCompiles, links)
    + TextureSetup(first + 3, table.entries, table.keys)
    + [Create(BufferObject, buffer), BindBuffer(buffer), BufferData(TRIANGLE)]
  }

  /** `options.dpr || 1`: a given non-zero ratio is kept, and the ratio is never zero. */
  function PixelRatio(dpr: Option<real>): (r: real)
    ensures r != 0.0
    ensures dpr.Some? && dpr.value != 0.0 ==> r == dpr.value
    ensures r != 1.0 ==> dpr == Some(r)
  {
    if dpr.None? || dpr.value == 0.0 then 1.0 else dpr.value
  }

  /** `size || window`: an absent or zero size falls back to the window's. */
  function OrWindow(size: Option<real>, window: real): (r: real)
    ensures size.Some? && size.value != 0.0 ==> r == size.value
    ensures r != window ==> size == Some(r) && r != 0.0
    ensures r == 0.0 ==> window == 0.0
  {
    if size.None? || size.value == 0.0 then window else size.value
  }

  /** `Math.floor(size * ratio)`: the largest whole number of device pixels within the scaled size. */
  function ScaledSize(size: real, ratio: real): (r: int)
    ensures r as real <= size * ratio < r as real + 1.0
  {
    (size * ratio).Floor
  }

  /**
    The resolution array after its first two elements are written: the
    array grows to two elements when shorter; further elements stay.
  */
  function ResolutionValue(xs: seq<real>, width: int, height: int): (r: seq<real>)
    ensures |r| == if |xs| < 2 then 2 else |xs|
    ensures r[0] == width as real && r[1] == height as real
    ensures forall i :: 2 <= i < |xs| ==> r[i] == xs[i]
  {
    [width as real, height as real] + if |xs| > 2 then xs[2..] else []
  }

  /** A resolution of at most two elements becomes exactly the backing size. */
  lemma ResolutionPair(xs: seq<real>, width: int, height: int)
    requires |xs| <= 2
    ensures ResolutionValue(xs, width, height) == [width as real, height as real]
  {
    var r := ResolutionValue(xs, width, height);
    assert |r| == 2;
  }

  /** The table after `resize` writes the backing size into `resolution`; nothing else changes. */
  function WithResolution(table: map<string, Entry>, width: int, height: int): (r: map<string, Entry>)
    requires "resolution" in table && table["resolution"].decl.value.Numbers?
    ensures r.Keys == table.Keys
    ensures forall k :: k in r && k != "resolution" ==> r[k] == table[k]
    ensures r["resolution"].decl.value == Numbers(ResolutionValue(table["resolution"].decl.value.xs, width, height))
    ensures r["resolution"].WithValue(table["resolution"].decl.value) == table["resolution"]
  {
    var u := table["resolution"];
    table["resolution" := u.WithValue(Numbers(ResolutionValue(u.decl.value.xs, width, height)))]
  }

  /** The built-ins' types are among the nine, so every type in the merged table is. */
  lemma InitialTableTypes(caller: Table)
    requires WellFormed(caller)
    requires forall k :: k in caller.entries ==> caller.entries[k].semanticType in SemanticTypes
    ensures forall k :: k in InitialTable(caller).entries ==> InitialTable(caller).entries[k].semanticType in SemanticTypes
  {
    var table := InitialTable(caller);
    assert "float" in SemanticTypes && "vec2" in SemanticTypes;
    forall k | k in table.entries
      ensures table.entries[k].semanticType in SemanticTypes
    {
      if k !in caller.entries {
        assert k == "time" || k == "resolution";
      }
    }
  }

  /** The table a renderer starts from, merged and then resolved entry by entry. */
  method BuildTable(device: Device, program: Option<Handle>, active: seq<string>, caller: Table)
    returns (entries: map<string, Entry>)
    requires WellFormed(caller)
    requires forall k :: k in caller.entries ==> caller.entries[k].semanticType in SemanticTypes
    requires forall n :: n in active ==> n in caller.entries || n == "time" || n == "resolution"
    modifies device
    ensures TableBuilt(entries, caller, program, active, device)
    ensures "time" in entries && "resolution" in entries && Covers(entries, active)
    ensures var table := InitialTable(caller);
      && HandlesUpTo(entries, table, |table.keys|, old(device.nextHandle))
      && device.nextHandle == old(device.nextHandle) + ImageCount(table.entries, table.keys)
      && device.log == old(device.log) + TextureSetup(old(device.nextHandle), table.entries, table.keys)
  {
    var table := InitialTable(caller);
    InitialTableWellFormed(caller);
    InitialTableTypes(caller);
    entries := BuildUniforms(device, program, active, table);
  }

  /** Compiles both stages and links them. */
  method Compile(device: Device, vertexCompiles: bool, fragmentCompiles: bool, links: bool)
    returns (vs: Option<Handle>, fs: Option<Handle>, p: Option<Handle>)
    modifies device
    ensures vs == if vertexCompiles then Some(old(device.nextHandle)) else None
    ensures fs == if fragmentCompiles then Some(old(device.nextHandle) + 1) else None
    ensures p == if links then Some(old(device.nextHandle) + 2) else None
    ensures device.nextHandle == old(device.nextHandle) + 3
    ensures device.log == old(device.log) + SetupCommands(old(device.nextHandle), vertexCompiles, fragmentCompiles, links)
  {
    vs := InitShader(device, VertexStage, vertexCompiles);
    fs := InitShader(device, FragmentStage, fragmentCompiles);
    p := InitProgram(device, vs, fs, links);
  }

  /** The three stages of construction's log make up the construction commands. */
  lemma ConstructionLog(first: Handle, vertexCompiles: bool, fragmentCompiles: bool, links: bool, table: Table,
                        log0: seq<Cmd>, compiled: seq<Cmd>, filled: seq<Cmd>, buffer: Handle)
    requires compiled == log0 + SetupCommands(first, vertexCompiles, fragmentCompiles, links)
    requires buffer == first + 3 + ImageCount(table.entries, table.keys)
    requires filled == compiled + TextureSetup(first + 3, table.entries, table.keys)
                       + [Create(BufferObject, buffer), BindBuffer(buffer), BufferData(TRIANGLE)]
    ensures filled == log0 + ConstructionCommands(first, vertexCompiles, fragmentCompiles, links, table)
  {
    AppendAssociates4(log0, SetupCommands(first, vertexCompiles, fragmentCompiles, links),
                      TextureSetup(first + 3, table.entries, table.keys),
                      [Create(BufferObject, buffer), BindBuffer(buffer), BufferData(TRIANGLE)]);
  }

  /** The stages of a frame's log make up the frame's commands. */
  lemma FrameLog(program: Option<Handle>, position: AttribLocation, buffer: Handle, width: int, height: int,
                 table: map<string, Entry>, active: seq<string>,
                 log0: seq<Cmd>, prepared: seq<Cmd>, pushed: seq<Cmd>, drawn: seq<Cmd>)
    requires Covers(table, active)
    requires prepared == log0 + FramePrelude(program, position, buffer, width, height)
    requires pushed == prepared + PushAll(table, active)
    requires drawn == pushed + [DrawArrays(Triangles, 0, 3)]
    ensures drawn == log0 + FrameCommands(program, position, buffer, width, height, table, active)
  {
    AppendAssociates4(log0, FramePrelude(program, position, buffer, width, height), PushAll(table, active),
                      [DrawArrays(Triangles, 0, 3)]);
  }

  /** One more uniform in the frame loop: its block follows the blocks before it. */
  lemma PushStep(table: map<string, Entry>, names: seq<string>, i: nat,
                 log0: seq<Cmd>, before: seq<Cmd>, after: seq<Cmd>)
    requires Covers(table, names) && i < |names|
    requires before == log0 + PushAll(table, names[..i])
    requires after == before + PushBlock(table[names[i]], ImagesIn(table, names[..i]))
    ensures after == log0 + PushAll(table, names[..i + 1])
    ensures ImagesIn(table, names[..i + 1]) == ImagesIn(table, names[..i]) + if table[names[i]].IsImage() then 1 else 0
  {
    assert names[..i + 1][..i] == names[..i];
    AppendAssociates(log0, PushAll(table, names[..i]), PushBlock(table[names[i]], ImagesIn(table, names[..i])));
  }

  /** Creates the vertex buffer and fills it with the triangle. */
  method FillBuffer(device: Device) returns (buffer: Handle)
    modifies device
    ensures buffer == old(device.nextHandle)
    ensures device.nextHandle == buffer + 1
    ensures device.log == old(device.log) + [Create(BufferObject, buffer), BindBuffer(buffer), BufferData(TRIANGLE)]
  {
    buffer := device.Allocate(BufferObject);
    device.Issue(BindBuffer(buffer));
    device.Issue(BufferData(TRIANGLE));
  }

  /**
    The constructor's work before any field is set: compile and link, build
    the table, create and fill the vertex buffer.
  */
  method Construct(device: Device, vertexCompiles: bool, fragmentCompiles: bool, links: bool,
                   names: seq<string>, caller: Table)
    returns (vs: Option<Handle>, fs: Option<Handle>, p: Option<Handle>, entries: map<string, Entry>, buffer: Handle)
    requires WellFormed(caller)
    requires forall k :: k in caller.entries ==> caller.entries[k].semanticType in SemanticTypes
    requires forall n :: n in names ==> n in caller.entries || n == "time" || n == "resolution"
    modifies device
    ensures vs == if vertexCompiles then Some(old(device.nextHandle)) else None
    ensures fs == if fragmentCompiles then Some(old(device.nextHandle) + 1) else None
    ensures p == if links then Some(old(device.nextHandle) + 2) else None
    ensures "time" in entries && "resolution" in entries && Covers(entries, names)
    ensures TableBuilt(entries, caller, p, names, device)
    ensures var table := InitialTable(caller);
      && HandlesUpTo(entries, table, |table.keys|, old(device.nextHandle) + 3)
      && buffer == old(device.nextHandle) + 3 + ImageCount(table.entries, table.keys)
      && device.nextHandle == buffer + 1
      && device.log == old(device.log)
                       + ConstructionCommands(old(device.nextHandle), vertexCompiles, fragmentCompiles, links, table)
  {
    ghost var first := device.nextHandle;
    vs, fs, p := Compile(device, vertexCompiles, fragmentCompiles, links);
    ghost var compiled := device.log;
    entries, buffer := BuildAndFill(device, p, names, caller);
    ghost var table := InitialTable(caller);
    ConstructionLog(first, vertexCompiles, fragmentCompiles, links, table, old(device.log), compiled, device.log, buffer);
  }

  /** Builds the table and then creates and fills the vertex buffer. */
  method BuildAndFill(device: Device, program: Option<Handle>, active: seq<string>, caller: Table)
    returns (entries: map<string, Entry>, buffer: Handle)
    requires WellFormed(caller)
    requires forall k :: k in caller.entries ==> caller.entries[k].semanticType in SemanticTypes
    requires forall n :: n in active ==> n in caller.entries || n == "time" || n == "resolution"
    modifies device
    ensures TableBuilt(entries, caller, program, active, device)
    ensures "time" in entries && "resolution" in entries && Covers(entries, active)
    ensures var table := InitialTable(caller);
      && HandlesUpTo(entries, table, |table.keys|, old(device.nextHandle))
      && buffer == old(device.nextHandle) + ImageCount(table.entries, table.keys)
      && device.nextHandle == buffer + 1
      && device.log == old(device.log) + TextureSetup(old(device.nextHandle), table.entries, table.keys)
                       + [Create(BufferObject, buffer), BindBuffer(buffer), BufferData(TRIANGLE)]
  {
    entries := BuildTable(device, program, active, caller);
    buffer := FillBuffer(device);
  }

  class Shader {
    const device: Device
    /** The host's animation-frame scheduler. */
    const frames: FrameScheduler
    const vertexShader: Option<Handle>
    const fragmentShader: Option<Handle>
    const program: Option<Handle>
    /** The program's active uniforms in the order the device reports them; none when linking failed. */
    const active: seq<string>
    const positionLocation: AttribLocation
    const positionBuffer: Handle
    /** Device pixels per layout pixel. */
    const dpr: real
    /** The uniform table, keyed by name. */
    var uniforms: map<string, Entry>
    /** The id of the frame last requested, -1 before any. */
    var rafID: int
    /** The canvas's backing size, in device pixels. */
    var canvasWidth: int
    var canvasHeight: int
    /** The canvas's layout size, once `resize` has set it. */
    var layoutWidth: Option<real>
    var layoutHeight: Option<real>

    ghost predicate Valid()
      reads this, frames
    {
      && frames.Valid()
      && rafID < frames.nextId
      && "time" in uniforms && "resolution" in uniforms
      && Covers(uniforms, active)
      && (program.None? ==> |active| == 0)
      && TexturesOn(uniforms, device)
    }

    /** No frame is pending except possibly the one last requested. */
    predicate AtMostOneFrame()
      reads this, frames
    {
      frames.pending <= {rafID}
    }

    /** Sets the fields of a renderer whose device work is done; no frame is pending yet. */
    constructor (device: Device, frames: FrameScheduler, canvasWidth: int, canvasHeight: int,
                 vertexShader: Option<Handle>, fragmentShader: Option<Handle>, program: Option<Handle>,
                 active: seq<string>, positionBuffer: Handle, dpr: real, uniforms: map<string, Entry>)
      ensures this.device == device && this.frames == frames
      ensures this.canvasWidth == canvasWidth && this.canvasHeight == canvasHeight
      ensures this.vertexShader == vertexShader && this.fragmentShader == fragmentShader && this.program == program
      ensures this.active == active && this.positionBuffer == positionBuffer && this.dpr == dpr
      ensures this.uniforms == uniforms && this.positionLocation == AttribLocation(program, "position")
      ensures rafID == -1 && layoutWidth == None && layoutHeight == None
    {
      this.device := device;
      this.frames := frames;
      this.vertexShader := vertexShader;
      this.fragmentShader := fragmentShader;
      this.program := program;
      this.active := active;
      this.positionLocation := AttribLocation(program, "position");
      this.positionBuffer := positionBuffer;
      this.dpr := dpr;
      this.uniforms := uniforms;
      this.rafID := -1;
      this.canvasWidth := canvasWidth;
      this.canvasHeight := canvasHeight;
      this.layoutWidth := None;
      this.layoutHeight := None;
    }

    /**
      Sizes the canvas: a missing or zero width or height falls back to the
      window's, the backing size is the layout size times the pixel ratio
      rounded down, and both the viewport and `resolution` take it.
    */
    method Resize(width: Option<real>, height: Option<real>, innerWidth: real, innerHeight: real)
      requires Valid() && uniforms["resolution"].decl.value.Numbers?
      modifies this`canvasWidth, this`canvasHeight, this`layoutWidth, this`layoutHeight, this`uniforms, device
      ensures Valid()
      ensures layoutWidth == Some(OrWindow(width, innerWidth)) && layoutHeight == Some(OrWindow(height, innerHeight))
      ensures canvasWidth == ScaledSize(OrWindow(width, innerWidth), dpr)
      ensures canvasHeight == ScaledSize(OrWindow(height, innerHeight), dpr)
      ensures uniforms == WithResolution(old(uniforms), canvasWidth, canvasHeight)
      ensures device.nextHandle == old(device.nextHandle)
      ensures device.log == old(device.log) + [Viewport(0, 0, canvasWidth, canvasHeight)]
    {
      var w := OrWindow(width, innerWidth);
      var h := OrWindow(height, innerHeight);
      var scaledWidth := ScaledSize(w, dpr);
      var scaledHeight := ScaledSize(h, dpr);
      canvasWidth := scaledWidth;
      canvasHeight := scaledHeight;
      layoutWidth := Some(w);
      layoutHeight := Some(h);
      device.Issue(Viewport(0, 0, scaledWidth, scaledHeight));
      uniforms := WithResolution(uniforms, scaledWidth, scaledHeight);
    }

    /** Cancels the frame last requested and requests a new one. */
    method Start()
      requires Valid()
      modifies this`rafID, frames
      ensures Valid()
      ensures rafID == old(frames.nextId) && rafID !in old(frames.pending)
      ensures frames.pending == old(frames.pending) - {old(rafID)} + {rafID}
      ensures old(AtMostOneFrame()) ==> frames.pending == {rafID}
    {
      Stop();
      rafID := frames.Request();
    }

    /** Cancels the frame last requested; the id itself is kept. */
    method Stop()
      requires Valid()
      modifies frames
      ensures Valid()
      ensures frames.pending == old(frames.pending) - {rafID} && frames.nextId == old(frames.nextId)
      ensures old(AtMostOneFrame()) ==> frames.pending == {}
    {
      frames.Cancel(rafID);
    }

    /** The uniform loop of a frame: each active uniform pushed in order, image uniforms on fresh units. */
    method PushUniforms()
      requires Covers(uniforms, active)
      modifies device
      ensures device.nextHandle == old(device.nextHandle)
      ensures device.log == old(device.log) + PushAll(uniforms, active)
    {
      var textureID: nat := 0;
      var i := 0;
      while i < |active|
        invariant 0 <= i <= |active|
        invariant textureID == ImagesIn(uniforms, active[..i])
        invariant device.nextHandle == old(device.nextHandle)
        invariant device.log == old(device.log) + PushAll(uniforms, active[..i])
      {
        var u := uniforms[active[i]];
        ghost var before := device.log;
        ghost var unit := textureID;
        if u.texture.Some? {
          device.Issue(Uniform("uniform1i", u.location, Scalar(textureID as real)));
          device.Issue(ActiveTexture(textureID));
          device.Issue(BindTexture(u.texture.value.texture));
          textureID := textureID + 1;
        } else if u.isMatrix {
          device.Issue(UniformMatrix(u.kind, u.location, false, u.decl.value));
        } else {
          device.Issue(Uniform(u.kind, u.location, u.decl.value));
        }
        PushStep(uniforms, active, i, old(device.log), before, device.log);
        i := i + 1;
      }
      assert active[..i] == active;
    }

    /** The frame's setup: viewport to the backing size, clear, program, vertex buffer and attribute. */
    method Prelude()
      modifies device
      ensures device.nextHandle == old(device.nextHandle)
      ensures device.log == old(device.log)
        + FramePrelude(program, positionLocation, positionBuffer, canvasWidth, canvasHeight)
    {
      device.Issue(Viewport(0, 0, canvasWidth, canvasHeight));
      device.Issue(ClearColorBuffer);
      device.Issue(UseProgram(program));
      device.Issue(EnableVertexAttribArray(positionLocation));
      device.Issue(BindBuffer(positionBuffer));
      device.Issue(VertexAttribPointer(positionLocation, 2));
    }

    /**
      Writes the elapsed seconds into `time`, runs the tick hook with the
      value just written and applies the hook's writes.
    */
    method Advance(seconds: real, onTick: real -> map<string, Value>)
      requires "time" in uniforms && onTick(seconds).Keys <= uniforms.Keys
      modifies this`uniforms
      ensures uniforms == Ticked(old(uniforms), seconds, onTick(seconds))
    {
      uniforms := uniforms["time" := uniforms["time"].WithValue(Scalar(seconds))];
      var writes := onTick(uniforms["time"].decl.value.x);
      uniforms := map k | k in uniforms :: if k in writes then uniforms[k].WithValue(writes[k]) else uniforms[k];
    }

    /**
      One frame: requests the next frame first, sets up the viewport,
      program and vertex buffer, writes the elapsed seconds into `time`,
      runs the tick hook with them, pushes the active uniforms and draws.
    */
    method Update(timestamp: real, onTick: real -> map<string, Value>)
      requires Valid()
      requires onTick(timestamp / 1000.0).Keys <= uniforms.Keys
      modifies this`rafID, this`uniforms, frames, device
      ensures Valid()
      ensures rafID == old(frames.nextId) && frames.pending == old(frames.pending) + {rafID}
      ensures uniforms == Ticked(old(uniforms), timestamp / 1000.0, onTick(timestamp / 1000.0))
      ensures device.nextHandle == old(device.nextHandle)
      ensures device.log == old(device.log)
        + FrameCommands(program, positionLocation, positionBuffer, canvasWidth, canvasHeight, uniforms, active)
    {
      rafID := frames.Request();
      ghost var log0 := device.log;
      Prelude();
      ghost var prepared := device.log;
      Advance(timestamp / 1000.0, onTick);
      ghost var ticked := uniforms;
      PushUniforms();
      ghost var pushed := device.log;
      device.Issue(DrawArrays(Triangles, 0, 3));
      assert uniforms == ticked;
      FrameLog(program, positionLocation, positionBuffer, canvasWidth, canvasHeight, uniforms, active,
               log0, prepared, pushed, device.log);
    }

    /** The host runs the pending frame `id`: it stops being pending, then the frame runs. */
    method Tick(id: int, timestamp: real, onTick: real -> map<string, Value>)
      requires Valid() && id in frames.pending
      requires onTick(timestamp / 1000.0).Keys <= uniforms.Keys
      modifies this`rafID, this`uniforms, frames, device
      ensures Valid()
      ensures rafID == old(frames.nextId)
      ensures frames.pending == old(frames.pending) - {id} + {rafID}
      ensures old(AtMostOneFrame()) ==> frames.pending == {rafID}
      ensures uniforms == Ticked(old(uniforms), timestamp / 1000.0, onTick(timestamp / 1000.0))
      ensures device.nextHandle == old(device.nextHandle)
      ensures device.log == old(device.log)
        + FrameCommands(program, positionLocation, positionBuffer, canvasWidth, canvasHeight, uniforms, active)
    {
      frames.Fire(id);
      Update(timestamp, onTick);
    }

    /**
      Releases the textures of the active image uniforms, in order, then the
      vertex buffer, then the program.
    */
    method Destroy()
      requires Valid()
      modifies device
      ensures device.nextHandle == old(device.nextHandle)
      ensures device.log == old(device.log) + TeardownCommands(uniforms, active, positionBuffer, program)
    {
      var i := 0;
      while i < |active|
        invariant 0 <= i <= |active|
        invariant device.nextHandle == old(device.nextHandle)
        invariant device.log == old(device.log) + TextureReleases(uniforms, active[..i])
      {
        var u := uniforms[active[i]];
        if u.texture.Some? {
          u.texture.value.Destroy();
        }
        assert active[..i + 1][..i] == active[..i];
        i := i + 1;
      }
      assert active[..i] == active;
      device.Issue(DeleteBuffer(positionBuffer));
      device.Issue(DeleteProgram(program));
    }
  }

  /**
    `new Shader(options)`: compiles and links, builds the uniform table,
    creates and fills the vertex buffer, and returns the renderer with no
    frame pending.
  */
  method NewShader(device: Device, canvasWidth: int, canvasHeight: int,
                   vertexCompiles: bool, fragmentCompiles: bool, links: bool,
                   programUniforms: seq<string>, caller: Table, dpr: Option<real>) returns (shader: Shader)
    requires WellFormed(caller)
    requires forall k :: k in caller.entries ==> caller.entries[k].semanticType in SemanticTypes
    requires forall n :: n in programUniforms ==> n in caller.entries || n == "time" || n == "resolution"
    modifies device
    ensures fresh(shader) && fresh(shader.frames)
    ensures shader.Valid() && shader.frames.pending == {} && shader.rafID == -1
    ensures shader.device == device && shader.canvasWidth == canvasWidth && shader.canvasHeight == canvasHeight
    ensures shader.layoutWidth == None && shader.layoutHeight == None
    ensures shader.vertexShader == if vertexCompiles then Some(old(device.nextHandle)) else None
    ensures shader.fragmentShader == if fragmentCompiles then Some(old(device.nextHandle) + 1) else None
    ensures shader.program == if links then Some(old(device.nextHandle) + 2) else None
    ensures links ==> shader.active == programUniforms
    ensures !links ==> shader.active == []
    ensures shader.positionLocation == AttribLocation(shader.program, "position")
    ensures shader.dpr == PixelRatio(dpr)
    ensures TableBuilt(shader.uniforms, caller, shader.program, shader.active, device)
    ensures var table := InitialTable(caller);
      && HandlesUpTo(shader.uniforms, table, |table.keys|, old(device.nextHandle) + 3)
      && shader.positionBuffer == old(device.nextHandle) + 3 + ImageCount(table.entries, table.keys)
      && device.nextHandle == shader.positionBuffer + 1
      && device.log == old(device.log)
                       + ConstructionCommands(old(device.nextHandle), vertexCompiles, fragmentCompiles, links, table)
  {
    var names := if links then programUniforms else [];
    var vs, fs, p, entries, buffer := Construct(device, vertexCompiles, fragmentCompiles, links, names, caller);
    BuiltOnDevice(entries, caller, p, names, device);
    var frames := new FrameScheduler();
    shader := new Shader(device, frames, canvasWidth, canvasHeight, vs, fs, p, names, buffer, PixelRatio(dpr), entries);
  }

  /** A shader on a fresh device with no caller uniforms, a program that links, and pixel ratio option `dpr`. */
  method DefaultShader(dpr: Option<real>) returns (shader: Shader)
    ensures fresh(shader) && fresh(shader.device) && fresh(shader.frames)
    ensures shader.Valid() && shader.frames.pending == {} && shader.rafID == -1
    ensures shader.dpr == PixelRatio(dpr)
    ensures shader.uniforms["resolution"].decl.value == Numbers([1.0, 1.0])
  {
    var device := new Device();
    shader := NewShader(device, 300, 150, true, true, true, [], Table([], map[]), dpr);
    BuiltDecl(shader.uniforms, Table([], map[]), shader.program, shader.active, device, "resolution");
  }

  /**
    Stopping before any start cancels nothing; starting twice leaves one
    frame pending; a frame that runs leaves exactly its successor pending.
  */
  method SchedulingScenario() returns (afterStop: set<int>, afterStarts: set<int>, afterFrame: set<int>)
    ensures afterStop == {}
    ensures |afterStarts| == 1
    ensures |afterFrame| == 1 && afterFrame != afterStarts
  {
    var shader := DefaultShader(None);
    shader.Stop();
    afterStop := shader.frames.pending;
    shader.Start();
    shader.Start();
    afterStarts := shader.frames.pending;
    var previous := shader.rafID;
    shader.Tick(shader.rafID, 16.0, (seconds: real) => map[]);
    afterFrame := shader.frames.pending;
    assert previous !in afterFrame;
  }

  /**
    At a pixel ratio of 2, an 800x600 layout gets a 1600x1200 backing
    store, viewport and `resolution`.
  */
  method ResizeScenario() returns (backingWidth: int, backingHeight: int, resolution: Value, last: Cmd)
    ensures backingWidth == 1600 && backingHeight == 1200
    ensures resolution == Numbers([1600.0, 1200.0])
    ensures last == Viewport(0, 0, 1600, 1200)
  {
    var shader := DefaultShader(Some(2.0));
    shader.Resize(Some(800.0), Some(600.0), 1024.0, 768.0);
    ResolutionPair([1.0, 1.0], 1600, 1200);
    backingWidth, backingHeight := shader.canvasWidth, shader.canvasHeight;
    resolution := shader.uniforms["resolution"].decl.value;
    last := shader.device.log[|shader.device.log| - 1];
  }

  /** With no pixel ratio, no width and a zero height, the window's size is used as it is. */
  method FallbackScenario() returns (backingWidth: int, backingHeight: int, layoutWidth: Option<real>)
    ensures backingWidth == 1024 && backingHeight == 768
    ensures layoutWidth == Some(1024.0)
  {
    var shader := DefaultShader(Some(0.0));
    shader.Resize(None, Some(0.0), 1024.0, 768.0);
    backingWidth, backingHeight := shader.canvasWidth, shader.canvasHeight;
    layoutWidth := shader.layoutWidth;
  }
}
