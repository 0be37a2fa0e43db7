/**
  index.js, `initShader` and `initProgram`: compiling the two stages and
  linking them, with the fixed pattern in which stage and program objects
  are released. Whether compiling or linking succeeds is an input.
*/
module Programs {
  import opened Wrappers
  import opened Graphics

  /** What `initShader` issues for the stage created with handle `shader`. */
  function ShaderCommands(shader: Handle, stage: Stage, compiles: bool): seq<Cmd>
  {
    [Create(ShaderObject(stage), shader), ShaderSource(shader), CompileShader(shader)]
    + if compiles then [] else [DeleteShader(Some(shader))]
  }

  /** What `initProgram` issues for the program created with handle `program`. */
  function ProgramCommands(program: Handle, vertex: Option<Handle>, fragment: Option<Handle>, links: bool): seq<Cmd>
  {
    [Create(ProgramObject, program), AttachShader(program, vertex), AttachShader(program, fragment),
     LinkProgram(program), DeleteShader(vertex), DeleteShader(fragment)]
    + if links then [] else [DeleteProgram(Some(program))]
  }

  /** Compiles one stage: returns it on success, deletes it and returns nothing on failure. */
  method InitShader(device: Device, stage: Stage, compiles: bool) returns (shader: Option<Handle>)
    modifies device
    ensures shader == if compiles then Some(old(device.nextHandle)) else None
    ensures device.nextHandle == old(device.nextHandle) + 1
    ensures device.log == old(device.log) + ShaderCommands(old(device.nextHandle), stage, compiles)
  {
    var h := device.Allocate(ShaderObject(stage));
    device.Issue(ShaderSource(h));
    device.Issue(CompileShader(h));
    if compiles {
      return Some(h);
    }
    device.Issue(DeleteShader(Some(h)));
    shader := None;
  }

  /**
    Links the two stages, then deletes both whether or not linking
    succeeded; on failure also deletes the program and returns nothing.
  */
  method InitProgram(device: Device, vertex: Option<Handle>, fragment: Option<Handle>, links: bool)
    returns (program: Option<Handle>)
    modifies device
    ensures program == if links then Some(old(device.nextHandle)) else None
    ensures device.nextHandle == old(device.nextHandle) + 1
    ensures device.log == old(device.log) + ProgramCommands(old(device.nextHandle), vertex, fragment, links)
  {
    var p := device.Allocate(ProgramObject);
    device.Issue(AttachShader(p, vertex));
    device.Issue(AttachShader(p, fragment));
    device.Issue(LinkProgram(p));
    device.Issue(DeleteShader(vertex));
    device.Issue(DeleteShader(fragment));
    if links {
      return Some(p);
    }
    device.Issue(DeleteProgram(Some(p)));
    program := None;
  }

  /** Compiling both stages and linking them, from the handle `first` on. */
  function SetupCommands(first: Handle, vertexCompiles: bool, fragmentCompiles: bool, links: bool): seq<Cmd>
  {
    ShaderCommands(first, VertexStage, vertexCompiles)
    + ShaderCommands(first + 1, FragmentStage, fragmentCompiles)
    + ProgramCommands(first + 2, if vertexCompiles then Some(first) else None,
                      if fragmentCompiles then Some(first + 1) else None, links)
  }

  /** How many commands of `cmds` equal `c`. */
  function Occurrences(cmds: seq<Cmd>, c: Cmd): nat
  {
    if cmds == [] then 0 else (if cmds[0] == c then 1 else 0) + Occurrences(cmds[1..], c)
  }

  lemma {:induction false} OccurrencesAppend(a: seq<Cmd>, b: seq<Cmd>, c: Cmd)
    ensures Occurrences(a + b, c) == Occurrences(a, c) + Occurrences(b, c)
  {
    if a == [] {
      assert a + b == b;
    } else {
      assert (a + b)[1..] == a[1..] + b;
      OccurrencesAppend(a[1..], b, c);
    }
  }

  lemma {:induction false} Absent(cmds: seq<Cmd>, c: Cmd)
    requires c !in cmds
    ensures Occurrences(cmds, c) == 0
  {
    if cmds != [] {
      Absent(cmds[1..], c);
    }
  }

  /** A command that stands at one place of a list and nowhere else occurs once. */
  lemma OccursOnce(a: seq<Cmd>, c: Cmd, b: seq<Cmd>)
    requires c !in a && c !in b
    ensures Occurrences(a + [c] + b, c) == 1
  {
    OccurrencesAppend(a + [c], b, c);
    OccurrencesAppend(a, [c], c);
    Absent(a, c);
    Absent(b, c);
    assert Occurrences([c], c) == 1 + Occurrences([], c);
  }

  /** The vertex stage is deleted once: by `initShader` if it failed, by `initProgram` if not. */
  lemma VertexStageReleasedOnce(first: Handle, vertexCompiles: bool, fragmentCompiles: bool, links: bool)
    ensures Occurrences(SetupCommands(first, vertexCompiles, fragmentCompiles, links), DeleteShader(Some(first))) == 1
  {
    var v := if vertexCompiles then Some(first) else None;
    var f := if fragmentCompiles then Some(first + 1) else None;
    var p := first + 2;
    var vs := ShaderCommands(first, VertexStage, vertexCompiles);
    var fs := ShaderCommands(first + 1, FragmentStage, fragmentCompiles);
    var base := [Create(ProgramObject, p), AttachShader(p, v), AttachShader(p, f), LinkProgram(p)];
    var tail := if links then [] else [DeleteProgram(Some(p))];
    var cmds := SetupCommands(first, vertexCompiles, fragmentCompiles, links);
    var d := DeleteShader(Some(first));
    if vertexCompiles {
      assert cmds == (vs + fs + base) + [d] + ([DeleteShader(f)] + tail);
      OccursOnce(vs + fs + base, d, [DeleteShader(f)] + tail);
    } else {
      var create := [Create(ShaderObject(VertexStage), first), ShaderSource(first), CompileShader(first)];
      assert cmds == create + [d] + (fs + base + [DeleteShader(v), DeleteShader(f)] + tail);
      OccursOnce(create, d, fs + base + [DeleteShader(v), DeleteShader(f)] + tail);
    }
  }

  /** The fragment stage is deleted once: by `initShader` if it failed, by `initProgram` if not. */
  lemma FragmentStageReleasedOnce(first: Handle, vertexCompiles: bool, fragmentCompiles: bool, links: bool)
    ensures Occurrences(SetupCommands(first, vertexCompiles, fragmentCompiles, links), DeleteShader(Some(first + 1))) == 1
  {
    var v := if vertexCompiles then Some(first) else None;
    var f := if fragmentCompiles then Some(first + 1) else None;
    var p := first + 2;
    var vs := ShaderCommands(first, VertexStage, vertexCompiles);
    var fs := ShaderCommands(first + 1, FragmentStage, fragmentCompiles);
    var base := [Create(ProgramObject, p), AttachShader(p, v), AttachShader(p, f), LinkProgram(p)];
    var tail := if links then [] else [DeleteProgram(Some(p))];
    var cmds := SetupCommands(first, vertexCompiles, fragmentCompiles, links);
    var d := DeleteShader(Some(first + 1));
    if fragmentCompiles {
      assert cmds == (vs + fs + base + [DeleteShader(v)]) + [d] + tail;
      OccursOnce(vs + fs + base + [DeleteShader(v)], d, tail);
    } else {
      var create := [Create(ShaderObject(FragmentStage), first + 1), ShaderSource(first + 1), CompileShader(first + 1)];
      assert cmds == (vs + create) + [d] + (base + [DeleteShader(v), DeleteShader(f)] + tail);
      OccursOnce(vs + create, d, base + [DeleteShader(v), DeleteShader(f)] + tail);
    }
  }

  /** The program is deleted once when linking fails and never when it succeeds. */
  lemma ProgramReleasedOnFailure(first: Handle, vertexCompiles: bool, fragmentCompiles: bool, links: bool)
    ensures Occurrences(SetupCommands(first, vertexCompiles, fragmentCompiles, links), DeleteProgram(Some(first + 2)))
            == if links then 0 else 1
  {
    var cmds := SetupCommands(first, vertexCompiles, fragmentCompiles, links);
    var d := DeleteProgram(Some(first + 2));
    if links {
      Absent(cmds, d);
    } else {
      var init := cmds[..|cmds| - 1];
      assert cmds == init + [d] + [];
      Absent(init, d);
      OccursOnce(init, d, []);
    }
  }
}
