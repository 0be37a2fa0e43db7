/**
  index.js, `destroy`: what a renderer releases when it is torn down, and
  why the method as written releases nothing. Its body reads the block's
  own `const gl` binding before the declaration has run (the binding's
  temporal dead zone), which throws a ReferenceError on every call.
*/
module Teardown {
  import opened Wrappers
  import opened Graphics
  import opened FrameSpec

  /** The textures owned by the named image uniforms, released in order. */
  function TextureReleases(table: map<string, Entry>, names: seq<string>): seq<Cmd>
    requires Covers(table, names)
    decreases |names|
  {
    if names == [] then []
    else
      var u := table[names[|names| - 1]];
      TextureReleases(table, names[..|names| - 1])
      + if u.texture.Some? then [DeleteTexture(u.texture.value.texture)] else []
  }

  /**
    The releases delete only textures, and delete a handle exactly when it
    belongs to one of the named image uniforms.
  */
  lemma {:induction false} ReleasesExactly(table: map<string, Entry>, names: seq<string>, h: Handle)
    requires Covers(table, names)
    ensures forall c :: c in TextureReleases(table, names) ==> c.DeleteTexture?
    ensures DeleteTexture(h) in TextureReleases(table, names) <==>
      exists i :: 0 <= i < |names| && table[names[i]].texture.Some? && table[names[i]].texture.value.texture == h
    decreases |names|
  {
    if names != [] {
      var n := |names| - 1;
      var init := names[..n];
      ReleasesExactly(table, init, h);
      var last := table[names[n]];
      if DeleteTexture(h) in TextureReleases(table, init) {
        var i :| 0 <= i < |init| && table[init[i]].texture.Some? && table[init[i]].texture.value.texture == h;
        assert init[i] == names[i];
      }
      if exists i :: 0 <= i < |names| && table[names[i]].texture.Some? && table[names[i]].texture.value.texture == h {
        var i :| 0 <= i < |names| && table[names[i]].texture.Some? && table[names[i]].texture.value.texture == h;
        if i < n {
          assert init[i] == names[i];
        }
      }
    }
  }

  /** Everything a working teardown issues: the textures, then the vertex buffer, then the program. */
  function TeardownCommands(table: map<string, Entry>, active: seq<string>, buffer: Handle, program: Option<Handle>): seq<Cmd>
    requires Covers(table, active)
  {
    TextureReleases(table, active) + [DeleteBuffer(buffer), DeleteProgram(program)]
  }

  /**
    A statement of a function body, reduced to what matters for its block
    scope: a `const` declaration, or a statement that reads a binding and
    then issues some commands.
  */
  datatype Stmt = Declare(name: string) | Use(name: string, issues: seq<Cmd>)

  /** How running a block ends: normally, or by reading a binding it cannot read. */
  datatype Outcome = Completed(issued: seq<Cmd>) | ReferenceError(binding: string, issuedBefore: seq<Cmd>)

  /** The names a block declares: they are in scope, uninitialised, from its first statement on. */
  function Hoisted(block: seq<Stmt>): set<string>
  {
    if block == [] then {}
    else (if block[0].Declare? then {block[0].name} else {}) + Hoisted(block[1..])
  }

  /**
    Runs a block. Reading a name the block declares is an error until its
    declaration has run; reading a name the block does not declare looks it
    up in the enclosing scopes `outer`, and is an error if it is not there.
  */
  function Run(block: seq<Stmt>, hoisted: set<string>, outer: set<string>,
               initialised: set<string>, issued: seq<Cmd>): Outcome
    decreases |block|
  {
    if block == [] then Completed(issued)
    else
      match block[0]
      case Declare(n) => Run(block[1..], hoisted, outer, initialised + {n}, issued)
      case Use(n, cmds) =>
        if (n in hoisted && n !in initialised) || (n !in hoisted && n !in outer) then ReferenceError(n, issued)
        else Run(block[1..], hoisted, outer, initialised, issued + cmds)
  }

  function Execute(block: seq<Stmt>, outer: set<string>): Outcome
  {
    Run(block, Hoisted(block), outer, {}, [])
  }

  /**
    `destroy` as written: the active-uniform count (line 156) and the loop
    (lines 157-163) read `gl`, which is declared only afterwards (line 165)
    and then used for the buffer and the program.
  */
  function DestroyAsWritten(releases: seq<Cmd>, buffer: Handle, program: Option<Handle>): seq<Stmt>
  {
    [Use("gl", []), Use("gl", releases), Declare("gl"),
     Use("gl", [DeleteBuffer(buffer)]), Use("gl", [DeleteProgram(program)])]
  }

  /** `destroy` with `gl` declared before its first use. */
  function DestroyCorrected(releases: seq<Cmd>, buffer: Handle, program: Option<Handle>): seq<Stmt>
  {
    [Declare("gl"), Use("gl", []), Use("gl", releases),
     Use("gl", [DeleteBuffer(buffer)]), Use("gl", [DeleteProgram(program)])]
  }

  /**
    Whatever the enclosing scopes hold, `destroy` as written stops at its
    first statement: no texture, buffer or program is released.
  */
  lemma DestroyAsWrittenThrows(releases: seq<Cmd>, buffer: Handle, program: Option<Handle>, outer: set<string>)
    ensures Execute(DestroyAsWritten(releases, buffer, program), outer) == ReferenceError("gl", [])
  {
    var block := DestroyAsWritten(releases, buffer, program);
    assert "gl" in Hoisted(block) by {
      assert block[2..] == [Declare("gl")] + block[3..];
      assert Hoisted(block[2..]) == {"gl"} + Hoisted(block[3..]);
    }
  }

  /** With the declaration first, the block issues every release, in order. */
  lemma DestroyCorrectedCompletes(releases: seq<Cmd>, buffer: Handle, program: Option<Handle>, outer: set<string>)
    ensures Execute(DestroyCorrected(releases, buffer, program), outer)
            == Completed(releases + [DeleteBuffer(buffer), DeleteProgram(program)])
  {
    var block := DestroyCorrected(releases, buffer, program);
    var hoisted := Hoisted(block);
    assert "gl" in hoisted;
    var done := releases + [DeleteBuffer(buffer), DeleteProgram(program)];
    var none: seq<Cmd> := [];
    calc {
      Run(block, hoisted, outer, {}, []);
      { assert {} + {"gl"} == {"gl"}; }
      Run(block[1..], hoisted, outer, {"gl"}, []);
      { assert block[1..][1..] == block[2..] && block[1..][0] == Use("gl", []) && none + none == none; }
      Run(block[2..], hoisted, outer, {"gl"}, []);
      { assert block[2..][1..] == block[3..] && block[2..][0] == Use("gl", releases) && none + releases == releases; }
      Run(block[3..], hoisted, outer, {"gl"}, releases);
      { assert block[3..][1..] == block[4..]; }
      Run(block[4..], hoisted, outer, {"gl"}, releases + [DeleteBuffer(buffer)]);
      { assert block[4..][1..] == []; }
      Completed(releases + [DeleteBuffer(buffer)] + [DeleteProgram(program)]);
      { assert releases + [DeleteBuffer(buffer)] + [DeleteProgram(program)] == done; }
      Completed(done);
    }
  }
}
