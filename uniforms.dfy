/**
  index.js, the uniform table: the declared descriptors, the built-ins they
  are merged with, and the dispatch name resolved from each semantic type.
*/
module Uniforms {
  import opened Wrappers
  import opened Graphics

  /** The nine semantic types a descriptor may declare. */
  const SemanticTypes: set<string> :=
    {"int", "float", "sampler2D", "vec2", "vec3", "vec4", "mat2", "mat3", "mat4"}

  const MatrixTypes: set<string> := {"mat2", "mat3", "mat4"}

  const VectorTypes: set<string> := {"vec2", "vec3", "vec4"}

  /**
    `getUniformType`: the name of the device function that pushes a uniform
    of the given type. Vector and matrix names take their size from the
    fourth character of the type; any other type name has none.
  */
  function GetUniformType(t: string): (r: Option<string>)
    ensures r.Some? <==> t in SemanticTypes
  {
    if t == "int" || t == "sampler2D" then Some("uniform1i")
    else if t == "float" then Some("uniform1f")
    else if t in MatrixTypes then Some("uniformMatrix" + [t[3]] + "fv")
    else if t in VectorTypes then Some("uniform" + [t[3]] + "fv")
    else None
  }

  /** The nine dispatch names, one per semantic type. */
  lemma DispatchNames()
    ensures GetUniformType("int") == Some("uniform1i")
    ensures GetUniformType("sampler2D") == Some("uniform1i")
    ensures GetUniformType("float") == Some("uniform1f")
    ensures GetUniformType("vec2") == Some("uniform2fv")
    ensures GetUniformType("vec3") == Some("uniform3fv")
    ensures GetUniformType("vec4") == Some("uniform4fv")
    ensures GetUniformType("mat2") == Some("uniformMatrix2fv")
    ensures GetUniformType("mat3") == Some("uniformMatrix3fv")
    ensures GetUniformType("mat4") == Some("uniformMatrix4fv")
  {
    assert "vec2"[3] == '2' && "uniform" + ['2'] + "fv" == "uniform2fv";
    assert "vec3"[3] == '3' && "uniform" + ['3'] + "fv" == "uniform3fv";
    assert "vec4"[3] == '4' && "uniform" + ['4'] + "fv" == "uniform4fv";
    assert "mat2"[3] == '2' && "uniformMatrix" + ['2'] + "fv" == "uniformMatrix2fv";
    assert "mat3"[3] == '3' && "uniformMatrix" + ['3'] + "fv" == "uniformMatrix3fv";
    assert "mat4"[3] == '4' && "uniformMatrix" + ['4'] + "fv" == "uniformMatrix4fv";
  }

  /** `pattern` occurs in `s` starting at position `i`. */
  predicate OccursAt(s: string, pattern: string, i: int)
  {
    0 <= i && i + |pattern| <= |s| && s[i..i + |pattern|] == pattern
  }

  /**
    `String.prototype.indexOf`: the first position at which `pattern`
    occurs in `s`, or -1 when it occurs nowhere.
  */
  function IndexOf(s: string, pattern: string): (r: int)
    ensures r == -1 || OccursAt(s, pattern, r)
    ensures forall i :: 0 <= i && (r == -1 || i < r) ==> !OccursAt(s, pattern, i)
    decreases |s|
  {
    if |s| < |pattern| then -1
    else if s[..|pattern|] == pattern then 0
    else
      var k := IndexOf(s[1..], pattern);
      assert forall i :: 1 <= i ==> OccursAt(s, pattern, i) == OccursAt(s[1..], pattern, i - 1) by {
        forall i | 1 <= i
          ensures OccursAt(s, pattern, i) == OccursAt(s[1..], pattern, i - 1)
        {
          if i + |pattern| <= |s| {
            assert s[1..][i - 1..i - 1 + |pattern|] == s[i..i + |pattern|];
          }
        }
      }
      if k == -1 then -1 else k + 1
  }

  /** The matrix flag: the dispatch name mentions "Matrix". */
  predicate IsMatrixKind(kind: string)
  {
    IndexOf(kind, "Matrix") > -1
  }

  /** A pattern whose first character is missing from `s` does not occur in it. */
  lemma AbsentHead(s: string, pattern: string)
    requires |pattern| > 0 && pattern[0] !in s
    ensures IndexOf(s, pattern) == -1
  {
    var r := IndexOf(s, pattern);
    if r >= 0 {
      OccursHead(s, pattern, r);
    }
  }

  lemma OccursHead(s: string, pattern: string, i: int)
    requires |pattern| > 0 && OccursAt(s, pattern, i)
    ensures pattern[0] in s
  {
    assert s[i..i + |pattern|][0] == s[i];
  }

  /** An entry is flagged as a matrix exactly when its type is mat2, mat3 or mat4. */
  lemma MatrixFlag(t: string)
    requires t in SemanticTypes
    ensures IsMatrixKind(GetUniformType(t).value) <==> t in MatrixTypes
  {
    var kind := GetUniformType(t).value;
    if t in MatrixTypes {
      assert kind[7..13] == "Matrix";
      assert OccursAt(kind, "Matrix", 7);
    } else {
      assert 'M' !in kind;
      AbsentHead(kind, "Matrix");
    }
  }

  /** A declared uniform: `{type, value, wrapS?, wrapT?, filter?, flipY?}`. */
  datatype Descriptor = Descriptor(
    semanticType: string,
    value: Value,
    wrapS: Option<string>,
    wrapT: Option<string>,
    filter: Option<string>,
    flipY: Option<bool>)

  /** A plain object of descriptors: its keys in insertion order and its entries. */
  datatype Table = Table(keys: seq<string>, entries: map<string, Descriptor>)

  /** Keys are distinct and are exactly the keys of the entries. */
  ghost predicate WellFormed(t: Table)
  {
    && (forall i, j :: 0 <= i < j < |t.keys| ==> t.keys[i] != t.keys[j])
    && (forall k :: k in t.entries <==> k in t.keys)
  }

  /**
    Copies the listed own keys of a source object onto `target`, in order:
    a key already present keeps its place and takes the new value, a new key
    is appended.
  */
  function AssignFrom(target: Table, order: seq<string>, fields: map<string, Descriptor>): Table
    requires forall k :: k in order ==> k in fields
    decreases |order|
  {
    if order == [] then target
    else
      var k := order[0];
      AssignFrom(Table(if k in target.entries then target.keys else target.keys + [k],
                       target.entries[k := fields[k]]),
                 order[1..], fields)
  }

  /** Copying keys over keeps the table well formed, and later keys win. */
  lemma {:induction false} AssignFromEntries(target: Table, order: seq<string>, fields: map<string, Descriptor>)
    requires WellFormed(target)
    requires forall k :: k in order ==> k in fields
    ensures var r := AssignFrom(target, order, fields);
      && WellFormed(r)
      && (forall k :: k in r.entries <==> k in target.entries || k in order)
      && (forall k :: k in r.entries ==> r.entries[k] == if k in order then fields[k] else target.entries[k])
    decreases |order|
  {
    if order != [] {
      var k := order[0];
      var next := Table(if k in target.entries then target.keys else target.keys + [k],
                        target.entries[k := fields[k]]);
      assert WellFormed(next);
      AssignFromEntries(next, order[1..], fields);
      assert forall j :: j in order <==> j == k || j in order[1..];
    }
  }

  /** Copying keys over keeps the old key order in front. */
  lemma {:induction false} AssignFromKeys(target: Table, order: seq<string>, fields: map<string, Descriptor>)
    requires forall k :: k in order ==> k in fields
    ensures var r := AssignFrom(target, order, fields);
      |r.keys| >= |target.keys| && r.keys[..|target.keys|] == target.keys
    decreases |order|
  {
    if order != [] {
      var k := order[0];
      var next := Table(if k in target.entries then target.keys else target.keys + [k],
                        target.entries[k := fields[k]]);
      AssignFromKeys(next, order[1..], fields);
      var r := AssignFrom(next, order[1..], fields);
      assert r.keys[..|target.keys|] == r.keys[..|next.keys|][..|target.keys|];
    }
  }

  /** `Object.assign(target, source)`. */
  function Assign(target: Table, source: Table): (r: Table)
    requires WellFormed(target) && WellFormed(source)
    ensures WellFormed(r)
    ensures r.entries == target.entries + source.entries
    ensures |r.keys| >= |target.keys| && r.keys[..|target.keys|] == target.keys
  {
    AssignFromEntries(target, source.keys, source.entries);
    AssignFromKeys(target, source.keys, source.entries);
    AssignFrom(target, source.keys, source.entries)
  }

  /** The built-ins: `time`, a float at 0, and `resolution`, a vec2 at [1, 1]. */
  function BuiltIns(): (r: Table)
    ensures WellFormed(r)
  {
    Table(["time", "resolution"],
          map["time" := Descriptor("float", Scalar(0.0), None, None, None, None),
              "resolution" := Descriptor("vec2", Numbers([1.0, 1.0]), None, None, None, None)])
  }

  /**
    The table a renderer starts from: the built-ins first, with the caller's
    descriptors copied over them. A caller key wins on a collision, every
    other key of either side is kept, and `time` and `resolution` stay the
    first two keys.
  */
  function InitialTable(caller: Table): (r: Table)
    requires WellFormed(caller)
    ensures |r.keys| >= 2 && r.keys[0] == "time" && r.keys[1] == "resolution"
    ensures forall k :: k in r.entries <==> k == "time" || k == "resolution" || k in caller.entries
    ensures forall k :: k in caller.entries ==> r.entries[k] == caller.entries[k]
    ensures "time" !in caller.entries ==>
              r.entries["time"] == Descriptor("float", Scalar(0.0), None, None, None, None)
    ensures "resolution" !in caller.entries ==>
              r.entries["resolution"] == Descriptor("vec2", Numbers([1.0, 1.0]), None, None, None, None)
  {
    var r := Assign(BuiltIns(), caller);
    assert r.keys[..2] == ["time", "resolution"];
    r
  }

  /** The merged table is itself a well-formed table. */
  lemma InitialTableWellFormed(caller: Table)
    requires WellFormed(caller)
    ensures WellFormed(InitialTable(caller))
  {
    assert InitialTable(caller) == Assign(BuiltIns(), caller);
  }

  /** `value instanceof Image`. */
  predicate IsImageValue(v: Value)
  {
    v.Source? && v.image.isImage
  }

  /**
    `getUniformLocation`: a name the linked program has as an active
    uniform has a location; any other name, or any name when the program
    is absent, gets null.
  */
  function LocationOf(program: Option<Handle>, active: seq<string>, name: string): (r: Option<Location>)
    ensures r.Some? <==> program.Some? && name in active
    ensures r.Some? ==> r.value.name == name
  {
    if program.Some? && name in active then Some(Location(program.value, name)) else None
  }
}
