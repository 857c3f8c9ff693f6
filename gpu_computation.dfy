/**
 * The ping-pong bookkeeping of GPUComputationRenderer.js: the list of
 * computation variables, each with two render targets, a dependency list,
 * sampler uniforms and a fragment shader whose sampler declarations `init`
 * prepends, and the `currentTextureIndex` that `compute` flips after
 * rendering every variable from the current targets into the other ones.
 * A texture is a grid of reals; the GPU is a parameter that maps a shader
 * text and the textures its samplers are bound to onto the rendered grid.
 */
module GpuComputation {
  import opened Scene

  /** The texel contents of one texture. */
  type Grid = seq<real>

  /** What the GPU renders for a fragment shader, given the textures bound to its sampler uniforms by name. */
  type Gpu = (string, map<string, Grid>) -> Grid

  /**
   * One computation variable. A dependency is named by its variable's name.
   * A sampler uniform is `null` (None) or bound to render target t of the
   * variable it is named after (Some(t)).
   */
  datatype Variable = Variable(
    name: string,
    initial: Grid,
    shader: string,
    dependencies: Option<seq<string>>,
    targets: seq<Grid>,
    uniforms: map<string, Option<nat>>)

  /** The declared names, in declaration order. */
  function Names(vs: seq<Variable>): (names: seq<string>)
    ensures |names| == |vs| && forall j :: 0 <= j < |vs| ==> names[j] == vs[j].name
  {
    seq(|vs|, j requires 0 <= j < |vs| => vs[j].name)
  }

  /** Replacing a variable by one of the same name keeps the names. */
  lemma NamesUpdate(vs: seq<Variable>, i: nat, w: Variable)
    requires i < |vs| && w.name == vs[i].name
    ensures Names(vs[i := w]) == Names(vs)
  {
    assert forall j :: 0 <= j < |vs| ==> Names(vs[i := w])[j] == Names(vs)[j];
  }

  /** The first position of a name. */
  function Find(names: seq<string>, n: string): (r: Option<nat>)
    ensures r.Some? <==> n in names
    ensures r.Some? ==> r.value < |names| && names[r.value] == n
  {
    if names == [] then None
    else if names[0] == n then Some(0)
    else
      var r := Find(names[1..], n);
      if r.None? then None else Some(r.value + 1)
  }

  /** The dependency list, with `null` read as no dependencies. */
  function Deps(v: Variable): seq<string>
  {
    if v.dependencies.Some? then v.dependencies.value else []
  }

  // ---------------------------------------------------------------------
  // init
  // ---------------------------------------------------------------------

  const NoFloatTextures := "No OES_texture_float support for float textures."
  const NoVertexTextures := "No support for vertex shader textures."

  /** The sampler declaration `init` puts in front of a shader for one dependency. */
  function Declaration(d: string): string
  {
    "\nuniform sampler2D " + d + ";\n"
  }

  function NotFound(self: string, d: string): string
  {
    "Variable dependency not found. Variable=" + self + ", dependency=" + d
  }

  /** `init` accepts a dependency named after the variable itself or after any declared variable. */
  predicate Resolves(d: string, self: string, names: seq<string>)
  {
    d == self || d in names
  }

  /** Both render targets created and seeded with the initial texture. */
  function Seeded(v: Variable): Variable
  {
    v.(targets := [v.initial, v.initial])
  }

  /** One accepted dependency: its uniform created as null and its sampler declared in front of the shader. */
  function Declare(v: Variable, d: string): Variable
  {
    v.(uniforms := v.uniforms[d := None], shader := Declaration(d) + v.shader)
  }

  /** The shader after declaring each dependency in turn: the last one ends up first. */
  function Declared(deps: seq<string>, shader: string): string
  {
    if deps == [] then shader else Declaration(deps[|deps| - 1]) + Declared(deps[..|deps| - 1], shader)
  }

  /** The uniforms after creating each dependency's as null. */
  function Nulled(u: map<string, Option<nat>>, deps: seq<string>): map<string, Option<nat>>
  {
    if deps == [] then u else Nulled(u, deps[..|deps| - 1])[deps[|deps| - 1] := None]
  }

  /**
   * The dependency loop of `init` over the first k dependencies of a
   * variable: the error of the first one that does not resolve, and the
   * variable as that loop leaves it.
   */
  function DeclareUpTo(v: Variable, deps: seq<string>, names: seq<string>, k: nat): (r: (Option<string>, Variable))
    requires k <= |deps|
    ensures r.1.name == v.name
  {
    if k == 0 then (None, v)
    else
      var (e, w) := DeclareUpTo(v, deps, names, k - 1);
      if e.Some? then (e, w)
      else if !Resolves(deps[k - 1], v.name, names) then (Some(NotFound(v.name, deps[k - 1])), w)
      else (None, Declare(w, deps[k - 1]))
  }

  /** One iteration of `init`'s variable loop. */
  function InitVariable(v: Variable, names: seq<string>): (r: (Option<string>, Variable))
    ensures r.1.name == v.name
  {
    if v.dependencies.None? then (None, Seeded(v))
    else DeclareUpTo(Seeded(v), v.dependencies.value, names, |v.dependencies.value|)
  }

  /** `init`'s variable loop over the first i variables: the first error, and the variables as left. */
  function InitUpTo(vs: seq<Variable>, names: seq<string>, i: nat): (r: (Option<string>, seq<Variable>))
    requires i <= |vs|
    ensures |r.1| == |vs|
    ensures forall j :: i <= j < |vs| ==> r.1[j] == vs[j]
  {
    if i == 0 then (None, vs)
    else
      var (e, ws) := InitUpTo(vs, names, i - 1);
      if e.Some? then (e, ws)
      else
        var (e', w) := InitVariable(vs[i - 1], names);
        (e', ws[i - 1 := w])
  }

  /** What a successful `init` makes of a variable. */
  function Prepared(v: Variable): Variable
  {
    var s := Seeded(v);
    s.(uniforms := Nulled(v.uniforms, Deps(v)), shader := Declared(Deps(v), v.shader))
  }

  // ---------------------------------------------------------------------
  // compute
  // ---------------------------------------------------------------------

  /** The index of the target written by `compute`. */
  function Next(cur: nat): nat
  {
    if cur == 0 then 1 else 0
  }

  /** The uniforms after binding each dependency to render target `cur`. */
  function BindAll(u: map<string, Option<nat>>, deps: seq<string>, cur: nat): map<string, Option<nat>>
  {
    if deps == [] then u else BindAll(u, deps[..|deps| - 1], cur)[deps[|deps| - 1] := Some(cur)]
  }

  /** The texture each bound sampler reads: target t of the variable it is named after. */
  function Sampled(vs: seq<Variable>, u: map<string, Option<nat>>): map<string, Grid>
  {
    map n | n in u && u[n].Some? && n in Names(vs) && u[n].value < |vs[Find(Names(vs), n).value].targets|
      :: vs[Find(Names(vs), n).value].targets[u[n].value]
  }

  /** Both targets of every variable exist, and the current index is 0 or 1. */
  predicate Ready(vs: seq<Variable>, cur: nat)
  {
    cur <= 1 && forall j :: 0 <= j < |vs| ==> |vs[j].targets| == 2
  }

  /** One iteration of `compute`: bind the variable's dependencies to the current targets, then render into the other. */
  function StepVariable(vs: seq<Variable>, i: nat, cur: nat, gpu: Gpu): seq<Variable>
    requires i < |vs| && Next(cur) < |vs[i].targets|
  {
    var v := vs[i];
    var u := if v.dependencies.Some? then BindAll(v.uniforms, v.dependencies.value, cur) else v.uniforms;
    vs[i := v.(uniforms := u, targets := v.targets[Next(cur) := gpu(v.shader, Sampled(vs, u))])]
  }

  /** `compute`'s loop over the first i variables, each step seeing the state the earlier ones left. */
  function ComputeUpTo(vs: seq<Variable>, cur: nat, gpu: Gpu, i: nat): (r: seq<Variable>)
    requires i <= |vs| && Ready(vs, cur)
    ensures |r| == |vs| && Ready(r, cur)
    ensures forall j :: 0 <= j < |vs| ==> r[j].name == vs[j].name
    ensures forall j :: i <= j < |vs| ==> r[j] == vs[j]
  {
    if i == 0 then vs else StepVariable(ComputeUpTo(vs, cur, gpu, i - 1), i - 1, cur, gpu)
  }

  /** The textures a variable's dependencies name, read from target `cur` of the state before the step. */
  function DepInputs(vs: seq<Variable>, deps: seq<string>, cur: nat): map<string, Grid>
    requires Ready(vs, cur)
  {
    map d | d in deps && d in Names(vs) :: vs[Find(Names(vs), d).value].targets[cur]
  }

  /** Every sampler uniform of every variable is one of its dependencies (as `init` leaves a fresh variable). */
  predicate WellBound(vs: seq<Variable>)
  {
    forall j, n :: 0 <= j < |vs| && n in vs[j].uniforms ==> n in Deps(vs[j])
  }

  // ---------------------------------------------------------------------
  // The renderer
  // ---------------------------------------------------------------------

  class ComputationRenderer {
    const sizeX: int
    const sizeY: int
    var variables: seq<Variable>
    var currentTextureIndex: nat

    constructor (sizeX: int, sizeY: int)
      ensures this.sizeX == sizeX && this.sizeY == sizeY
      ensures variables == [] && currentTextureIndex == 0
    {
      this.sizeX := sizeX;
      this.sizeY := sizeY;
      variables := [];
      currentTextureIndex := 0;
    }

    /** `addVariable`: appends a variable with no dependencies, no targets and no uniforms; the handle is its position. */
    method AddVariable(name: string, shader: string, initial: Grid) returns (handle: nat)
      modifies this
      ensures variables == old(variables) + [Variable(name, initial, shader, None, [], map[])]
      ensures handle == |old(variables)| && currentTextureIndex == old(currentTextureIndex)
    {
      handle := |variables|;
      variables := variables + [Variable(name, initial, shader, None, [], map[])];
    }

    /** `setVariableDependencies`: replaces one variable's dependency list. */
    method SetVariableDependencies(handle: nat, dependencies: Option<seq<string>>)
      requires handle < |variables|
      modifies this
      ensures variables == old(variables)[handle := old(variables)[handle].(dependencies := dependencies)]
      ensures currentTextureIndex == old(currentTextureIndex)
    {
      variables := variables[handle := variables[handle].(dependencies := dependencies)];
    }

    /** The search loop of `init`: whether some declared variable has this name. */
    method IsDeclared(n: string) returns (found: bool)
      ensures found <==> n in Names(variables)
    {
      for j := 0 to |variables|
        invariant forall k :: 0 <= k < j ==> variables[k].name != n
      {
        if n == variables[j].name {
          return true;
        }
      }
      return false;
    }

    /**
     * `init`: the two capability checks, then every variable in turn gets
     * two seeded targets and, dependency by dependency, a null uniform and
     * a sampler declaration, stopping at the first dependency that does not
     * resolve; on success the current index is reset to 0.
     */
    method Init(isWebGL2: bool, hasFloatExtension: bool, maxVertexTextures: int) returns (error: Option<string>)
      modifies this
      ensures !isWebGL2 && !hasFloatExtension ==> error == Some(NoFloatTextures)
      ensures (isWebGL2 || hasFloatExtension) && maxVertexTextures == 0 ==> error == Some(NoVertexTextures)
      ensures (!isWebGL2 && !hasFloatExtension) || maxVertexTextures == 0 ==>
        variables == old(variables) && currentTextureIndex == old(currentTextureIndex)
      ensures (isWebGL2 || hasFloatExtension) && maxVertexTextures != 0 ==>
        (error, variables) == InitUpTo(old(variables), Names(old(variables)), |old(variables)|)
      ensures currentTextureIndex == if error.None? then 0 else old(currentTextureIndex)
    {
      if !isWebGL2 && !hasFloatExtension {
        return Some(NoFloatTextures);
      }
      if maxVertexTextures == 0 {
        return Some(NoVertexTextures);
      }
      error := InitVariables();
      if error.None? {
        currentTextureIndex := 0;
      }
    }

    /** The variable loop of `init`, stopping at the first error. */
    method InitVariables() returns (error: Option<string>)
      modifies this
      ensures (error, variables) == InitUpTo(old(variables), Names(old(variables)), |old(variables)|)
      ensures currentTextureIndex == old(currentTextureIndex)
    {
      ghost var vs := variables;
      ghost var names := Names(vs);
      for i := 0 to |variables|
        invariant |variables| == |vs| && Names(variables) == names
        invariant InitUpTo(vs, names, i).0 == None && InitUpTo(vs, names, i).1 == variables
        invariant currentTextureIndex == old(currentTextureIndex)
      {
        ghost var before := variables;
        error := InitOne(i);
        NamesUpdate(before, i, variables[i]);
        if error.Some? {
          InitSticks(vs, names, i + 1, |vs|);
          return;
        }
      }
      return None;
    }

    /** One iteration of `init`'s variable loop, on variable i. */
    method InitOne(i: nat) returns (error: Option<string>)
      requires i < |variables|
      modifies this
      ensures var (e, w) := InitVariable(old(variables)[i], Names(old(variables)));
        error == e && variables == old(variables)[i := w]
      ensures currentTextureIndex == old(currentTextureIndex)
    {
      var v := variables[i];
      var w := Seeded(v);
      if v.dependencies.Some? {
        var deps := v.dependencies.value;
        for k := 0 to |deps|
          invariant variables == old(variables) && currentTextureIndex == old(currentTextureIndex)
          invariant DeclareUpTo(Seeded(v), deps, Names(variables), k) == (None, w)
        {
          var d := deps[k];
          if d != v.name {
            var found := IsDeclared(d);
            if !found {
              DeclareSticks(Seeded(v), deps, Names(variables), k + 1, |deps|);
              variables := variables[i := w];
              return Some(NotFound(v.name, d));
            }
          }
          w := Declare(w, d);
        }
      }
      variables := variables[i := w];
      return None;
    }

    /**
     * `compute`: every variable in declaration order has its dependency
     * uniforms bound to the current targets and is rendered into the other
     * target; then the current index flips.
     */
    method Compute(gpu: Gpu)
      requires Ready(variables, currentTextureIndex)
      modifies this
      ensures variables == ComputeUpTo(old(variables), old(currentTextureIndex), gpu, |old(variables)|)
      ensures currentTextureIndex == Next(old(currentTextureIndex))
    {
      var cur := currentTextureIndex;
      var next := if cur == 0 then 1 else 0;
      ghost var vs := variables;
      for i := 0 to |variables|
        invariant variables == ComputeUpTo(vs, cur, gpu, i)
      {
        var v := variables[i];
        var u := v.uniforms;
        if v.dependencies.Some? {
          u := BindUniforms(v.uniforms, v.dependencies.value, cur);
        }
        var out := gpu(v.shader, Sampled(variables, u));
        variables := variables[i := v.(uniforms := u, targets := v.targets[next := out])];
      }
      currentTextureIndex := next;
    }

    /** `getCurrentRenderTarget`: the variable's target at the current index, if it exists. */
    function CurrentTarget(handle: nat): (t: Option<Grid>)
      requires handle < |variables|
      reads this
      ensures t.Some? <==> currentTextureIndex < |variables[handle].targets|
    {
      var ts := variables[handle].targets;
      if currentTextureIndex < |ts| then Some(ts[currentTextureIndex]) else None
    }

    /** `getAlternateRenderTarget`: the variable's other target, if it exists. */
    function AlternateTarget(handle: nat): (t: Option<Grid>)
      requires handle < |variables|
      reads this
      ensures t.Some? <==> Next(currentTextureIndex) < |variables[handle].targets|
    {
      var ts := variables[handle].targets;
      if Next(currentTextureIndex) < |ts| then Some(ts[Next(currentTextureIndex)]) else None
    }
  }

  /** The dependency loop of `compute`: each dependency's uniform bound to target `cur`. */
  method BindUniforms(u0: map<string, Option<nat>>, deps: seq<string>, cur: nat) returns (u: map<string, Option<nat>>)
    ensures u == BindAll(u0, deps, cur)
  {
    u := u0;
    for d := 0 to |deps|
      invariant u == BindAll(u0, deps[..d], cur)
    {
      assert deps[..d + 1][..d] == deps[..d];
      u := u[deps[d] := Some(cur)];
    }
    assert deps[..|deps|] == deps;
  }

  // ---------------------------------------------------------------------
  // Properties of init
  // ---------------------------------------------------------------------

  /** Once the dependency loop has failed, later dependencies change nothing. */
  lemma {:induction false} DeclareSticks(v: Variable, deps: seq<string>, names: seq<string>, k: nat, m: nat)
    requires k <= m <= |deps| && DeclareUpTo(v, deps, names, k).0.Some?
    ensures DeclareUpTo(v, deps, names, m) == DeclareUpTo(v, deps, names, k)
    decreases m
  {
    if k < m {
      DeclareSticks(v, deps, names, k, m - 1);
    }
  }

  /** Once the variable loop has failed, later variables are left alone. */
  lemma {:induction false} InitSticks(vs: seq<Variable>, names: seq<string>, i: nat, m: nat)
    requires i <= m <= |vs| && InitUpTo(vs, names, i).0.Some?
    ensures InitUpTo(vs, names, m) == InitUpTo(vs, names, i)
    decreases m
  {
    if i < m {
      InitSticks(vs, names, i, m - 1);
    }
  }

  /**
   * The dependency loop fails exactly when one of the first k dependencies
   * does not resolve, and otherwise declares each of them in turn.
   */
  lemma {:induction false} DeclareUpToMeaning(v: Variable, deps: seq<string>, names: seq<string>, k: nat)
    requires k <= |deps|
    ensures var (e, w) := DeclareUpTo(v, deps, names, k);
      (e.None? <==> forall j :: 0 <= j < k ==> Resolves(deps[j], v.name, names))
      && (e.None? ==> w == v.(uniforms := Nulled(v.uniforms, deps[..k]), shader := Declared(deps[..k], v.shader)))
  {
    if k > 0 {
      DeclareUpToMeaning(v, deps, names, k - 1);
      assert deps[..k][..k - 1] == deps[..k - 1];
    }
  }

  /** A variable passes `init` exactly when each of its dependencies resolves, and then it is Prepared. */
  lemma InitVariableMeaning(v: Variable, names: seq<string>)
    ensures var (e, w) := InitVariable(v, names);
      (e.None? <==> forall d :: d in Deps(v) ==> Resolves(d, v.name, names))
      && (e.None? ==> w == Prepared(v))
  {
    if v.dependencies.Some? {
      var deps := v.dependencies.value;
      DeclareUpToMeaning(Seeded(v), deps, names, |deps|);
      assert deps[..|deps|] == deps;
    }
  }

  /**
   * `init` succeeds exactly when every dependency of every variable
   * resolves, and then every variable is Prepared.
   */
  lemma {:induction false} InitSucceedsIff(vs: seq<Variable>, names: seq<string>, i: nat)
    requires i <= |vs|
    ensures var (e, ws) := InitUpTo(vs, names, i);
      (e.None? <==> forall j, d :: 0 <= j < i && d in Deps(vs[j]) ==> Resolves(d, vs[j].name, names))
      && (e.None? ==> forall j :: 0 <= j < i ==> ws[j] == Prepared(vs[j]))
  {
    if i > 0 {
      InitSucceedsIff(vs, names, i - 1);
      InitVariableMeaning(vs[i - 1], names);
    }
  }

  /**
   * When `init` fails, the error names a variable and one of its
   * dependencies that does not resolve; the variables before it are
   * Prepared and those after it untouched.
   */
  lemma {:induction false} InitFailure(vs: seq<Variable>, names: seq<string>, i: nat)
    requires i <= |vs| && InitUpTo(vs, names, i).0.Some?
    ensures var (e, ws) := InitUpTo(vs, names, i);
      exists f, d :: 0 <= f < i && d in Deps(vs[f]) && !Resolves(d, vs[f].name, names)
        && e == Some(NotFound(vs[f].name, d))
        && (forall j :: 0 <= j < f ==> ws[j] == Prepared(vs[j]))
        && (forall j :: f < j < |vs| ==> ws[j] == vs[j])
  {
    var (e, ws) := InitUpTo(vs, names, i - 1);
    if e.Some? {
      InitFailure(vs, names, i - 1);
    } else {
      InitSucceedsIff(vs, names, i - 1);
      var v := vs[i - 1];
      var deps := v.dependencies.value;
      var k := FailingDependency(Seeded(v), deps, names, |deps|);
      assert deps[k] in Deps(v);
    }
  }

  /** The dependency whose check fails the dependency loop. */
  lemma {:induction false} FailingDependency(v: Variable, deps: seq<string>, names: seq<string>, k: nat)
    returns (f: nat)
    requires k <= |deps| && DeclareUpTo(v, deps, names, k).0.Some?
    ensures f < k && !Resolves(deps[f], v.name, names)
    ensures DeclareUpTo(v, deps, names, k).0 == Some(NotFound(v.name, deps[f]))
  {
    if DeclareUpTo(v, deps, names, k - 1).0.Some? {
      f := FailingDependency(v, deps, names, k - 1);
    } else {
      f := k - 1;
    }
  }

  /** After a successful `init` a variable has exactly two targets, both its initial texture. */
  lemma PreparedTargets(v: Variable)
    ensures Prepared(v).targets == [v.initial, v.initial]
    ensures Prepared(v).name == v.name && Prepared(v).dependencies == v.dependencies
  {
  }

  /** Declaring a then b is declaring b in front of the result of declaring a. */
  lemma {:induction false} DeclaredAppend(a: seq<string>, b: seq<string>, shader: string)
    ensures Declared(a + b, shader) == Declared(b, Declared(a, shader))
    decreases |b|
  {
    if b != [] {
      var b' := b[..|b| - 1];
      assert (a + b)[..|a + b| - 1] == a + b';
      DeclaredAppend(a, b', shader);
    } else {
      assert a + b == a;
    }
  }

  /** The original shader text stays at the end, after all the declarations. */
  lemma {:induction false} DeclaredKeepsShader(deps: seq<string>, shader: string)
    ensures |Declared(deps, shader)| >= |shader|
    ensures Declared(deps, shader)[|Declared(deps, shader)| - |shader|..] == shader
  {
    if deps != [] {
      DeclaredKeepsShader(deps[..|deps| - 1], shader);
    }
  }

  /** The uniforms gain exactly the dependencies, all null, and keep every other entry. */
  lemma {:induction false} NulledMeaning(u: map<string, Option<nat>>, deps: seq<string>)
    ensures forall n :: n in Nulled(u, deps) <==> n in u || n in deps
    ensures forall n :: n in deps ==> Nulled(u, deps)[n] == None
    ensures forall n :: n in u && n !in deps ==> Nulled(u, deps)[n] == u[n]
  {
    if deps != [] {
      NulledMeaning(u, deps[..|deps| - 1]);
      assert forall n :: n in deps <==> n in deps[..|deps| - 1] || n == deps[|deps| - 1];
    }
  }

  /** A successful `init` of variables without uniforms leaves every uniform one of its dependencies. */
  lemma InitWellBound(vs: seq<Variable>, names: seq<string>)
    requires forall j :: 0 <= j < |vs| ==> vs[j].uniforms == map[]
    requires InitUpTo(vs, names, |vs|).0.None?
    ensures WellBound(InitUpTo(vs, names, |vs|).1) && Ready(InitUpTo(vs, names, |vs|).1, 0)
  {
    InitSucceedsIff(vs, names, |vs|);
    var ws := InitUpTo(vs, names, |vs|).1;
    forall j | 0 <= j < |vs|
      ensures forall n :: n in ws[j].uniforms ==> n in Deps(ws[j])
      ensures |ws[j].targets| == 2
    {
      NulledMeaning(vs[j].uniforms, Deps(vs[j]));
    }
  }

  // ---------------------------------------------------------------------
  // Properties of compute
  // ---------------------------------------------------------------------

  /** Two computes restore the current index. */
  lemma NextTwice(cur: nat)
    requires cur <= 1
    ensures Next(cur) != cur && Next(Next(cur)) == cur
  {
  }

  /** Binding gives every dependency the current target and keeps every other uniform. */
  lemma {:induction false} BindAllMeaning(u: map<string, Option<nat>>, deps: seq<string>, cur: nat)
    ensures forall n :: n in BindAll(u, deps, cur) <==> n in u || n in deps
    ensures forall n :: n in deps ==> BindAll(u, deps, cur)[n] == Some(cur)
    ensures forall n :: n in u && n !in deps ==> BindAll(u, deps, cur)[n] == u[n]
  {
    if deps != [] {
      BindAllMeaning(u, deps[..|deps| - 1], cur);
      assert forall n :: n in deps <==> n in deps[..|deps| - 1] || n == deps[|deps| - 1];
    }
  }

  /**
   * With the uniforms bound to the dependencies only, the GPU samples
   * exactly the dependencies' current targets, in any state that agrees
   * with vs on names and current targets.
   */
  lemma SampledIsDepInputs(ws: seq<Variable>, vs: seq<Variable>, v: Variable, cur: nat)
    requires Ready(vs, cur) && Ready(ws, cur) && |ws| == |vs|
    requires forall j :: 0 <= j < |vs| ==> ws[j].name == vs[j].name && ws[j].targets[cur] == vs[j].targets[cur]
    requires forall n :: n in v.uniforms ==> n in Deps(v)
    ensures Sampled(ws, BindAll(v.uniforms, Deps(v), cur)) == DepInputs(vs, Deps(v), cur)
  {
    var u := BindAll(v.uniforms, Deps(v), cur);
    BindAllMeaning(v.uniforms, Deps(v), cur);
    SampledCurrent(ws, vs, u, Deps(v), cur);
  }

  /** Samplers bound to target `cur` of exactly the dependencies read the dependencies' current targets. */
  lemma SampledCurrent(ws: seq<Variable>, vs: seq<Variable>, u: map<string, Option<nat>>, deps: seq<string>, cur: nat)
    requires Ready(vs, cur) && Ready(ws, cur) && |ws| == |vs|
    requires forall j :: 0 <= j < |vs| ==> ws[j].name == vs[j].name && ws[j].targets[cur] == vs[j].targets[cur]
    requires forall n :: n in u <==> n in deps
    requires forall n :: n in u ==> u[n] == Some(cur)
    ensures Sampled(ws, u) == DepInputs(vs, deps, cur)
  {
    assert Names(ws) == Names(vs);
    var a, b := Sampled(ws, u), DepInputs(vs, deps, cur);
    assert a.Keys == b.Keys;
  }

  /** What `compute` leaves after the first i variables, stated against the state before it. */
  predicate ComputedUpTo(vs: seq<Variable>, r: seq<Variable>, cur: nat, gpu: Gpu, i: nat)
    requires Ready(vs, cur) && Ready(r, cur) && |r| == |vs| && i <= |vs|
  {
    (forall j :: 0 <= j < |vs| ==> r[j].name == vs[j].name && r[j].targets[cur] == vs[j].targets[cur])
    && (forall j :: 0 <= j < i ==> r[j].targets[Next(cur)] == gpu(vs[j].shader, DepInputs(vs, Deps(vs[j]), cur)))
  }

  /**
   * No variable sees a write of the same step: when every uniform is one of
   * its variable's dependencies, each variable's new target is rendered
   * from its dependencies' current targets as they were before `compute`,
   * and no current target changes.
   */
  lemma {:induction false} ComputeReadsPreStep(vs: seq<Variable>, cur: nat, gpu: Gpu, i: nat)
    requires i <= |vs| && Ready(vs, cur) && WellBound(vs)
    ensures ComputedUpTo(vs, ComputeUpTo(vs, cur, gpu, i), cur, gpu, i)
  {
    if i > 0 {
      ComputeReadsPreStep(vs, cur, gpu, i - 1);
      ComputeStep(vs, ComputeUpTo(vs, cur, gpu, i - 1), cur, gpu, i - 1);
    }
  }

  /** One step of `compute` extends what has been rendered from the pre-step state by variable i. */
  lemma ComputeStep(vs: seq<Variable>, r: seq<Variable>, cur: nat, gpu: Gpu, i: nat)
    requires i < |vs| && Ready(vs, cur) && Ready(r, cur) && |r| == |vs| && WellBound(vs)
    requires ComputedUpTo(vs, r, cur, gpu, i) && r[i] == vs[i]
    ensures Ready(StepVariable(r, i, cur, gpu), cur)
    ensures ComputedUpTo(vs, StepVariable(r, i, cur, gpu), cur, gpu, i + 1)
  {
    var v := vs[i];
    SampledIsDepInputs(r, vs, v, cur);
    var u := BindAll(v.uniforms, Deps(v), cur);
    assert StepVariable(r, i, cur, gpu)
        == r[i := v.(uniforms := u, targets := v.targets[Next(cur) := gpu(v.shader, DepInputs(vs, Deps(v), cur))])];
  }

  /**
   * Ping-pong: after `compute` flips the index, the current target of every
   * variable holds the freshly rendered texture and the alternate one holds
   * the texture that was current before.
   */
  lemma PingPong(vs: seq<Variable>, cur: nat, gpu: Gpu)
    requires Ready(vs, cur) && WellBound(vs)
    ensures var r := ComputeUpTo(vs, cur, gpu, |vs|);
      forall j :: 0 <= j < |vs| ==>
        r[j].targets[Next(cur)] == gpu(vs[j].shader, DepInputs(vs, Deps(vs[j]), cur))
        && r[j].targets[Next(Next(cur))] == vs[j].targets[cur]
  {
    ComputeReadsPreStep(vs, cur, gpu, |vs|);
  }
}
