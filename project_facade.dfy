/**
 * The construction gate of the user-facing `Project` facade: the ordered
 * checks `new Project(id, config)` runs before it creates the underlying
 * project and associates it with the facade.
 */
module ProjectFacade {
  import opened JsValues

  /** The kinds of `InvalidArgumentError` the constructor can throw, one per check. */
  datatype ProjectError =
    | Duplicate       // the id is already registered
    | IdNotString     // `typeof id !== 'string'`
    | IdWhitespace    // trimming the id changes its length
    | IdTooShort      // the trimmed id has fewer than 3 code units
    | MissingState    // core mode and `config.state` is falsy
    | MalformedState  // core mode and the state fails the shallow check
    | InvalidState    // full mode and the state fails the schema
  {
    predicate IsIdError()
    {
      IdNotString? || IdWhitespace? || IdTooShort?
    }
  }

  datatype Option<T> = None | Some(value: T)

  /** A check either passes or throws one kind of error. */
  datatype Outcome = Pass | Fail(error: ProjectError)

  /** The configuration object; its other fields are handed to the project untouched. */
  datatype Conf = Conf(state: JsValue)

  /** `config` defaults to `{}`: no state at all. */
  const EmptyConf := Conf(Undefined)

  /**
   * The build-time environment: `$env.NODE_ENV`, `$env.tl.isCore` and
   * `$env.tl.currentProjectStateDefinitionVersion`.
   */
  datatype Env = Env(nodeEnv: JsValue, isCore: JsValue, currentVersion: JsString)

  /** "development" */
  const Development: JsString := [0x64, 0x65, 0x76, 0x65, 0x6C, 0x6F, 0x70, 0x6D, 0x65, 0x6E, 0x74]

  /** "definitionVersion" */
  const DefinitionVersionKey: JsString :=
    [0x64, 0x65, 0x66, 0x69, 0x6E, 0x69, 0x74, 0x69, 0x6F, 0x6E, 0x56, 0x65, 0x72, 0x73, 0x69, 0x6F, 0x6E]

  /** `$env.NODE_ENV === 'development' || $env.tl.isCore === false`: strict comparisons, not truthiness. */
  predicate ValidatesId(env: Env)
  {
    env.nodeEnv == Str(Development) || env.isCore == Bool(false)
  }

  /** The branch taken on `if ($env.tl.isCore)`, a truthiness test. */
  predicate InCoreMode(env: Env)
  {
    Truthy(env.isCore)
  }

  /** What an acceptable project id is: a string of at least 3 code units with no surrounding whitespace. */
  predicate WellFormedId(id: JsValue)
  {
    id.Str? && !HasSurroundingWhitespace(id.s) && |id.s| >= 3
  }

  /**
   * `validateProjectIdOrThrow`: the type check, then the whitespace check,
   * then the length check, each throwing its own kind.
   */
  function ValidateProjectId(id: JsValue): (r: Outcome)
    ensures r.Pass? <==> WellFormedId(id)
    ensures r == Fail(IdNotString) <==> !id.Str?
    ensures r == Fail(IdWhitespace) <==> id.Str? && HasSurroundingWhitespace(id.s)
    ensures r == Fail(IdTooShort) <==> id.Str? && !HasSurroundingWhitespace(id.s) && |id.s| < 3
  {
    if !id.Str? then Fail(IdNotString)
    else
      var trimmed := Trim(id.s);
      if |trimmed| != |id.s| then Fail(IdWhitespace)
      else if |trimmed| < 3 then Fail(IdTooShort)
      else Pass
  }

  /**
   * `s.definitionVersion` on a value that is neither null nor undefined:
   * an object's own property, and `undefined` for every other kind of value.
   */
  function DefinitionVersionOf(s: JsValue): JsValue
    requires !IsNullish(s)
  {
    if s.Obj? && DefinitionVersionKey in s.props then s.props[DefinitionVersionKey] else Undefined
  }

  /** What the shallow check lets through: an object whose `definitionVersion` is the current version string. */
  predicate CarriesCurrentVersion(s: JsValue, currentVersion: JsString)
  {
    s.Obj? && DefinitionVersionKey in s.props && s.props[DefinitionVersionKey] == Str(currentVersion)
  }

  /** `shallowValidateOnDiskState`: rejects arrays, null and undefined, and any other definition version. */
  function ShallowValidateOnDiskState(s: JsValue, currentVersion: JsString): (r: Outcome)
    ensures r.Pass? || r == Fail(MalformedState)
    ensures r.Pass? <==> CarriesCurrentVersion(s, currentVersion)
  {
    if s.Arr? || IsNullish(s) || DefinitionVersionOf(s) != Str(currentVersion) then Fail(MalformedState)
    else Pass
  }

  /**
   * `deepValidateOnDiskState`: runs the schema validator `schema` (the
   * `$OnDiskState` type's `validate`) and throws when it reports errors.
   */
  function DeepValidateOnDiskState(s: JsValue, schema: JsValue -> bool): (r: Outcome)
    ensures r.Pass? <==> schema(s)
    ensures r.Pass? || r == Fail(InvalidState)
  {
    if !schema(s) then Fail(InvalidState) else Pass
  }

  /**
   * The state a project may start from: in core mode a present object of the
   * current definition version; in full mode no state at all (any falsy
   * value) or one the schema accepts.
   */
  predicate AcceptableState(env: Env, state: JsValue, schema: JsValue -> bool)
  {
    if InCoreMode(env) then CarriesCurrentVersion(state, env.currentVersion)
    else !Truthy(state) || schema(state)
  }

  /** The state checks of the constructor, in core or in full mode. */
  function ValidateState(env: Env, state: JsValue, schema: JsValue -> bool): (r: Outcome)
    ensures r.Pass? <==> AcceptableState(env, state, schema)
    ensures r.Fail? && InCoreMode(env) ==> r.error == (if Truthy(state) then MalformedState else MissingState)
    ensures r.Fail? && !InCoreMode(env) ==> r.error == InvalidState && Truthy(state)
  {
    if InCoreMode(env) then
      if !Truthy(state) then Fail(MissingState)
      else ShallowValidateOnDiskState(state, env.currentVersion)
    else if Truthy(state) then DeepValidateOnDiskState(state, schema)
    else Pass
  }

  /**
   * The outcome of `new Project(id, config)` against a registry holding the
   * ids in `registry`: the duplicate check, the id checks when the
   * environment asks for them, then the state checks.
   */
  function CheckNewProject(registry: set<JsValue>, id: JsValue, config: Conf, env: Env, schema: JsValue -> bool): (r: Outcome)
    ensures id in registry <==> r == Fail(Duplicate)
    ensures r.Fail? && r.error.IsIdError() ==> ValidatesId(env) && id !in registry && !WellFormedId(id)
  {
    if id in registry then Fail(Duplicate)
    else if ValidatesId(env) && ValidateProjectId(id).Fail? then ValidateProjectId(id)
    else ValidateState(env, config.state, schema)
  }

  /** A construction succeeds exactly when the id is new, well formed where it is checked, and the state acceptable. */
  lemma CheckNewProjectPasses(registry: set<JsValue>, id: JsValue, config: Conf, env: Env, schema: JsValue -> bool)
    ensures CheckNewProject(registry, id, config, env, schema) == Pass
        <==> && id !in registry
             && (ValidatesId(env) ==> WellFormedId(id))
             && AcceptableState(env, config.state, schema)
  {
  }

  /**
   * A duplicate id is reported as such even when it is also malformed and the
   * state is unacceptable: an instance of the first postcondition of
   * `CheckNewProject`, spelled out for the inputs every later check would reject.
   */
  lemma DuplicateReportedFirst(registry: set<JsValue>, id: JsValue, config: Conf, env: Env, schema: JsValue -> bool)
    requires id in registry
    requires ValidatesId(env) && !WellFormedId(id)
    requires !AcceptableState(env, config.state, schema)
    ensures CheckNewProject(registry, id, config, env, schema) == Fail(Duplicate)
  {
  }

  /** When the id is checked and fails, its error wins over any state error, whatever the configuration. */
  lemma IdErrorPrecedesStateErrors(registry: set<JsValue>, id: JsValue, config: Conf, env: Env, schema: JsValue -> bool)
    requires id !in registry && ValidatesId(env) && !WellFormedId(id)
    ensures CheckNewProject(registry, id, config, env, schema) == ValidateProjectId(id)
    ensures CheckNewProject(registry, id, config, env, schema).Fail?
    ensures CheckNewProject(registry, id, config, env, schema).error.IsIdError()
  {
  }

  /**
   * In production core mode the id is never inspected beyond the duplicate
   * check: any two new ids, well formed or not, get the same outcome.
   */
  lemma IdIgnoredWithoutValidation(registry: set<JsValue>, id1: JsValue, id2: JsValue, config: Conf, env: Env, schema: JsValue -> bool)
    requires !ValidatesId(env) && id1 !in registry && id2 !in registry
    ensures CheckNewProject(registry, id1, config, env, schema) == CheckNewProject(registry, id2, config, env, schema)
    ensures CheckNewProject(registry, id1, config, env, schema) == ValidateState(env, config.state, schema)
  {
  }

  /**
   * In core mode, past the id checks: a falsy state is missing, and a present
   * one is malformed exactly when it is an array, null or undefined, or
   * carries another definition version.
   */
  lemma CoreModeStateOutcome(registry: set<JsValue>, id: JsValue, config: Conf, env: Env, schema: JsValue -> bool)
    requires InCoreMode(env) && id !in registry && (ValidatesId(env) ==> WellFormedId(id))
    ensures var r := CheckNewProject(registry, id, config, env, schema);
      && (r == Fail(MissingState) <==> !Truthy(config.state))
      && (r == Fail(MalformedState) <==>
            Truthy(config.state)
            && (config.state.Arr? || IsNullish(config.state) || DefinitionVersionOf(config.state) != Str(env.currentVersion)))
      && (r == Pass <==> Truthy(config.state) && CarriesCurrentVersion(config.state, env.currentVersion))
  {
  }

  /**
   * In full mode, past the id checks: an absent (falsy) state is accepted
   * unchecked, and a present one passes exactly when the schema accepts it;
   * the shallow check plays no part, so even an array the schema accepts passes.
   */
  lemma FullModeStateOutcome(registry: set<JsValue>, id: JsValue, config: Conf, env: Env, schema: JsValue -> bool)
    requires !InCoreMode(env) && id !in registry && (ValidatesId(env) ==> WellFormedId(id))
    ensures var r := CheckNewProject(registry, id, config, env, schema);
      && (!Truthy(config.state) ==> r == Pass)
      && (Truthy(config.state) ==> (r == Pass <==> schema(config.state)))
      && (r.Fail? ==> r.error == InvalidState)
  {
  }

  /** Omitting `config` is the same as passing `{}`, and in core mode fails for want of a state. */
  lemma OmittedConfigHasNoState(registry: set<JsValue>, id: JsValue, env: Env, schema: JsValue -> bool)
    requires id !in registry && (ValidatesId(env) ==> WellFormedId(id))
    ensures CheckNewProject(registry, id, EmptyConf, env, schema) == (if InCoreMode(env) then Fail(MissingState) else Pass)
  {
  }

  /** An `isCore` left undefined in production selects neither the id checks nor core mode. */
  lemma UndefinedIsCoreInProduction(env: Env)
    requires env.isCore == Undefined && env.nodeEnv != Str(Development)
    ensures !ValidatesId(env) && !InCoreMode(env)
  {
  }

  /** The full development environment the id examples run in. */
  const DevFull := Env(Str(Development), Bool(false), [])

  /** A number is not a string: `new Project(42)` throws the type error. */
  lemma NonStringIdExample(schema: JsValue -> bool)
    ensures CheckNewProject({}, Num(42), EmptyConf, DevFull, schema) == Fail(IdNotString)
  {
  }

  /** "  abc", "   " and " a" throw the whitespace error, the last two before their length is looked at. */
  lemma WhitespaceIdExamples(schema: JsValue -> bool)
    ensures CheckNewProject({}, Str([0x20, 0x20, 0x61, 0x62, 0x63]), EmptyConf, DevFull, schema) == Fail(IdWhitespace)
    ensures CheckNewProject({}, Str([0x20, 0x20, 0x20]), EmptyConf, DevFull, schema) == Fail(IdWhitespace)
    ensures CheckNewProject({}, Str([0x20, 0x61]), EmptyConf, DevFull, schema) == Fail(IdWhitespace)
  {
    assert ValidateProjectId(Str([0x20, 0x20, 0x61, 0x62, 0x63])) == Fail(IdWhitespace);
    assert ValidateProjectId(Str([0x20, 0x20, 0x20])) == Fail(IdWhitespace);
    assert ValidateProjectId(Str([0x20, 0x61])) == Fail(IdWhitespace);
  }

  /** A lower-case ASCII letter, `a` to `z`. */
  predicate IsLowerLetter(c: CodeUnit)
  {
    0x61 <= c <= 0x7A
  }

  /** Two letters, such as "ab", and the empty string throw the length error. */
  lemma ShortIdExamples(a: CodeUnit, b: CodeUnit, schema: JsValue -> bool)
    requires IsLowerLetter(a) && IsLowerLetter(b)
    ensures CheckNewProject({}, Str([a, b]), EmptyConf, DevFull, schema) == Fail(IdTooShort)
    ensures CheckNewProject({}, Str([]), EmptyConf, DevFull, schema) == Fail(IdTooShort)
  {
    assert !HasSurroundingWhitespace([a, b]);
  }

  /** Three letters, such as "abc", with no state are accepted in full development mode. */
  lemma ValidIdExample(a: CodeUnit, b: CodeUnit, c: CodeUnit, schema: JsValue -> bool)
    requires IsLowerLetter(a) && IsLowerLetter(b) && IsLowerLetter(c)
    ensures CheckNewProject({}, Str([a, b, c]), EmptyConf, DevFull, schema) == Pass
  {
    assert !HasSurroundingWhitespace([a, b, c]);
  }

  /** Concrete outcomes in production core mode: no state, an old version, an array. */
  lemma CoreStateExamples(current: JsString, stale: JsString, schema: JsValue -> bool)
    requires stale != current
    ensures var env := Env(Str([]), Bool(true), current);
      var id := Str([0x61, 0x62, 0x63]);
      && CheckNewProject({}, id, EmptyConf, env, schema) == Fail(MissingState)
      && CheckNewProject({}, id, Conf(Obj(map[DefinitionVersionKey := Str(stale)])), env, schema) == Fail(MalformedState)
      && CheckNewProject({}, id, Conf(Arr([])), env, schema) == Fail(MalformedState)
      && CheckNewProject({}, id, Conf(Obj(map[DefinitionVersionKey := Str(current)])), env, schema) == Pass
  {
  }

  /** The underlying project, created only once every check has passed; it keeps its id and configuration. */
  datatype Project = Project(id: JsValue, config: Conf)

  /** The facade object handed to the user; its identity keys the side table. */
  class TheatreJSProject {
    constructor ()
    {
    }
  }

  /** What `new Project(id, config)` produces: a facade, or a thrown error. */
  datatype Construction = Constructed(facade: TheatreJSProject) | Thrown(error: ProjectError)

  /**
   * The consistency of the registry and the side table: every facade's
   * project is the one registered under its id, and no two facades share an id.
   */
  ghost predicate Consistent(registry: map<JsValue, Project>, facades: map<TheatreJSProject, Project>)
  {
    && (forall f :: f in facades ==> facades[f].id in registry && registry[facades[f].id] == facades[f])
    && (forall f, g :: f in facades && g in facades && facades[f].id == facades[g].id ==> f == g)
  }

  /**
   * Registering a project under a new id and associating it with a new facade
   * keeps the registry and the side table consistent; the duplicate check is
   * what makes the id new.
   */
  lemma RegisterKeepsConsistent(registry: map<JsValue, Project>, facades: map<TheatreJSProject, Project>,
                                facade: TheatreJSProject, project: Project)
    requires Consistent(registry, facades)
    requires project.id !in registry && facade !in facades
    ensures Consistent(registry[project.id := project], facades[facade := project])
  {
    var registry', facades' := registry[project.id := project], facades[facade := project];
    forall f | f in facades'
      ensures facades'[f].id in registry' && registry'[facades'[f].id] == facades'[f]
    {
      if f != facade { assert facades'[f] == facades[f]; }
    }
    forall f, g | f in facades' && g in facades' && facades'[f].id == facades'[g].id
      ensures f == g
    {
      if f != facade && g != facade { assert facades[f].id == facades[g].id; }
    }
  }

  /**
   * The module state the constructor touches: the projects registry
   * (`projectsSingleton`, id to project) and the side table from facades to
   * their projects (`projectsWeakmap`).
   */
  class ProjectRuntime {
    var registry: map<JsValue, Project>
    var facades: map<TheatreJSProject, Project>

    /** Every facade's project is the registered one for its id, and no two facades share an id. */
    ghost predicate Valid()
      reads this
    {
      Consistent(registry, facades)
    }

    constructor ()
      ensures Valid() && registry == map[] && facades == map[]
    {
      registry := map[];
      facades := map[];
    }

    /** `getProject`: the project associated with a facade, if any. */
    function ProjectOf(f: TheatreJSProject): (r: Option<Project>)
      reads this
      requires Valid()
      ensures r.Some? <==> f in facades
      ensures r.Some? ==> r.value == facades[f]
      ensures r.Some? ==> r.value.id in registry && registry[r.value.id] == r.value
    {
      if f in facades then Some(facades[f]) else None
    }

    /**
     * `new Project(id, config)`: the checks in the constructor's order, each
     * throwing before anything is written; on success a fresh facade is
     * associated with a new project, which is registered under its id.
     */
    method NewProject(id: JsValue, config: Option<Conf>, env: Env, schema: JsValue -> bool) returns (r: Construction)
      requires Valid()
      modifies this
      ensures Valid()
      ensures var conf := if config.Some? then config.value else EmptyConf;
        var outcome := CheckNewProject(old(registry).Keys, id, conf, env, schema);
        && (outcome.Fail? ==> r == Thrown(outcome.error) && registry == old(registry) && facades == old(facades))
        && (outcome.Pass? ==>
              && r.Constructed? && fresh(r.facade)
              && registry == old(registry)[id := Project(id, conf)]
              && facades == old(facades)[r.facade := Project(id, conf)])
    {
      var conf := if config.Some? then config.value else EmptyConf;
      if id in registry {
        return Thrown(Duplicate);
      }
      if ValidatesId(env) {
        var idCheck := ValidateProjectId(id);
        if idCheck.Fail? {
          return Thrown(idCheck.error);
        }
      }
      if InCoreMode(env) {
        if !Truthy(conf.state) {
          return Thrown(MissingState);
        }
        var shallow := ShallowValidateOnDiskState(conf.state, env.currentVersion);
        if shallow.Fail? {
          return Thrown(shallow.error);
        }
      } else if Truthy(conf.state) {
        var deep := DeepValidateOnDiskState(conf.state, schema);
        if deep.Fail? {
          return Thrown(deep.error);
        }
      }
      var facade := new TheatreJSProject();
      var project := Project(id, conf);
      RegisterKeepsConsistent(registry, facades, facade, project);
      registry := registry[id := project];
      facades := facades[facade := project];
      r := Constructed(facade);
    }
  }

  /**
   * Constructing twice with one id: the second attempt throws the duplicate
   * error and leaves the first facade's project where it was.
   */
  method ConstructTwice(rt: ProjectRuntime, id: JsValue, first: Option<Conf>, second: Option<Conf>, env: Env, schema: JsValue -> bool)
    returns (r1: Construction, r2: Construction)
    requires rt.Valid()
    modifies rt
    ensures rt.Valid()
    ensures r1.Constructed? ==> r2 == Thrown(Duplicate) && rt.ProjectOf(r1.facade) == Some(Project(id, if first.Some? then first.value else EmptyConf))
  {
    r1 := rt.NewProject(id, first, env, schema);
    r2 := rt.NewProject(id, second, env, schema);
  }
}
