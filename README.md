# Theatre.js project facade: the construction gate

This project models the user-facing `Project` facade of Theatre.js
(`src/tl/facades/TheatreJSProject.ts`). Creating a project with
`new Project(id, config)` runs a fixed chain of checks. Only when every check
passes does it create the underlying project and associate it with the facade.
The checks, in order:

1. **Duplicate.** The id must not already be in the projects registry.
2. **Id shape.** This runs only when `NODE_ENV` is `'development'` or `isCore` is strictly `false`. The id must be a string. Trimming it must not change its length. It must be at least 3 code units long.
3. **State, core mode** (`isCore` truthy). `config.state` must be truthy. It must then pass the shallow check: not an array, not null or undefined, and its `definitionVersion` equal to the current definition version.
4. **State, full mode** (`isCore` falsy). A truthy `config.state` must pass the schema validator. A falsy one is not checked at all.

Files:

- `js_values.dfy` (module `JsValues`) holds the part of JavaScript the gate looks at:
  - values that are undefined, null, booleans, integer numbers, strings, arrays or plain objects (own properties only);
  - truthiness and `== null`;
  - strings as sequences of UTF-16 code units;
  - `String.prototype.trim`, with the ECMAScript WhiteSpace and LineTerminator code units.
- `project_facade.dfy` (module `ProjectFacade`) holds the rest:
  - the error kinds;
  - the three validators as functions;
  - `CheckNewProject`, the whole gate as one function, and the lemmas about it;
  - class `ProjectRuntime`, which holds the projects registry and the facade side table. Its `NewProject` method runs the constructor's statements in order and is proved against `CheckNewProject`.

The environment (`$env.NODE_ENV`, `$env.tl.isCore`,
`$env.tl.currentProjectStateDefinitionVersion`) is the parameter `env`. The
schema validator `$OnDiskState.validate` is the parameter `schema`, a
predicate on values.

Where the code is more specific than a plain reading of its intent, the model
follows the code:

- **Absent state.** The code tests truthiness. In core mode, any falsy state (`0`, `""`, `false`, `null`) gives the missing-state error. In full mode, such a state is accepted without any check.
- **The two `isCore` tests differ.** Id validation uses the strict `isCore === false`. The mode branch uses truthiness. So an `isCore` left undefined in production skips the id checks and also takes the full-mode branch (`UndefinedIsCoreInProduction`).
- **Registration.** The registry entry is written by the `Project` constructor, which is not part of this model. The model assumes that constructor registers the new project under its id. Nothing else here writes the registry.

## Model

| member | source | states |
|---|---|---|
| `JsValues.TrimStart` | src/tl/facades/TheatreJSProject.ts:72 | The leading part of `trim`: it removes only whitespace from the front, and what remains is a suffix of the input that does not start with whitespace |
| `JsValues.TrimEnd` | src/tl/facades/TheatreJSProject.ts:72 | The trailing part of `trim`: it removes only whitespace from the back, and what remains is a prefix of the input that does not end with whitespace |
| `JsValues.TrimIsSlice` | src/tl/facades/TheatreJSProject.ts:72 | `id.trim()` returns the input with only a whitespace prefix and a whitespace suffix removed: some offset `k` gives the result as the input's slice from `k`, with whitespace before and after it |
| `JsValues.TrimCharacterised` | src/tl/facades/TheatreJSProject.ts:72 | Any slice obtained by removing a whitespace prefix and suffix that leaves no surrounding whitespace is exactly `id.trim()`, so the contents of the result are fixed, not only its length |
| `JsValues.Trim` | src/tl/facades/TheatreJSProject.ts:72-73 | `id.trim()` never leaves surrounding whitespace. Its length equals the input's exactly when the input has no leading or trailing whitespace, and then it returns the input unchanged |
| `ProjectFacade.ValidateProjectId` | src/tl/facades/TheatreJSProject.ts:65-84 | Passes exactly the strings of at least 3 code units with no surrounding whitespace. A non-string gives the type error. A string with surrounding whitespace gives the whitespace error, whatever its length. Any other string shorter than 3 gives the length error |
| `ProjectFacade.ShallowValidateOnDiskState` | src/tl/facades/TheatreJSProject.ts:90-102 | The only error is the malformed-state error. It passes exactly the objects whose `definitionVersion` is the current version string. Arrays, null, undefined, primitives and objects with another or no version fail |
| `ProjectFacade.DeepValidateOnDiskState` | src/tl/facades/TheatreJSProject.ts:107-122 | Passes exactly when the schema validator accepts the state. Otherwise it fails with the invalid-state error and no other kind |
| `ProjectFacade.ValidateState` | src/tl/facades/TheatreJSProject.ts:25-36 | Passes exactly the states the mode accepts. A core-mode failure is missing-state for a falsy state and malformed-state for a truthy one. A full-mode failure is always invalid-state, on a truthy state |
| `ProjectFacade.CheckNewProject` | src/tl/facades/TheatreJSProject.ts:16-37 | The duplicate error occurs exactly when the id is registered. An id error occurs only when id validation is enabled, the id is unregistered and the id is not well formed |
| `ProjectFacade.CheckNewProjectPasses` | src/tl/facades/TheatreJSProject.ts:16-37 | Construction succeeds iff the id is unregistered, the id is well formed whenever validation runs, and the mode accepts the state |
| `ProjectFacade.DuplicateReportedFirst` | src/tl/facades/TheatreJSProject.ts:17-21 | A registered id gives the duplicate error even when the id is also malformed and the state unacceptable. This is an instance of `CheckNewProject`'s first postcondition, spelled out for inputs every later check would reject |
| `ProjectFacade.IdErrorPrecedesStateErrors` | src/tl/facades/TheatreJSProject.ts:22-24 | When validation runs on a new, malformed id, the outcome is that id's own error, whatever the configuration |
| `ProjectFacade.IdIgnoredWithoutValidation` | src/tl/facades/TheatreJSProject.ts:22-24 | When id validation does not run (production core mode), any two unregistered ids get the same outcome: that of the state checks alone |
| `ProjectFacade.CoreModeStateOutcome` | src/tl/facades/TheatreJSProject.ts:25-31 | In core mode, past the id checks, a falsy state gives the missing-state error. A truthy state gives the malformed-state error iff it is an array, is nullish or has another `definitionVersion`. Success iff it is an object of the current version |
| `ProjectFacade.FullModeStateOutcome` | src/tl/facades/TheatreJSProject.ts:32-36 | In full mode, past the id checks, a falsy state is accepted unchecked. A truthy state succeeds iff the schema accepts it, so the shallow check never applies. The only possible error is invalid-state |
| `ProjectFacade.OmittedConfigHasNoState` | src/tl/facades/TheatreJSProject.ts:16 | Omitting `config` is the same as passing `{}`: a missing-state error in core mode, success in full mode |
| `ProjectFacade.UndefinedIsCoreInProduction` | src/tl/facades/TheatreJSProject.ts:22-25 | In production with `isCore` undefined, the id checks are skipped and the full-mode branch is taken |
| `ProjectFacade.NonStringIdExample` | src/tl/facades/TheatreJSProject.ts:66-70 | `new Project(42)` in development gives the type error |
| `ProjectFacade.WhitespaceIdExamples` | src/tl/facades/TheatreJSProject.ts:72-77 | `"  abc"`, `"   "` and `" a"` give the whitespace error. For the last two, which are also short, the whitespace check comes first |
| `ProjectFacade.ShortIdExamples` | src/tl/facades/TheatreJSProject.ts:79-83 | Any two lower-case letters (such as `"ab"`) and `""` give the length error |
| `ProjectFacade.ValidIdExample` | src/tl/facades/TheatreJSProject.ts:65-84 | Any three lower-case letters (such as `"abc"`) with no state succeed in full development mode |
| `ProjectFacade.CoreStateExamples` | src/tl/facades/TheatreJSProject.ts:25-31 | In production core mode, `"abc"` fails with missing-state when there is no state. It fails with malformed-state for an older `definitionVersion` or for an array. It succeeds with the current version |
| `ProjectFacade.RegisterKeepsConsistent` | src/tl/facades/TheatreJSProject.ts:17-37 | Adding a project under an id the duplicate check found new, and associating it with a new facade, keeps every facade's project registered under its id and keeps facade ids distinct |
| `ProjectFacade.ProjectRuntime.constructor` | src/tl/facades/TheatreJSProject.ts:11 | The side table and the registry start empty, which satisfies the runtime invariant |
| `ProjectFacade.ProjectRuntime.ProjectOf` | src/tl/facades/TheatreJSProject.ts:62-63 | `getProject` returns exactly the project the side table associates with the given facade, and none for a facade not in it. That project is the one registered under its id |
| `ProjectFacade.ProjectRuntime.NewProject` | src/tl/facades/TheatreJSProject.ts:16-38 | Runs the constructor's checks in order. On failure it throws the error `CheckNewProject` names and changes neither the registry nor the side table. On success it associates one fresh facade with a new project of that id and configuration, and registers that project. It keeps the invariant that each facade's project is the registered one and that no two facades share an id |
| `ProjectFacade.ConstructTwice` | src/tl/facades/TheatreJSProject.ts:17-21 | Constructing twice with one id: if the first attempt succeeds, the second throws the duplicate error and the first facade still maps to its project |

## Left out

- `getTimeline`, `adapters`, `ready` and `isReady` (lines 40-59) are not modelled. They delegate to the underlying `Project`, to `TimelineInstance` and to `validateAndSanitiseSlashedPathOrThrow`, none of which is part of this model.
- The grouped console report that `deepValidateOnDiskState` writes before throwing is not modelled. It is a logging side channel.
- Error message text is not modelled, and neither is the `userReadableTypeOfValue` rendering of the id's type. Errors are modelled as kinds.
- The rules inside the `$OnDiskState` schema are not modelled. The schema is a parameter, so the gate is proved for every schema.
- The `Project` constructor is not part of this model. The model assumes it registers the new project under its id, and otherwise treats the project as the record of its arguments. The other fields of `config` are passed through and not modelled.
- `projectsSingleton.has` is not shown. It is modelled as membership of the id value. Object and array values are compared by contents, not by identity.
- Strict equality (`!==`) on objects compares identity, which is not modelled. The current definition version is modelled as a string, so `!==` against it compares contents.
- Ids whose conversion to a string throws are not modelled. Examples are a symbol, or an object whose `toString` is not callable (`{toString: 5}`). The source interpolates the id into its error messages (lines 19, 28, 112 and 119) and into `JSON.stringify` (line 97), so such an id can end in a `TypeError` where the model reports the check's own error kind. `IdIgnoredWithoutValidation` and `OmittedConfigHasNoState` hold for the ids the model represents, not for these.
- Functions, symbols and bigints are not represented as values. `JSON.stringify` throwing on a bigint id at line 97 is not modelled.
- Property lookup reads an object's own properties only. A `definitionVersion` inherited through the prototype chain is not modelled.
- JavaScript numbers are modelled as integers. `NaN`, `-0` and fractions are not represented, so the falsy `NaN` state is not covered.
- A `null` config, which would fail with a `TypeError` at `config.state`, is not modelled. The type of `config` rules it out.
- The whitespace set is the Zs category of current Unicode versions. Older engines also stripped U+180E.
- The WeakMap's weak references (entries that disappear when a facade is collected) are not modelled. The side table is an ordinary map.
- Re-validating a state after serialisation is outside this code and is not modelled. Validation here is a function of the value, so the outcome cannot depend on object identity.
- `src/studio/structuralEditor/components/editorsPerType/DeclarativeComponentDescriptorEditor/TreeEditor/ComponentNode.tsx` is not modelled. It is a React component: focus handling, timers and keyboard shortcuts.
