# powerapps-project-template generators — a Dafny model

This project models the part of the `powerapps-project-template` Yeoman
generator that sets up Azure DevOps for a new Power Apps package:

- the **variable-group generator** creates the package's variable groups.
  It always creates the package group. It creates the CI, staging and shared-key
  groups when their values are supplied. The groups that are not supplied are
  looked up by name among the project's existing groups. Everything it created
  is tracked so that a rollback can delete it.
- the **build-definition generator** turns every YAML pipeline file of the
  package into a build definition. It builds each definition from one shared
  template, creates them all as one batch, and tracks them for rollback.
- the **prompt validators** check URLs, email addresses and namespace names.
  Each matches the input against one regular expression and answers `true` or
  a fixed message.

The Azure DevOps client is replaced by `Remote.Store`, an object store with
these fields:

- the objects it holds, in listing order;
- the next id it assigns;
- a log of every call sent to it.

The generators' contracts state which create, delete and list calls they send,
in which order, and what the store holds afterwards. Whether the remote
accepts a create batch is an input of `generate` (`accepted`), and so is whether
it answers the variable-group list call (`listed`).

Modules:

| file | module | models |
|---|---|---|
| `wrappers.dfy` | `Wrappers` | `Option`, `Result` |
| `jsstrings.dfy` | `JsStrings` | `String.prototype.split` with a one-character separator; the `\s` class; `replace(/\s/g, "")` |
| `remote.dfy` | `Remote` | the Azure DevOps connection as an object store, with a call log |
| `vargroups.dfy` | `VarGroups` | `VarGroupGenerator` |
| `builds.dfy` | `Builds` | `BuildGenerator` |
| `utilities.dfy` | `Utilities` | `validateUrl`, `validateEmail`, `validateNamespace` |

Each regular expression is written out as the language it accepts. The URL
expression is unanchored, so it is an existential over the match position and
the lengths of its repeated parts; each repeated part ranges over the bounds
the expression gives. The email expression becomes "some `@` splits the input
into a local part and a domain".

Facts about the code worth stating outright:

- A path `a/b` gives a definition named `b`: `parts[1]` is the name and
  `parts[0]` the UI path segment. So `service-a/ci.yml` gives a definition
  named `ci.yml` whose UI path ends in `\service-a` (`Builds.TwoSegmentPath`).
  A path without `/` gives the name `"undefined"`, because `${undefined}` is
  the string `"undefined"` (`Builds.SingleSegmentPath`).
- The build error message keeps the code's spelling: "An error occured while
  creating build definitions.".
- The namespace message says spaces are not allowed, yet the expression
  `^[ a-zA-Z]+$` accepts them. The model follows the expression
  (`Utilities.NamespaceConcat`, `Utilities.NamespaceExamples`).
- `Promise.all([])` resolves at once, so an empty create batch never fails:
  a package with no YAML file gives no definitions and no error.

## Model

| member | source | states |
|---|---|---|
| JsStrings.Split | src/generators/app/generator/BuildGenerator.ts:60 | `split("/")` gives at least one part, no part holds the separator, and there is exactly one part iff the separator does not occur |
| JsStrings.JoinSplit | src/generators/app/generator/BuildGenerator.ts:60 | joining the parts with the separator gives back the path: splitting loses nothing |
| JsStrings.SplitJoin | src/generators/app/generator/BuildGenerator.ts:60 | splitting a join of separator-free parts gives back the parts |
| JsStrings.HeadOfSplit | src/generators/app/generator/BuildGenerator.ts:60-64 | the first part is the text before the first separator (all of the path if there is none), and the rest splits into the remaining parts |
| JsStrings.IsJsWhitespace | src/generators/app/generator/BuildGenerator.ts:99 | the `\s` class: line terminators, space and tab are whitespace; ASCII letters and digits are not |
| JsStrings.StripWhitespace | src/generators/app/generator/BuildGenerator.ts:99 | `replace(/\s/g, "")` leaves no whitespace, keeps only characters of the input, and is no longer than the input |
| JsStrings.StripConcat | src/generators/app/generator/BuildGenerator.ts:99 | stripping distributes over concatenation, so the other characters stay in order |
| JsStrings.StripKeeps | src/generators/app/generator/BuildGenerator.ts:99 | a name without whitespace is unchanged |
| JsStrings.StripIdempotent | src/generators/app/generator/BuildGenerator.ts:99 | stripping twice equals stripping once |
| JsStrings.StripAllWhitespace | src/generators/app/generator/BuildGenerator.ts:99 | a name made only of whitespace strips to the empty string |
| Remote.InProject | src/generators/app/generator/VarGroupGenerator.ts:79 | a listing holds exactly the project's objects, and no more of them than the store holds |
| Remote.Without | src/generators/app/generator/VarGroupGenerator.ts:64-68 | after deleting some ids from a project, exactly the objects outside that (project, id) set remain |
| Remote.WithoutStep | src/generators/app/generator/VarGroupGenerator.ts:64-68 | deleting one more id after a set of ids equals deleting the larger set at once |
| Remote.WithoutNothing | src/generators/app/generator/VarGroupGenerator.ts:64-69 | deleting no ids leaves the store as it was |
| Remote.PreexistingSurvives | src/generators/app/generator/VarGroupGenerator.ts:62-71 | an object older than every deleted object survives a rollback |
| Remote.AllPreexistingSurvive | src/generators/app/generator/VarGroupGenerator.ts:62-71 | every object that existed before a batch survives deleting exactly that batch's objects |
| Remote.Store.CreateAll | src/generators/app/generator/VarGroupGenerator.ts:106-116 | one create call per body, in order. An empty batch sends nothing, always resolves to no objects and changes nothing. An accepted batch returns the created objects (fresh consecutive ids, bodies in order) and appends them to the store. A rejected non-empty batch returns nothing |
| Remote.Store.Delete | src/generators/app/generator/VarGroupGenerator.ts:66 | one delete call; the object with that id leaves the project, and everything else stays |
| Remote.Store.List | src/generators/app/generator/VarGroupGenerator.ts:79 | one list call that changes no object. If the remote answers, it returns the project's objects in store order; a rejected call returns nothing |
| Remote.Store.DeleteAll | src/generators/app/generator/VarGroupGenerator.ts:64-68 | one delete call per object, keyed by its id, in order; afterwards exactly those ids are gone from the project |
| VarGroups.Truthy | src/generators/app/generator/VarGroupGenerator.ts:41-55 | JavaScript truthiness of an optional string: `undefined` and `""` are falsy, every non-empty string is truthy |
| VarGroups.Flag | src/generators/app/generator/VarGroupGenerator.ts:91-101 | counts 1 for a truthy value and 0 otherwise |
| VarGroups.ShortCircuits | src/generators/app/generator/VarGroupGenerator.ts:41-43 | `generate` returns early iff both the CI connection and the key are truthy |
| VarGroups.PackageGroup | src/generators/app/generator/VarGroupGenerator.ts:89-90 | the package group is named `Package - <package name>` and keeps the template's variables |
| VarGroups.WithSecret | src/generators/app/generator/VarGroupGenerator.ts:92 | the chosen variable holds the supplied value; the name and every other variable are kept |
| VarGroups.GroupsToCreate | src/generators/app/generator/VarGroupGenerator.ts:83-104 | gives 1 + (number of truthy overrides) groups, in order. The package group comes first. Next come the CI group with the CI connection string, then the staging group with the staging connection string. The key group with the package read key comes last |
| VarGroups.ExistingNames | src/generators/app/generator/VarGroupGenerator.ts:45-55 | gives the names of the CI, staging and key groups whose value is falsy, in that order |
| VarGroups.CreatedOrLookedUp | src/generators/app/generator/VarGroupGenerator.ts:45-55 | each of the three optional groups is created or looked up, never both and never neither: the counts sum to four, and a name is looked up iff its value is falsy |
| VarGroups.FindByName | src/generators/app/generator/VarGroupGenerator.ts:80 | `find` returns nothing iff no listed group has the name; otherwise it returns the first group with that name |
| VarGroups.FindAll | src/generators/app/generator/VarGroupGenerator.ts:80 | gives one lookup result per requested name, in the order requested |
| VarGroups.AsFound | src/generators/app/generator/VarGroupGenerator.ts:38-42 | the created groups, in order, as results of `generate` |
| VarGroups.VarGroupGenerator.constructor | src/generators/app/generator/VarGroupGenerator.ts:16-20 | starts with nothing tracked |
| VarGroups.VarGroupGenerator.Generate | src/generators/app/generator/VarGroupGenerator.ts:22-60 | sends one create batch for `GroupsToCreate`. A rejected batch fails and tracks nothing. An accepted batch is tracked and stored. It then returns directly when both the CI connection and the key are truthy. Otherwise it sends one list call. If the list call is rejected, `generate` fails while the created groups stay tracked and stored. If it is answered, the created groups are followed by one lookup per missing group, made among the project's groups |
| VarGroups.VarGroupGenerator.Rollback | src/generators/app/generator/VarGroupGenerator.ts:62-71 | sends one delete per tracked group, keyed by id; exactly those groups leave the store, and nothing stays tracked |
| VarGroups.ExistingGroupsSurviveRollback | src/generators/app/generator/VarGroupGenerator.ts:62-71 | a group that existed before `generate` is never one it created, and survives the rollback of what it created |
| VarGroups.GenerateThenRollback | src/generators/app/generator/VarGroupGenerator.ts:22-71 | an accepted `generate` followed by a `rollback` leaves nothing tracked and every group that existed before still in the store, whether the list call was answered or rejected |
| VarGroups.RollbackTwice | src/generators/app/generator/VarGroupGenerator.ts:69 | a second rollback sends no call, because the first one emptied the tracked list |
| VarGroups.NoOverrides | src/generators/app/generator/VarGroupGenerator.ts:83-104 | with no override, only the package group is created, and the CI, staging and key groups are looked up without short-circuit |
| VarGroups.EmptyIsNotSupplied | src/generators/app/generator/VarGroupGenerator.ts:91-101 | an empty string counts as not supplied, for creation and for lookup |
| VarGroups.CiOnlyScenario | src/generators/app/generator/VarGroupGenerator.ts:83-104 | for package `My Pkg` with only CI connection `X`, it creates `Package - My Pkg` and a CI group holding `X`, and looks up staging and the key |
| Builds.DetailsOf | src/generators/app/generator/BuildGenerator.ts:59-65 | `root` is the text before the first `/`. `folder` is the segment after it, and is missing iff the path has no `/`. `path` is the whole path |
| Builds.GetYamlDetails | src/generators/app/generator/BuildGenerator.ts:56-67 | gives one details record per file, in order |
| Builds.GroupRefs | src/generators/app/generator/BuildGenerator.ts:95-97 | gives one `{ id }` per variable-group id, in order |
| Builds.GenerateBuildDefinition | src/generators/app/generator/BuildGenerator.ts:81-102 | sets the name to the folder (`"undefined"` when missing), the process to type 2 running the path, the group refs to the ids, and the repository id to `repoId`. The path becomes the package name without whitespace, `\`, then the root; every other template field is kept |
| Builds.Definitions | src/generators/app/generator/BuildGenerator.ts:30-32 | gives one definition per details record, in order |
| Builds.UiPath | src/generators/app/generator/BuildGenerator.ts:99 | the UI path is the package name without whitespace, then `\`, then the root |
| Builds.UiPathShape | src/generators/app/generator/BuildGenerator.ts:99 | the UI path has no whitespace before the backslash, and each piece of a split package name is stripped separately |
| Builds.UiPathKeepsPlainName | src/generators/app/generator/BuildGenerator.ts:99 | a package name without whitespace appears unchanged in the UI path |
| Builds.DefinitionOfSegments | src/generators/app/generator/BuildGenerator.ts:59-99 | for every path `a/b` or `a/b/...`, the definition is named `b`, runs the whole path, and has UI path `<package name without whitespace>\a` |
| Builds.TwoSegmentPath | src/generators/app/generator/BuildGenerator.ts:59-65 | `service-a/ci.yml` gives a definition named `ci.yml` whose UI path ends in `\service-a` |
| Builds.SingleSegmentPath | src/generators/app/generator/BuildGenerator.ts:62 | a path without `/` is its own root, has no folder, and gives a definition named `"undefined"` |
| Builds.BuildGenerator.constructor | src/generators/app/generator/BuildGenerator.ts:13-17 | starts with nothing tracked |
| Builds.BuildGenerator.Generate | src/generators/app/generator/BuildGenerator.ts:19-42 | sends one create call per YAML file, in order, for the generated definitions. With no files it returns no definitions and no error. Only a rejected non-empty batch raises the creation error, and then nothing is tracked. An accepted batch is returned, tracked and stored, and the next id moves past it |
| Builds.BuildGenerator.Rollback | src/generators/app/generator/BuildGenerator.ts:44-54 | sends one delete per tracked definition, keyed by id; exactly those definitions leave the store, and nothing stays tracked |
| Utilities.ValidateNamespace | src/generators/app/utilities.ts:18-22 | the answer is `true` iff the input is a non-empty run of letters and spaces; otherwise it is the fixed message |
| Utilities.NamespaceRejects | src/generators/app/utilities.ts:19 | empty input, or any character other than an ASCII letter or a space, is refused |
| Utilities.NamespaceConcat | src/generators/app/utilities.ts:19 | accepted names stay accepted when concatenated, with or without a space between |
| Utilities.NamespaceExamples | src/generators/app/utilities.ts:19 | `My Package` is accepted; `Pkg2` and `my-pkg` are refused |
| Utilities.ValidateEmail | src/generators/app/utilities.ts:9-16 | the answer is `true` iff some `@` splits the input into a dot-atom or quoted local part and an address-literal or host-name domain; otherwise it is the fixed message |
| Utilities.EmailNeedsAt | src/generators/app/utilities.ts:11 | an input without `@` is refused |
| Utilities.EmailFromParts | src/generators/app/utilities.ts:11 | a dot-atom, `@` and a host name make an accepted address |
| Utilities.EmailAt | src/generators/app/utilities.ts:11 | an `@` with a valid local part before it and a valid domain after it makes the input accepted |
| Utilities.DotAtomHasNoWhitespace | src/generators/app/utilities.ts:11 | an unquoted local part never holds a whitespace character |
| Utilities.UnquotedWithSpaceIsNotLocal | src/generators/app/utilities.ts:11 | an unquoted local part that holds whitespace is not a local part |
| Utilities.DomainHasDot | src/generators/app/utilities.ts:11 | every accepted domain holds a dot |
| Utilities.EmailDotAtomExample | src/generators/app/utilities.ts:11 | `john.smith@example.com` is accepted |
| Utilities.EmailAddressLiteralExample | src/generators/app/utilities.ts:11 | `admin@[192.168.0.1]` is accepted |
| Utilities.EmailQuotedExample | src/generators/app/utilities.ts:11 | `"john smith"@example.com` is accepted |
| Utilities.EmailWithoutDotRejected | src/generators/app/utilities.ts:11 | `john@localhost` is refused with the email message |
| Utilities.EmailWithSpaceRejected | src/generators/app/utilities.ts:11 | `john smith@example.com` is refused with the email message |
| Utilities.ValidateUrl | src/generators/app/utilities.ts:1-7 | the answer is `true` iff the URL expression matches somewhere in the input; otherwise it is the fixed message |
| Utilities.SchemeIsLiteral | src/generators/app/utilities.ts:2 | the scheme part of a match is the text `https://` or `http://` |
| Utilities.UrlNeedsScheme | src/generators/app/utilities.ts:2 | every accepted input contains `http://` or `https://` |
| Utilities.UrlAt | src/generators/app/utilities.ts:2 | one match at any position makes the input accepted |
| Utilities.ShiftMatch | src/generators/app/utilities.ts:2 | a match is still a match, shifted, when text is put in front of the input |
| Utilities.UrlAfterPrefix | src/generators/app/utilities.ts:2 | the search is not anchored: text in front of an accepted input keeps it accepted |
| Utilities.UrlExample | src/generators/app/utilities.ts:2 | `https://www.example.com` is accepted |
| Utilities.UrlInTextExample | src/generators/app/utilities.ts:2 | `see http://example.org/path?q=1` is accepted |

## Left out

- Logging: every `this.log(...)` call and the `log` constructor parameter. Logging has no effect on state or results.
- The network and the Azure DevOps client library: `Remote.Store` stands for the connection. Every stored object and every call carries its project name. Authentication, a project that does not exist or that the user may not access, and every server-side field other than the id, the project and the body are not modelled.
- Concurrency: `Promise.all` sends its calls together. The call log records them in array order, and completion order is not modelled.
- Partial success: a rejection can leave some of a batch's creates done. The model leaves the store's contents unspecified after a rejected batch.
- VarGroups.VarGroupGenerator.Generate: after a rejected non-empty batch, it states nothing about which groups the store holds, because the source does not determine it.
- Builds.BuildGenerator.Generate: after a rejected non-empty batch, it states nothing about which definitions the store holds, for the same reason.
- Remote.Store.CreateAll: when a non-empty batch is rejected it states only the call log and that the next id does not go down, for the same reason.
- Failing deletes: a rejected delete rejects `rollback` before it clears `createdObjects`. The model's deletes always succeed.
- `glob("**\\*.yml", ...)`: the file search is left out. `Builds.BuildGenerator.Generate` takes the list of relative paths it returns as the parameter `files`.
- The JSON definition files (`pkg.json`, `environment-ci.json`, `environment-staging.json`, `azure-devops-capgemini-uk.json`, `solution-ci.json`) are not part of this model. The variable-group and build templates are parameters (`Templates`, `template`).
- In-place mutation of the shared templates: `generateVariableGroups` writes the package name and the secrets into the imported template objects. The groups it returns alias those objects. The model builds new values, so a later `generate` cannot change the groups an earlier one returned.
- `JSON.parse(JSON.stringify(buildDef))` is a deep copy, which value semantics give for free.
- The non-null assertions `obj.id!` and `find(...)!` have no run-time effect. Every modelled object has an id, and a missing group is `None` rather than `undefined`.
- Strings: JavaScript strings are UTF-16 code units, and Dafny's `char` is a Unicode scalar value. Surrogate pairs are not modelled.
- The URL expression's trailing group `([-a-zA-Z0-9@:%_\+.~#?&//=]*)` can match the empty string, so it never changes whether the expression matches; it is not modelled.
- Regular-expression matching itself (backtracking, `lastIndex`) is not modelled; each expression is modelled as the set of strings it accepts.
