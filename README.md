# d2 model definitions in Dafny

This project models two parts of the d2 model layer.

- **The model-definition registry** (`src/model/ModelDefinitions.js`) is one JavaScript object. Its own members are the `add` method and one empty entry per registered model name. `add(name)` throws `"Model <name> already exists"` when `this[name]` is truthy. Otherwise it stores `{}` under the name. "Truthy" covers the inherited `Object.prototype` members (`constructor`, `toString`, `__proto__`, ...) and the registry's own `add`. The registry is the class `Registry.ModelDefinitions`, which holds a map from property name to member. The pure function `Registry.Added` says what one `add` does to that map.
- **The model definition** is the per-type object behind `ModelDefinition`. It covers:
  - constructor checks, with `name`, `plural`, `isMetaData` and `apiEndpoint` as constant fields;
  - compiling a schema's property list into descriptors and validation records;
  - the property setter and its dirty tracking on a model instance;
  - the `get` and `list` requests;
  - the fluent `filter().on(f).like(v)` / `.equals(v)` chain, and `clone()`;
  - the `save` payload and its create-or-update choice;
  - the `delete` target and `getOwnedPropertyNames`;
  - the user specialization's wider `get` fields.

  `ModelDefinition.js` itself is not part of this model. Its behaviour is taken from its unit test, `test/unit/model/ModelDefinition_spec.js`. The choices below fill the gaps where that test is silent.

Network calls are returned as `Definitions.Request` records (`ApiGet`, `ApiPost`, `ApiUpdate`, `ApiDelete`) instead of being performed. A thrown error becomes `Failure(message)` or `Fail(message)`. JavaScript values are `JsValues.JsValue`. Objects are known only by identity (`Obj(ref)`), so two distinct objects compare unequal under `!==` even when their contents match.

Modules: `Wrappers` (Option/Result/Outcome), `JsValues`, `Text` (indexOf, join, split), `Filters` (clause wire format `field:operator:value`), `Schemas` (schema compilation), `Models` (model instance and setter), `Registry` (ModelDefinitions.js), `Definitions` (the model definition).

Choices the test file leaves open:

- Name checks. A name that is `undefined` or the empty string is "not provided". Any other non-string, `null` included, gets "Expected <String(name)> to have type string". A plural counts as missing only when `undefined`.
- `get` identifiers. `get()` refuses a missing or empty identifier with "Identifier should be provided". It refuses an argument that is neither a string nor a list of strings with the same message.
- Single `get` path. The path is `[apiEndpoint, id].join('/')`, so an undefined endpoint gives `/<id>`. This matches the user-definition test.
- Batch `get`. A batch `get` uses `fields: ':all'` and only the `id:in:[…]` clause. It ignores the definition's accumulated filters and the user variant's wider fields.
- POST target. A new model is POSTed to the definition's `apiEndpoint`. The test asserts only that `post` is called.
- `id` and `href`. `save` and `delete` read `id` and `href` from the model object's own properties (`model.id`, `model.href`), not from `dataValues`. The test deletes `model.id` while `dataValues.id` stays set, and still expects a POST. The save payload is read from `dataValues`.
- Order in `createFromSchema`. Type errors from compiling the properties come before the constructor's name checks.
- Repeated keys. When two schema properties share a key, the later one replaces the earlier one in both tables.

## Model

| member | source | states |
|---|---|---|
| Registry.ModelDefinitions.constructor | src/model/ModelDefinitions.js:4-6 | a new registry's only own member is `add`, bound to the add function |
| Registry.ModelDefinitions.Add | src/model/ModelDefinitions.js:8-13 | fails exactly when the name is taken (own or inherited member), with "Model <name> already exists" and the registry unchanged; otherwise stores an empty object under the name and changes nothing else; `add` itself is never replaced |
| Registry.AddCreatesEmptyEntry | src/model/ModelDefinitions.js:12 | adding a free name creates an entry for it, and that entry is an empty object |
| Registry.AddRejectsTaken | src/model/ModelDefinitions.js:9-10 | adding a taken name fails with the message "Model <name> already exists" |
| Registry.AddChangesOnlyName | src/model/ModelDefinitions.js:12 | a successful add adds only `name` to the keys and keeps every existing member's value, `add` included |
| Registry.AddTwiceFails | src/model/ModelDefinitions.js:9-12 | after `add(n)` succeeds, a second `add(n)` fails, since the stored `{}` is truthy |
| Registry.FreshRegistryRefusesOwnMembers | src/model/ModelDefinitions.js:5-9 | a fresh registry refuses `add("add")` and every inherited member name |
| Registry.AddedAllSucceeds | src/model/ModelDefinitions.js:8-13 | registering a list of names succeeds iff the names are pairwise distinct and none is taken beforehand; the registry then gains exactly those names |
| Definitions.ConstructorChecks | test/unit/model/ModelDefinition_spec.js:38-57 | construction succeeds iff the name is a non-empty string and the plural is given; a missing name gives "Value should be provided", an object name "Expected [object Object] to have type string", a missing plural "Plural should be provided" |
| Definitions.New | test/unit/model/ModelDefinition_spec.js:34-57 | construction fails with the checks' message, or yields a fresh definition with the given name and plural, `isMetaData` false, no `apiEndpoint` and no filters |
| Definitions.ModelDefinition.constructor | test/unit/model/ModelDefinition_spec.js:59-100 | every field is set once; `name` and `isMetaData` are constants that no method can change |
| Definitions.CreateFromSchema | test/unit/model/ModelDefinition_spec.js:114-142 | a missing schema fails with "Schema should be provided", a type error from compilation is passed on; otherwise the definition carries the schema's name and plural, `isMetaData` = the schema's metadata flag, endpoint `/<plural>` only for metadata types, the compiled properties and validations, and the specialized class for the schema name |
| Schemas.Compile | test/unit/model/ModelDefinition_spec.js:144-203 | compiles the schema's properties in order into descriptors and validation records with the same keys, each descriptor filed under its own field name; an unknown type fails with an error naming a property's type |
| Schemas.CompileFailsOnUnknownType | test/unit/model/ModelDefinition_spec.js:174-186 | compiling fails iff some property's type is not in the type registry, and the error is 'Type from schema "<type>" not found available type list.' for the first such property |
| Schemas.CompiledKeys | test/unit/model/ModelDefinition_spec.js:144-191 | the compiled properties have one key per schema property, the collection name for to-many properties, and the validations have the same keys |
| Schemas.CompiledEntry | test/unit/model/ModelDefinition_spec.js:193-367 | a property's descriptor has a setter iff its type is writable, and its validation copies the type tag, owner, persisted, required, min/max, constants, and a reference type only for single references and identifiable collections |
| Schemas.CompiledOwnedNames | test/unit/model/ModelDefinition_spec.js:806-824 | for distinct property keys, the owned names are exactly the keys of owner-marked schema properties, and each has a descriptor |
| Models.Model.Get | test/unit/model/ModelDefinition_spec.js:205-213 | the descriptor getter returns the field's value in `dataValues`, `undefined` when absent |
| Models.Model.Set | test/unit/model/ModelDefinition_spec.js:215-268 | the setter stores the value; `dirty` becomes true and the field joins the dirty set exactly when the new value `!==` the stored one; a dirty model stays dirty |
| Models.SetOnCleanModel | test/unit/model/ModelDefinition_spec.js:228-268 | on a clean model, setting a field marks it dirty and records it iff the value differs (a distinct object always does), and the getter reads the new value back |
| Definitions.ModelDefinition.Get | test/unit/model/ModelDefinition_spec.js:445-464 | a missing or empty identifier, or one that is neither a string nor a list of strings, fails with "Identifier should be provided"; one id is fetched at `<endpoint>/<id>` with the variant's fields; a list of ids hits the bare endpoint with `fields: ':all'` and one `id:in:[…]` clause |
| Definitions.GetManyRecoversIds | test/unit/model/ModelDefinition_spec.js:499-509 | the batch `get` clause reads back as `id`, `in` and a bracketed list that splits back into the requested ids (none holding a comma) |
| Text.SplitJoin | test/unit/model/ModelDefinition_spec.js:505 | splitting a comma join of at least one comma-free part gives the parts back |
| Definitions.SpecializedGetKeepsBaseContract | test/unit/model/ModelDefinition_spec.js:841-859 | the user definition accepts and refuses the same identifiers, uses the same target and batch request, and differs only in requesting `:all,userCredentials[:owner]` on a single get |
| Definitions.ModelDefinition.List | test/unit/model/ModelDefinition_spec.js:541-545 | `list()` asks the endpoint for `:all` fields, with a `filter` parameter iff clauses were added, holding them rendered in order |
| Definitions.ListReadsBackFilters | test/unit/model/ModelDefinition_spec.js:576-606 | each entry of the `filter` parameter reads back as the clause added at that position |
| Filters.ParseRender | test/unit/model/ModelDefinition_spec.js:576-582 | a rendered `field:op:value` clause reads back as itself when field and operator are colon-free |
| Filters.RenderAllAppend | test/unit/model/ModelDefinition_spec.js:599-606 | appending a clause appends its rendering, so clauses reach the server in call order |
| Definitions.FieldFilter.Like | test/unit/model/ModelDefinition_spec.js:576-582 | `like(v)` appends `field:like:v` to the selected definition's filters and returns that definition |
| Definitions.FieldFilter.Equals | test/unit/model/ModelDefinition_spec.js:599-606 | `equals(v)` appends `field:eq:v` to the selected definition's filters and returns that definition |
| Definitions.ModelDefinition.On | test/unit/model/ModelDefinition_spec.js:576-582 | `on(f)` selects field `f` on this definition for the next operator; it is reached through `filter()`'s fresh clone |
| Definitions.ModelDefinition.Filter | test/unit/model/ModelDefinition_spec.js:584-586 | `filter()` returns a fresh definition equal to this one with a copy of its filters, leaving this one untouched |
| Definitions.FilteredList | test/unit/model/ModelDefinition_spec.js:588-597 | `filter().on(f).like(v).list()` requests the base's clauses followed by `f:like:v`, and the base definition is not modified |
| Definitions.ModelDefinition.Clone | test/unit/model/ModelDefinition_spec.js:627-653 | a clone is a distinct object with the same name, plural, isMetaData, apiEndpoint, modelProperties, validations and class, and its own copy of the filters |
| Definitions.ModelDefinition.Save | test/unit/model/ModelDefinition_spec.js:697-754 | a model whose own `id` property is truthy is updated at its own `href` property, any other is POSTed to the endpoint; the body is exactly the owner fields whose `dataValues` entry is neither null nor undefined, falsy values kept |
| Definitions.SaveAfterDeletingOwnId | test/unit/model/ModelDefinition_spec.js:747-754 | a model whose own `id` was deleted is POSTed even though `dataValues` still holds an id, with the owned payload from `dataValues` |
| Definitions.OwnedPayloadUnique | test/unit/model/ModelDefinition_spec.js:703-739 | the save payload is fully determined by the owner fields and the model's values |
| Definitions.ModelDefinition.Delete | test/unit/model/ModelDefinition_spec.js:795-799 | `delete` targets the model object's own `href` property |
| Definitions.ModelDefinition.GetOwnedPropertyNames | test/unit/model/ModelDefinition_spec.js:813-824 | the result holds exactly the fields whose validation is owner-marked |

## Left out

- Promises, and the API gateway's `get`/`post`/`update`/`delete` calls, are not performed. Each call is returned as a request record. A rejected fetch would carry only the server's message string; that is not modelled further.
- The Result Collection that wraps list and batch-`get` responses (`ModelCollection.create`, the pager) is not part of this model.
- Wrapping a fetched body into a model is left out, for the same reason.
- `create()` is left out: the Model class it instantiates is not part of this model.
- The type registry's mapping table is a parameter (`types`), since its contents are not available. The concrete fixtures (the 39-property dataElement schema, the exact owner list) are not modelled. Properties are stated over an arbitrary schema instead.
- `attributeProperties`, built from the attribute list, is left out. The tests only assert that it exists.
- `Object.freeze` and property-descriptor flags (writable, configurable) are replaced by Dafny constant fields. The model has no failed-assignment error for them.
- Calling the class without `new` is not modelled, since it is a language-level check.
- The registry's `d2.ModelDefinitions = …` global attachment is module wiring and is not modelled.
- JavaScript's coercion of non-string property names to strings is not modelled: registry names are strings.
- NaN and floating-point numbers are not modelled. Numbers are integers, so `!==` is plain inequality.
- Filter clause values are not escaped, as in the source. The read-back lemmas therefore require colon-free fields and operators and comma-free ids.
