# Schema inheritance engine of followthemoney

This project models the `Schema` class of followthemoney (`followthemoney/schema.py`).
The class is the schema inheritance engine:

- A schema is a named node in a multi-parent hierarchy.
- Construction reads a definition into flags and defaults and builds the locally declared properties.
- `generate` resolves the `extends` names, generates each parent, and merges the parents' properties into the absent names.
- `generate` also builds the ancestor closure `schemata` and its name projection `names`, and records the schema in every ancestor's `descendants`.
- `generate` then checks that the featured, caption and required names and the edge endpoints resolve.
- Further operations:
  - `_add_reverse`, which synthesises reverse stub properties;
  - the queries `get`, `source_prop`, `target_prop`, `is_a`, the memoised `matchable_schemata` and `can_match`;
  - the aggregating validator `validate`;
  - the sparse serialiser `to_dict`;
  - name identity (`__eq__`/`__hash__`).

## How the model is organised

The model is an arena, class `SchemaModel.Model`.

- Schema `k` is the `k`-th entry of every field. A schema reference is its id, and the name index resolves names to ids, as the registry's `get` does.
- Construction fixes `graph`: one `SchemaDef` per definition, plus the index.
- The fields that `generate`, `_add_reverse` and `matchable_schemata` update in place are sequences of the class:
  - `properties`, `parents` (the source's `extends`), `schemata`, `names` and `descendants`;
  - `matchableCache` (`_matchable_schemata`).
- `Snap()` gathers the hierarchy fields, so that module-level predicates and lemmas can compare two states.

- `types.dfy` (`SchemaTypes`): the typed definition records, the property record, the errors, and construction's defaults (`Define`).
- `merge.dfy` (`PropertyMerge`): the first-write-wins merge of parent properties, and its lemmas.
- `hierarchy.dfy` (`Hierarchy`): the main pieces of the hierarchy model.
  - The ancestor closure `Anc` over resolved `extends` names.
  - What a completed `generate` leaves (`LocalGen`, `Generated`).
  - The invariants that hold between operations: `CoreOk` says `names` projects `schemata` and `descendants` inverts `schemata`; `OwnersOk` says every property is the declaring schema's own entry.
  - The closure lemmas.
- `generation.dfy` (`Generation`): one per-parent step of `generate` as a function on snapshots, and the loop invariant `Progress` with its lemmas.
- `validation.dfy` (`Validation`): the error map of `validate` and its loop.
- `serialize.dfy` (`Serialization`): the dict of `to_dict`, and the own-property filter.
- `names.dfy` (`NameOrder`): code-point order on names, and sorting a set of names.
- `model.dfy` (`SchemaModel`): the class and its operations.

Sparse output. `to_dict` leaves out every optional key whose value is empty or false. `matchable` is the exception to "non-default only": the code emits `matchable: true` whenever the schema is matchable, although true is its default. The model follows the code (`Serialization.FlagKey`).

Acyclicity. `generate` recurses into each parent with no cycle check.

- The model takes a ghost ranking `rank` that decreases along every resolved `extends` edge (`Hierarchy.Ranked`).
- `Generate` requires it; it is the termination measure of the recursion.
- Diamonds re-run a parent's `generate`. The model proves that re-running is harmless: `Generate` on a generated schema passes and changes nothing.

## Model

| member | source | states |
|---|---|---|
| SchemaTypes.Define | followthemoney/schema.py:106-168 | Label defaults to the name, and plural to the label. `abstract`, `hidden` and `generated` default to false; `matchable` and `edge_directed` default to true. `hidden` holds exactly when it was asked for and the schema is not abstract, so hidden implies not abstract. `edge_source`, `edge_target` and `edge_caption` are the edge section's, and `edge` holds iff both endpoints are present. The edge label defaults to the label. |
| SchemaTypes.BuildProperties | followthemoney/schema.py:184-186 | The properties map has exactly the declared names, and each entry is a non-stub property owned by the new schema under its own name. |
| SchemaModel.Model.constructor | followthemoney/schema.py:106-186 | After constructing every schema, each schema's `schemata` is `{k}` and `names` is `{name}`. `extends` and `descendants` are empty, the matchable cache is unset, and the properties are the declared ones. All hierarchy invariants hold. |
| SchemaModel.InitialValid | followthemoney/schema.py:168-186 | The freshly constructed state satisfies the hierarchy invariants: names project schemata, descendants invert schemata, and every property is its owner's entry. |
| PropertyMerge.MergeAbsent | followthemoney/schema.py:197-199 | One parent's merge: the names are the union of both maps. Every name the child had keeps its property, and every other name gets the parent's. |
| PropertyMerge.MergeInto | followthemoney/schema.py:197-199 | The merge loop over the parent's entries computes exactly `MergeAbsent`. |
| PropertyMerge.InheritKeys | followthemoney/schema.py:191-199 | After merging parents in `extends` order, a name is present iff the child or some parent has it. |
| PropertyMerge.InheritKeepsOwn | followthemoney/schema.py:197-199 | The merge never overwrites a name already in the child's properties. |
| PropertyMerge.InheritFirstWins | followthemoney/schema.py:191-199 | A name the child lacks gets the property of the first parent in `extends` order that has it. |
| PropertyMerge.InheritSources | followthemoney/schema.py:197-199 | Every merged entry is the child's own or some parent's, unchanged (the same object). |
| PropertyMerge.InheritNoop | followthemoney/schema.py:197-199 | Merging parents whose names the child already has changes nothing. |
| PropertyMerge.InheritIdempotent | followthemoney/schema.py:191-199 | Re-running the whole merge leaves the map unchanged. |
| PropertyMerge.MergeAbsentIdempotent | followthemoney/schema.py:197-199 | Merging one parent twice is the same as merging it once. |
| SchemaModel.Model.Generate | followthemoney/schema.py:188-229 | The invariants are kept. Only the fields of the schema and of its not yet generated ancestors change, apart from `descendants`: every ancestor, generated or not, gains the schema in its `descendants`. On success, the schema and all its ancestors are generated: every `extends` name resolves, `extends` is the parent set, `schemata` is the ancestor closure, parents' names are visible, and the checks pass. Its properties are the in-order merge of its parents' maps, and so are those of every ancestor generated along the way: each ancestor's map is its map before the call merged, first wins, with its own parents' maps in `extends` order (`Generation.MergedAt`). On failure, some ancestor has exactly the defect the error names. A schema that is already generated passes and nothing changes. |
| SchemaModel.Model.ResolveExtends | followthemoney/schema.py:191-205 | The loop over `extends`. On success, every name resolved, every parent is generated and merged in order, and the ancestors and parents are recorded (`Progress`). Every ancestor reached through the parents carries its own in-order merge (`Generation.MergedAll`). On failure, the error names an unresolved `extends` name or a defect of an ancestor. |
| SchemaModel.Model.ResolveOne | followthemoney/schema.py:191-205 | One `extends` name. An unknown name fails at once with `InvalidExtends` of that name (InvalidData) and changes nothing. Otherwise the parent is generated and then inherited from, advancing the loop invariant by one name (`Generation.Progress`). The merges of the ancestors reached so far still hold, and no schema outside them and the schema itself changes its properties (`Generation.Merging`). |
| SchemaModel.Model.InheritFrom | followthemoney/schema.py:197-205 | One parent's step: the merge, the parent recorded in `extends`, and every ancestor of the parent linked (`Generation.Step`). That the step keeps the invariants is `Generation.StepValid`. |
| SchemaModel.Model.LinkAncestors | followthemoney/schema.py:202-205 | The ancestor loop: the parent's `schemata` join `schemata`, their names join `names`, and the schema joins each of their `descendants` (`Generation.LinkAll`). |
| Generation.LinkAllOk | followthemoney/schema.py:202-205 | Linking keeps `names` equal to the names of `schemata`, and `descendants` the exact inverse of `schemata`. |
| Generation.StepValid | followthemoney/schema.py:197-205 | A step from a resolved parent keeps every hierarchy invariant. The parent's ancestors never include the child. |
| Generation.StepNoop | followthemoney/schema.py:197-205 | Re-running the step of a parent on a generated schema leaves the whole state unchanged. |
| Generation.MergedStep | followthemoney/schema.py:191-205 | Generating the next parent and inheriting from it extends the set of merged ancestors by that parent's ancestors. An ancestor already merged and generated keeps its merge. An ancestor that only the parent's generation merged had not changed before it, so its merge also holds against the start state. No properties change outside the merged ancestors and the schema itself. |
| SchemaModel.Model.CheckListed | followthemoney/schema.py:210-229 | Passes iff every featured, caption and required name, and both edge endpoints of an edge schema, are properties. A failure is an InvalidModel error, raised in the source's order: the first missing featured name, else the first missing caption name, else the first missing required name, else a missing edge source, else a missing edge target. |
| SchemaModel.FirstMissing | followthemoney/schema.py:210-220 | Returns none iff every listed name is present; otherwise the first listed name in order that is missing (`Hierarchy.FirstAbsent`). |
| Hierarchy.ClosureFixpoint | followthemoney/schema.py:201-205 | A generated schema's `schemata` contains itself and every parent's `schemata`, and nothing else. |
| Hierarchy.InheritedNamesVisible | followthemoney/schema.py:197-205 | Every property name of an ancestor of a generated schema is a property name of the schema. |
| Hierarchy.GeneratedDown | followthemoney/schema.py:191-195 | The ancestors of a generated schema are generated. |
| Hierarchy.GeneratedStable | followthemoney/schema.py:191-205 | Being generated depends only on the fields of the schema's ancestors. |
| SchemaModel.Model.AddReverse | followthemoney/schema.py:231-249 | A spec without a name fails with `UnnamedReverse` and changes nothing. An existing name returns the existing property and changes nothing. Otherwise exactly one stub property is added under that name, every other entry and schema stays as it was, and the invariants hold. |
| SchemaModel.ReverseStub | followthemoney/schema.py:238-246 | The reverse stub is a stub owned by the schema: entity type, reverse naming the other property, range the other property's schema. `hidden` is the spec's, defaulting to the other property's. |
| SchemaModel.AddOwnKeepsOwners | followthemoney/schema.py:245-248 | Adding a property that the schema declares itself, under a new name, keeps every property at its declaring schema's entry. |
| SchemaModel.Model.Get | followthemoney/schema.py:322-326 | A property is found iff a name is given and present; it is that entry, under that name. |
| SchemaModel.Model.SourceProp | followthemoney/schema.py:271-274 | The `properties` entry named by `edge_source`. It is none exactly when `edge_source` is unset or not a property name. After the checks pass, every edge schema has it. |
| SchemaModel.Model.TargetProp | followthemoney/schema.py:276-279 | The `properties` entry named by `edge_target`. It is none exactly when `edge_target` is unset or not a property name. After the checks pass, every edge schema has it. |
| SchemaModel.MatchableOf | followthemoney/schema.py:294-311 | Empty when the schema is not matchable. Otherwise exactly the matchable members of `schemata ∪ descendants`. |
| SchemaModel.Model.MatchableSchemata | followthemoney/schema.py:294-311 | On first use it computes `MatchableOf` and stores it. Once stored, it returns the stored set and changes nothing. The result always holds only matchable schemata, and it is empty for a schema that is not matchable. |
| SchemaModel.Model.CanMatch | followthemoney/schema.py:313-315 | The answer is membership in the (now stored) matchable set. A match needs both schemata to be matchable. |
| SchemaModel.MatchableSymmetric | followthemoney/schema.py:294-311 | `x` matches `i` iff `i` matches `x`, because `descendants` inverts `schemata`. |
| SchemaModel.MatchableAncestors | followthemoney/schema.py:306-310 | A matchable schema matches itself and every matchable ancestor. |
| SchemaModel.Model.IsA | followthemoney/schema.py:317-320 | By schema: membership in `schemata`. By name: membership in `names`, and an unknown name is never a match. |
| SchemaModel.Model.Equals | followthemoney/schema.py:386-394 | Two schemata of a model are equal iff they are the same schema (names are unique). |
| Validation.PropertyError | followthemoney/schema.py:335-341 | A property's own validator error wins. Without one, there is a `Required` error exactly when no values were given and the name is required. |
| Validation.Errors | followthemoney/schema.py:332-341 | The error map has an entry for a merged property iff that property has an error, and only for merged properties. Each entry is that property's error message: its validator's, or `Required`. |
| Validation.CollectErrors | followthemoney/schema.py:332-341 | The loop over all merged properties computes exactly `Errors`. |
| SchemaModel.Model.Validate | followthemoney/schema.py:328-345 | Passes iff the error map is empty. Otherwise it fails with the complete map (InvalidData). |
| Validation.UnknownKeysIgnored | followthemoney/schema.py:333-335 | Input keys that are not property names do not change the errors. |
| Validation.TwoInvalidTwoEntries | followthemoney/schema.py:334-344 | Two invalid properties give two entries: validation does not stop at the first error. |
| Validation.RequiredNameScenario | followthemoney/schema.py:337-339 | A required `name` property without values, whose validator accepts, gives exactly `{name: Required}`. |
| SchemaModel.Model.ToDict | followthemoney/schema.py:347-384 | Label and plural. `schemata` and `extends` as strictly sorted lists of exactly the names and the parents' names. The edge section, lists, description and flags appear only when non-empty or true. `properties` holds exactly the entries the schema owns. |
| SchemaModel.ParentsInModel | followthemoney/schema.py:191-201 | The recorded `extends` of a schema hold only schemata of the model, so `to_dict` applies to every valid state. |
| Serialization.OwnProperties | followthemoney/schema.py:379-383 | Exactly the entries whose owner is the schema, unchanged. |
| Serialization.OwnEntries | followthemoney/schema.py:379-383 | The serialiser's loop computes exactly `OwnProperties`. |
| Serialization.OwnPropertiesRebuild | followthemoney/schema.py:379-383 | For a generated schema, the merged properties are exactly the union of the own properties of its `schemata`. Each could be rebuilt from its declaring schema's dict. That dict lists `extends` sorted (followthemoney/schema.py:353), so the parent order, and with it which parent wins a name clash, is not recoverable from it. |
| Serialization.EdgeKey | followthemoney/schema.py:355-362 | The edge section is present iff source, target and edge label are all non-empty; it carries those fields. |
| Serialization.ListKey | followthemoney/schema.py:363-368 | A list key is present iff the list is non-empty, and then holds the list. |
| Serialization.FlagKey | followthemoney/schema.py:371-378 | A flag key is present iff the flag is set, and then holds true. |
| NameOrder.SortNames | followthemoney/schema.py:352-353 | Sorting a set of names gives a strictly increasing list of exactly its members. |
| NameOrder.InsertSortedCorrect | followthemoney/schema.py:352-353 | Inserting into a sorted list keeps it sorted and adds exactly the new name. |

## Left out

- Localisation (`gettext`, `followthemoney/schema.py:251-269`) is the identity, so label, plural, description and edge label are the definition's strings.
- RDF identifiers (`uri`, `URIRef`, `NS`) have no bearing on the hierarchy and are not modelled.
- The property component (`followthemoney/property.py` is not part of this model):
  - A property is a record of its owner, name, definition and stub flag.
  - `prop.validate` is a function parameter of `Validate`.
  - `prop.to_dict` is the record itself.
  - `registry.entity.name` is the constant `"entity"`.
- `prop.generate()` (`followthemoney/schema.py:207-208, 247`) is left out. In the repository it belongs to the property component and may add reverse stubs to other schemata through `_add_reverse`. Here it has no effect.
- The registry (`followthemoney/model.py` is not part of this model) is what calls `generate` on every schema and loads definitions. Here it is the name index, the constructor's list of definitions, and `Generate` on one schema.
- Coercion by `ensure_list`, `ensure_dict` and `as_bool` is left out. Definitions arrive already typed: an absent key is `None` or empty.
- `validate`'s input is a map from property names to value lists.
- Python's string hash is left out. `__eq__` compares hashes of `"<Schema(name)>"`, so a schema also equals any object with the same hash. Here equality is name equality on the model's schemata.
- `__lt__` and `__repr__` are not modelled.
- `sorted_properties` (`followthemoney/schema.py:281-292`) is not modelled. It orders by localised labels.
- Exceptions and message texts are not modelled. Errors are values of `SchemaError`: `InvalidExtends` and `EntityInvalid` stand for `InvalidData`, and the other kinds for `InvalidModel`.
- SchemaModel.Model.Generate: requires an acyclic `extends` relation, given as a ranking.
  - On a cycle the source recurses until the interpreter's recursion limit. That behaviour is not modelled.
- SchemaModel.Model.Generate: on failure, it states where the defect lies but not the exact state left behind.
  - The source stops with the merges done so far in place; the model keeps them as well.
  - The postcondition promises only that no property was removed, and that nothing outside the schema's ungenerated ancestry changed other than `descendants`. The `descendants` of every ancestor, generated ones included, gain the schema.
- SchemaModel.Model.AddReverse: adds the stub to this schema only. As in the source, the stub does not reach schemata that already inherited this schema's properties.
  - The invariant it keeps is therefore the one that holds between operations, not `Generated` of those descendants.
- SchemaModel.Model.MatchableSchemata: as in the source, the stored set is never refreshed when `schemata` or `descendants` change later.
  - Hence the postcondition ties a freshly computed set, not a stored one, to the current state.
- The insertion order of the `properties` dict is not modelled, because properties are a Dafny `map`. In the source, that order decides the key order of `to_dict`'s `properties` and of `validate`'s error map. No result of the core depends on it otherwise.
- SchemaModel.Model.Validate: the docstring of `validate` says it drops keys that are not properties, but the code does not change its input. The model follows the code: unknown keys are ignored (`Validation.UnknownKeysIgnored`).
- SchemaModel.Model.ToDict: requires only that the recorded parents are schemata of the model. Every valid state meets this, because recorded parents are resolved names (`SchemaModel.ParentsInModel`).
