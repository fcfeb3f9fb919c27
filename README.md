# SteplixMapper core in Dafny

This project models the mapping engine and the query cursor of SteplixMapper, a JavaScript library:

- **Model mapper.** A schema of attributes is declared fluently. Building a document through it reads each attribute from the input at its dotted path, writes it into an output record, and then applies the attribute's modifiers in a fixed order:
  - rename (`as`);
  - default (`def`);
  - copy;
  - type coercion (`type`);
  - format.
- **Mediator cursor.** A selection inside a fetched document is narrowed with `select`, `where`/`match`, `model` and `take`, and read with `get`, `first`, `last` and `value`.

The model has these parts:

- **Values** (`values.dfy`). JSON-like values, with JavaScript truthiness and lodash emptiness. Dotted paths, with lodash `get`, `set` and `unset` over them, and the laws relating those three.
- **Errors** (`errors.dfy`). The errors the core throws, with their messages.
- **Helpers** (`helpers.dfy`). Optional-mark stripping and the required/optional decision for attribute names.
- **Mapper** (`mapper.dfy`). The attribute pipeline of `core/mapper.js` and the build driver of `core/model.js`:
  - The output record is the class `Record`. It holds the tree and a table of pending copies keyed by source path, which replaces the path-watching library. A write to a path fires and removes that path's pending copies, once.
  - Every operation is an imperative method on a record. Each method is proved equal to a specification function over the record's state: `WriteSpec`, `ApplyAsSpec`, `AttributeSpec`, `FoldSpec`, `BuildSpec` and so on.
  - The build loop and the array build loop carry invariants tying them to those functions.
- **MapperProps** (`mapper_props.dfy`). Properties of the pipeline:
  - what each modifier changes, and that it changes nothing else;
  - how renaming prunes emptied ancestors;
  - how synchronous and deferred copies differ;
  - fail-fast errors;
  - array builds.
- **Model** (`model.dfy`). The schema registry and the declaration API of `ModelMapper`, as a class whose methods update `options`, `properties` and `lastProperty`.
- **Filtering** (`mediator.dfy`). The comparator table and the `_match`/`_filter` engine.
- **Mediator** (`mediator_mapper.dfy`). `MediatorMapper` as a class over `data`, `lastProperty` and `lastWhere`.
- **MapperFindings** (`findings.dfy`). Three discrepancies in the source, each modelled as written next to the corrected behaviour: the ancestor walk after a nested rename, the options a `one`/`many` hands to its nested build, and the cursor's `model`, which calls a `buildSync` nobody defines.

Type and format functions are parameters:

- A type coercion is a function `Value -> Value`.
- A custom format is a function of the value and the record.
- Date and number formatting are the two functions of a `Renderers` parameter.

Promises are read as sequential calls: nested builds and per-element array builds run in line, in input order.

An array build given a `previous` object hands that one object to every element's `_build` (`core/model.js:57`, `core/model.js:98`). Each element writes into the record the elements before it left, watchers included, and the result array holds that one record at every index (`Mapper.BuildSharedSpec`, `MapperProps.SharedPreviousAliases`). Without `previous`, every element starts from its own empty record.

In a few places the code's behaviour is narrower than its tests or its own structure suggest. The model follows the code:

- **Copy order.** `tests/realWorldMapper.test.js:13-21` declares a formatted copy before its source `price`, and `tests/realWorldMapper.test.js:34-42` declares it after. Both expect the same formatted price. The code delivers that for those two tests, because the number format there is idempotent and parses the raw value the deferred copy receives. In general the two orders differ:
  - When the source is already written, `applyCopy` types and formats the copied value, and `attribute` then types and formats it again (`MapperProps.SyncCopyCoercesTwice`): the copy holds `f(f(x))`.
  - When the copy is deferred, it fires on the source's first write and is typed and formatted once (`MapperProps.DeferredCopyCoercesOnce`): the copy holds `f(x)`.
  - So the results differ when the copy's type or format is not idempotent.
  - A deferred copy also fires before the source's own `type` runs, so it sees the source's raw value and not its coerced one.
- **Nested conditions.** `_match` tests for a function condition at `core/mediator.js:58-59`. That branch is never reached, because the object test at `core/mediator.js:55` comes first and a function is an object. Function, RegExp and array conditions therefore all take the nested-operator branch.
- **The `match` comparator.** A RegExp condition is an object, so it takes the nested branch and matches everything. The `match` comparator therefore only ever meets a scalar, and it throws on a string actual (`Filtering.Compare`).
- **`match` in the cursor.** `match` throws only when no key is pending. A pending key of `""` counts as none, because it is falsy.

## Model

| member | source | states |
|---|---|---|
| Helpers.NormalizeAttributeName | core/helpers.js:12-14 | a name without `?` is unchanged; otherwise exactly one `?` is removed and the other characters are kept |
| Helpers.NormalizeRemovesFirstMark | core/helpers.js:3 | the regex has no global flag: the result is the name with its first `?` cut out, wherever that `?` is |
| Helpers.OptionalIffLeadingMarkDropped | core/helpers.js:22-24 | a name is optional exactly when normalizing it drops its first character, i.e. it starts with `?`; the empty name is required |
| Helpers.NormalizeNotIdempotent | core/helpers.js:12-14 | normalizing `a??b` gives `a?b`, and normalizing again gives `ab` |
| Values.Split | core/mapper.js:126 | splitting on dots yields segments that contain no dot |
| Values.SplitJoin | core/mapper.js:126 | splitting a joined path gives the path back |
| Values.GetOr | core/mediator.js:79-81 | lodash `get` with a default yields the value when it is defined, and exactly the default when it is `undefined` |
| Values.GetSetSame | core/mapper.js:70 | after `_.set` on an object, the path holds the written value |
| Values.GetSetOther | core/mapper.js:70 | `_.set` leaves every path disjoint from the written one unchanged |
| Values.GetUnsetSame | core/mapper.js:118 | after `_.unset` the path reads `undefined` |
| Values.GetUnsetOther | core/mapper.js:118 | `_.unset` leaves every path disjoint from the removed one unchanged |
| Values.GetUnsetBelow | core/mapper.js:124 | after `_.unset`, every path below the removed one reads `undefined` |
| Values.GetBelowEmpty | core/mapper.js:134 | below an empty value every path reads `undefined` |
| Mapper.Record.Write | core/mapper.js:70 | a write sets the tree and fires, once, the copies pending on exactly that path (`WriteSpec`); no new copies are registered and the written path's copies are gone |
| Mapper.Record.FireAll | core/mapper.js:201-205 | fired copies run in registration order (`FireAllSpec`) |
| Mapper.Record.Watch | core/mapper.js:214-215 | registering a copy appends it to its source path's pending list and leaves the tree alone |
| Mapper.Record.Unset | core/mapper.js:118 | removal of a path from the tree; pending copies unchanged |
| Mapper.Apply | core/mapper.js:172-185 | the copy action writes the value at the destination, then types and formats it there (`ApplySpec`) |
| Mapper.ApplyType | core/mapper.js:160-163 | the record moves to `TypeSpec` of its old state |
| Mapper.ApplyFormat | core/mapper.js:223-237 | the record moves to `FormatSpec` of its old state; dispatch is custom function, date, or number |
| Mapper.ApplyDefault | core/mapper.js:151-155 | the record moves to `DefaultSpec` of its old state |
| Mapper.ApplyCopy | core/mapper.js:168-218 | the record moves to `CopySpec`: copy now when the source is defined, otherwise register a one-shot copy on the source path |
| Mapper.ApplyAs | core/mapper.js:102-146 | the record and the refreshed attribute are those of `ApplyAsSpec`; the pruning loop carries an invariant tying it to `Prune` |
| Mapper.AttributeSpec | core/mapper.js:57-97 | fails exactly when the value is missing, the attribute is required and fail-fast is on; the error names the normalized path; an object record stays an object |
| Mapper.Attribute | core/mapper.js:57-97 | the method's outcome and new record are those of `AttributeSpec`; on an error the record is left as it was |
| Mapper.ReferenceSpec | core/mapper.js:13-52 | fails exactly when the value is missing or the nested build fails; the missing-value error comes first and carries the one/many tag |
| Mapper.Reference | core/mapper.js:13-52 | the method's outcome and new record are those of `ReferenceSpec` |
| MapperProps.ReferenceIgnoresParentModifiers | core/mapper.js:27 | two attribute option sets that agree on the fail-fast flag give the same `one`/`many` outcome, whatever modifiers they carry |
| MapperProps.ReferenceWritesNestedBuild | core/mapper.js:26-29 | a successful `one`/`many` writes the nested build of the input's sub-value at the attribute's path, keeps the pending table, and changes no disjoint path |
| Mapper.Step | core/model.js:56 | one reduce step with the property's options over the build's options (`StepSpec`) |
| Mapper.BuildRecord | core/model.js:50-58 | the fold over the properties in order, from `previous` or `{}`, equals `BuildRecordSpec`; loop invariant on `FoldSpec` |
| Mapper.BuildRecordSpec | core/model.js:50-58 | a successful single-document build is an object |
| Mapper.Fold | core/model.js:54-57 | the reduce over the properties on a given record has the outcome and final record of `FoldSpec`; loop invariant on `FoldSpec` |
| Mapper.BuildSharedSpec | core/model.js:94-105 | with `previous`, elements are folded one after another into one shared record; an object record stays an object |
| Mapper.Build | core/model.js:89-115 | the method's result equals `BuildSpec`; without `previous` the array loop keeps the results so far in front of the remaining elements' results; with `previous` it threads one record through the elements |
| Mapper.BuildSpec | core/model.js:89-115 | a successful array build is an array of the input's length; otherwise it is an object |
| Mapper.BuildOne | core/model.js:123-130 | the method's result equals `BuildOneSpec` |
| Mapper.BuildOneSpec | core/model.js:123-130 | a non-array input builds as one record; an array input whose first element is not an array builds that element as one record |
| MapperProps.WriteUnwatched | core/mapper.js:70 | an unwatched write sets exactly its path and keeps every disjoint path and the pending table |
| MapperProps.AttributePlain | core/mapper.js:59-70 | with no modifiers, `attribute` copies the input value, possibly undefined, to the same path and changes nothing disjoint |
| MapperProps.DefaultFillsOnlyUndefined | core/mapper.js:151-155 | the default is written only where the value is `undefined`; a defined value such as `null` stays; nothing else changes |
| MapperProps.FalsyDefaultIgnored | core/mapper.js:77 | a falsy default behaves as no default at all |
| MapperProps.TypeOnlyAtPath | core/mapper.js:160-163 | type coercion replaces the value at its path by its image and changes nothing disjoint |
| MapperProps.FormatOnlyAtPath | core/mapper.js:223-237 | formatting replaces the value at its path by its rendering and changes nothing disjoint |
| MapperProps.RenameTopLevel | core/mapper.js:107-120 | a top-level rename writes the old value at the new path, deletes the old key unless it is a segment of the new path, and returns the refreshed name |
| MapperProps.PruneKeepsDisjoint | core/mapper.js:126-138 | pruning emptied ancestors never changes a path disjoint from the renamed one |
| MapperProps.PruneKeepsMissing | core/mapper.js:126-138 | pruning never brings back a missing path |
| MapperProps.RenameNested | core/mapper.js:107-138 | a nested rename to a disjoint path moves the value, removes the old leaf, and keeps every path disjoint from both |
| MapperProps.RenameThenType | core/mapper.js:72-90 | after a rename the type applies at the new path: it ends up holding the coerced input value |
| MapperProps.SyncCopyCoercesTwice | core/mapper.js:82-95 | a copy from an already written source holds `f(source)` after `applyCopy`, and `f(f(source))` after `attribute` applies the type again |
| MapperProps.DeferredCopyCoercesOnce | core/mapper.js:200-216 | a deferred copy fires on the first write of its source with `f(x)`, unregisters itself, and ignores later writes |
| MapperProps.FoldFailsFast | core/model.js:54-57 | a build of plain attributes fails exactly when some attribute is missing, with the error of the first missing one |
| MapperProps.BuildWithoutFailFast | core/model.js:51 | with fail-fast off at the call and not set per attribute, a build of plain attributes succeeds |
| MapperProps.BuildEachElementwise | core/model.js:94-105 | without `previous`, an array build succeeds exactly when every element builds from an empty record; element i of the result is element i's build; the error is the first failing element's |
| MapperProps.BuildArrayInOrder | core/model.js:94-105 | without `previous`, `build` of an array input keeps length and order, and fails exactly when some element fails |
| MapperProps.BuildSharedThreads | core/model.js:94-105 | with `previous`, building one more element runs its `_build` on the record the earlier elements left |
| MapperProps.BuildSharedFailsFast | core/model.js:94-105 | with `previous` and plain attributes, the array build fails exactly when some element misses some required attribute under fail-fast |
| MapperProps.BuildArrayShared | core/model.js:57 | with `previous`, every entry of the result is the same object and the length is kept; a one-element array builds as its element alone |
| MapperProps.SharedPreviousAliases | core/model.js:98 | `build([{a: 1}, {b: 2}], {}, {})` with `?a`, `?b` gives two copies of `{a: undefined, b: 2}`; without `previous` it gives `[{a: 1, b: undefined}, {a: undefined, b: 2}]` |
| MapperProps.BuildOneShape | core/model.js:123-130 | `buildOne` succeeds with an object, or with `undefined` only when the input's first element is `[]` |
| Model.OptionPrecedence | core/model.js:10-12 | attribute options override the build call's, which override the mapper's, which override `failOnNotExistsAttribute: true` |
| Model.AttrOf | core/model.js:188-194 | a string name declares its normalized name, which for an optional name is the name without its leading `?`; it is required exactly when it does not start with `?` |
| Model.IndexOfName | core/model.js:25 | the registry lookup finds a property with the name, or reports that none has it |
| Model.Register | core/model.js:21-27 | registering keeps names unique; a new name is appended; an existing name is replaced in its original position; other entries are unchanged |
| Model.Modify | core/model.js:36-41 | a modifier changes only the options of the property with the given name |
| Model.RegisterKeepsNames | core/model.js:21-27 | registering keeps every registered name and adds the new one |
| Model.DeclareAll | core/model.js:200-216 | bulk declaration keeps names unique |
| Model.DeclareAllRegistersEach | core/model.js:200-216 | after `attributes(entries)` every entry's normalized name has a property |
| Model.ModelMapper.constructor | core/model.js:73-81 | the options are the given ones over the default; no properties; no last property |
| Model.ModelMapper.Extend | core/model.js:66-71 | a fresh mapper with the base's options and a copy of its properties; the base is untouched |
| Model.ModelMapper.Has | core/model.js:180-183 | clears the last property only |
| Model.ModelMapper.Declare | core/model.js:185-198 | `attribute(options)` with an options object registers it as given and makes its normalized name the last property; options and data unchanged |
| Model.ModelMapper.Attribute | core/model.js:185-198 | registers the named attribute and makes it the last property |
| Model.ModelMapper.One | core/model.js:219-234 | registers a one-reference with the nested schema and makes it the last property |
| Model.ModelMapper.Many | core/model.js:236-251 | registers a many-reference with the nested schema and makes it the last property |
| Model.ModelMapper.Attributes | core/model.js:200-217 | declares the entries in mapping order (`DeclareAll`); the last entry becomes the last property |
| Model.ModelMapper.RegisterModifier | core/model.js:36-41 | fails with `NoActiveAttribute` exactly when there is no last property; otherwise merges into that property only |
| Model.ModelMapper.Format | core/model.js:253-257 | the `format` modifier merged into the last property |
| Model.ModelMapper.Copy | core/model.js:259-263 | the `copy` modifier merged into the last property |
| Model.ModelMapper.Type | core/model.js:265-269 | the `type` modifier merged into the last property |
| Model.ModelMapper.Def | core/model.js:271-275 | the `def` modifier merged into the last property |
| Model.ModelMapper.As | core/model.js:277-281 | the `as` modifier merged into the last property |
| Model.ModelMapper.Build | core/model.js:89-115 | records the input and returns `BuildSpec` of the schema as it was |
| Model.ModelMapper.BuildOne | core/model.js:123-130 | returns `BuildOneSpec` of the schema as it was, and records the input's first element (or the input) as `data` |
| Filtering.Compare | core/mediator.js:14-31 | an operator fails with the list of valid names exactly when it is neither in the table nor inherited from `Object.prototype`; `startsWith`/`endsWith`/`match` are false on a non-string; `===` is equality |
| Filtering.InheritedCall | core/mediator.js:62-68 | of the names inherited from `Object.prototype`, `toString` and `constructor` match, `isPrototypeOf` answers false on a primitive, and every other one throws a TypeError |
| Filtering.InheritedComparators | core/mediator.js:62 | an inherited name is not in the comparator table, and looking it up runs the inherited member instead of failing as unknown |
| Filtering.IsNilThrows | core/mediator.js:30 | `is` with a `null` or `undefined` type name looks up `_.is` and throws a TypeError |
| Filtering.EqAliases | core/mediator.js:20-24 | `eq` and `notEq` coincide with `===` and `!==` |
| Filtering.InNotInComplement | core/mediator.js:25-26 | `notIn` is the negation of `in`, and they fail together |
| Filtering.StrLessAsymmetric | core/mediator.js:15-16 | string `<` is asymmetric |
| Filtering.Trichotomy | core/mediator.js:15-18 | `<` is asymmetric and irreflexive on scalars, and `<=` is `<` or equal for comparable non-strings |
| Filtering.Filter | core/mediator.js:40-42 | a filter keeps at most the items it is given; which items it keeps, in what order and how often, is stated by `Filtering.FilterKeepsMatching` |
| Filtering.FilterKeepsMatching | core/mediator.js:40-42 | a filter succeeds exactly when every item matches without an error; it keeps a subsequence holding every matching item as often as the input does and no other |
| Filtering.EmptyWhereKeepsAll | core/mediator.js:51-52 | an empty `where` keeps every item |
| Filtering.FilterIdempotent | core/mediator.js:40-42 | filtering again with the same conditions keeps everything |
| Filtering.TopLevelScalarIsStrict | core/mediator.js:53-67 | a top-level scalar condition holds exactly when the value at the key path is `===` to it |
| Filtering.NestedKeysAreComparators | core/mediator.js:53-66 | in a nested condition the key names the operator and applies to the same value; an inherited name runs that member; any other unknown key throws |
| Filtering.ArrayOperandThrows | core/mediator.js:55-65 | an array condition takes the nested branch, so its index `0` is looked up as an operator and throws |
| Filtering.OpaqueConditionMatches | core/mediator.js:55-56 | a function or RegExp condition has no keys and always matches |
| Mediator.Narrow | core/mediator.js:155-166 | on an array, keeps exactly the matching elements, each as often as the input has it, in order; otherwise the item if it matches, else `undefined` |
| Mediator.WhereSpec | core/mediator.js:132-168 | a string key with no condition records the key and keeps the selection; a falsy selection is kept; an error keeps the selection |
| Mediator.WhereIdempotent | core/mediator.js:132-168 | a second identical `where` leaves the selection unchanged |
| Mediator.TakeItems | core/mediator.js:189-194 | the first (or last) n elements, clamped to the array's length; a missing count takes one element, as in lodash |
| Mediator.TakeTwice | core/mediator.js:189-194 | taking twice takes the smaller count, a missing count counting as one |
| Mediator.Pick | core/mediator.js:196-201 | `lastProperty[index]` on an array, `undefined` out of range; a non-array is kept |
| Mediator.PickLast | core/mediator.js:210-215 | the last element of an array, `undefined` when empty; a non-array is kept |
| Mediator.ValueOf | core/mediator.js:217-218 | the selection, or with a non-empty key the value at that path with the default for `undefined` |
| Mediator.MediatorMapper.constructor | core/mediator.js:84-95 | the root data, a `null` selection, no pending key |
| Mediator.MediatorMapper.Select | core/mediator.js:126-130 | the selection becomes the value at the key in the root, whatever it was |
| Mediator.MediatorMapper.Where | core/mediator.js:132-168 | result, selection and pending key are those of `WhereSpec` |
| Mediator.MediatorMapper.Match | core/mediator.js:177-182 | throws `DanglingMatch` with no pending key and changes nothing; otherwise acts as `where(pendingKey, condition)` |
| Mediator.MediatorMapper.Model | core/mediator.js:184-187 | the selection becomes its build through the schema; an error leaves it unchanged |
| Mediator.MediatorMapper.Take | core/mediator.js:189-194 | an array selection becomes `TakeItems` of it, `take()` included; a non-array stays |
| Mediator.MediatorMapper.Value | core/mediator.js:217-222 | returns `ValueOf` the selection and resets the selection to the root data |
| Mediator.MediatorMapper.Get | core/mediator.js:196-201 | returns `ValueOf` the picked element and resets the selection to the root data |
| Mediator.MediatorMapper.First | core/mediator.js:203-208 | returns `ValueOf` the first element and resets the selection to the root data |
| Mediator.MediatorMapper.Last | core/mediator.js:210-215 | returns `ValueOf` the last element and resets the selection to the root data |
| MapperFindings.PruneAsWrittenDeletesUnrelated | core/mapper.js:126-138 | renaming `a.b.c.b` with the as-written walk deletes the unrelated `a.c.b`; the corrected `Prune` keeps it |
| MapperFindings.StepsKeepMissing | core/mapper.js:129-138 | the as-written walk only deletes |
| MapperFindings.NestedOptionsLeakRename | core/mapper.js:27 | handing the whole options to a nested build renames the nested attribute too; handing down the fail-fast flag alone does not |

## Left out

- Network I/O is not modelled: `fetch`, `fetchOne` and `fetchAll` in `core/model.js`, and the static `MediatorMapper.fetch`. The same goes for the name-to-value assembly `fetchAll` performs before building.
- Promise machinery is not modelled: bluebird, `async.map` and promise rejection. Builds are sequential calls, and a thrown error or a rejection is an `Err` result.
- MapperProps.BuildEachElementwise: "the error is the first failing element's" holds under the sequential reading. Under `async.map` the reported error is the first to occur in time, which can belong to a later element.
- Mapper.BuildSharedSpec: the elements of an array built with `previous` are folded one whole element after another. In the source each element's `_build` is its own `P.reduce` chain, and the steps of different chains may interleave on the shared object.
- `core/controller.js` is not part of this model. It is a request template with no logic of its own.
- The date and number formatting libraries are not modelled. They are the two functions of `Renderers`.
- When a number format descriptor has neither `formatTo` nor `format`, the code passes the descriptor object itself to the number formatter. Here it passes `""`.
- Floating-point numbers and NaN are not modelled. Numbers are integers.
- Filtering.Compare: the comparators' operand coercion is not modelled in full.
  - Relational comparators do not coerce between a string and a number; such mixed operands compare as false.
  - An array or object actual value meets a relational comparator as false. JavaScript converts it to a primitive first, so `[5] > 3` is true there.
  - `is` finds only the modelled part of lodash's `is*` family and the inherited `isPrototypeOf` (`Filtering.IsCheck`).
- Loose `==` does not model the full JavaScript coercion table.
- Filtering.IsCheck: covers only part of lodash's `is*` family. Any other name throws, as an unknown function would.
- Filtering.InheritedCall: the inherited members are those of `Object.prototype` in current engines. The names an engine adds beyond these twelve are not modelled.
- Lodash paths are dotted strings only. Bracket indexes (`a[0]`), array indexes inside paths, `get` on strings (such as `length`) and keys that contain a dot are not modelled.
- Mapper.Record.Write: the path-watching library is replaced by an explicit table of pending copies, and a write to exactly a source path fires that path's copies. These are not modelled: writes that replace an ancestor container of a watched path, deleting a watched key, and the library's own handling of a write that leaves the value unchanged.
- Model.ModelMapper.RegisterModifier: `_.merge` of a modifier is modelled as replacing the key. The source deep-merges plain objects key by key and arrays index by index, so it differs when both the old and the new value are objects or arrays: `def([1, 2])` then `def([3])` leaves `[3, 2]` in the source and `[3]` here.
- Model.ModelMapper.Attributes: an options-object entry is merged over `{normalizedName, required, name}` in the source (`core/model.js:214`), so it can override those three. Here the entry's options are only modifiers, and the name, normalized name and required flag always come from the entry's key.
- Model.ModelMapper.Def: `def(undefined)` is modelled as changing nothing. The source's `_.merge` skips an `undefined` source value in the same way.
- Model.ModelMapper.One: the nested mapper is a snapshot of its schema taken at declaration. The source keeps a reference, so declarations made on the nested mapper afterwards would be seen.
- Model.ModelMapper.Many: the nested mapper is a snapshot, as with `One`.
- Object key order in JavaScript is not modelled. Integer-like keys come first in enumeration there, which affects the order of `properties` and of `where` conditions. Both are sequences in the order the model is given.
- The `options` argument of the `MediatorMapper` constructor is stored by the source but never read, so it is not modelled.
- Mediator.MediatorMapper.Model: the cursor's `model` calls `buildSync`, which the mapper does not define, so as written it always throws (see Findings). It is modelled as the intended synchronous pipeline `Mapper.Build`.
- Mapper.Reference, Mapper.ReferenceSpec and Mapper.NestedOptions: the nested build gets the corrected option hand-down, and the rest of the model uses it. The code as written is `Mapper.NestedOptionsAsWritten` (see Findings).
- Mapper.ApplyAs, Mapper.ApplyAsSpec and Mapper.Prune: renaming a nested attribute uses the corrected ancestor walk, and the rest of the model uses it. The code as written is `MapperFindings.PruneAsWritten` (see Findings).

## Findings

| source | as written | input that shows it | evidently intended | confidence | as-written member | corrected member |
|---|---|---|---|---|---|---|
| core/mapper.js:126-138 | after a nested rename, each ancestor to prune is computed by removing the accumulated suffix with `String.replace`, which removes its first occurrence, not the one at the end of the name | renaming `a.b.c.b` in a record `{a: {b: {c: {}}, c: {b: 7}}}`: the first step removes `.b` after `a` and examines `a.c.b`; the number 7 counts as empty for lodash and is deleted | prune only the ancestors `a.b.c`, `a.b` and `a` of the renamed path, deepest first, when they are empty | not executed | MapperFindings.PruneAsWrittenDeletesUnrelated | MapperProps.PruneKeepsDisjoint |
| core/mapper.js:27 | `one` and `many` pass the attribute's whole merged options to the nested build, so its `as`, `def`, `copy`, `type` and `format` become defaults for every nested attribute | `one("child", m).as("kid")` where `m` declares `attribute("x")`, input child `{x: 1}`: the nested build renames `x` to `kid` and yields `{kid: 1}` | hand down only the fail-fast flag, so the nested build yields `{x: 1}` | not executed | MapperFindings.NestedOptionsLeakRename | MapperProps.ReferenceIgnoresParentModifiers |
| core/mediator.js:184-187 | `model` calls `model.buildSync`, and the mapper class defines no `buildSync`, so every call throws a TypeError; `tests/mediatorMapper.test.js:102` calls `model(chart)` and expects a built value | `select('x').model(m)` with `x` an object and `m` an empty mapper: the call throws instead of yielding `{}` | build the selection synchronously through the mapper's schema | not executed | MapperFindings.CursorModelAsWrittenThrows | Mediator.MediatorMapper.Model |
