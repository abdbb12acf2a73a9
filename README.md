# @Factory annotation processor — a Dafny model

This project models the core of the "annotation processing 101" @Factory
processor. A class is annotated `@Factory(id = "...", type = T.class)`. At
compile time, the processor collects every annotated class into the group of
its target type `T`. It checks that each class may be built by a factory, and
it keeps ids unique within a group. For every group it then writes a class
`TFactory`. That class has a method `create(String id)`, which returns a new
instance of the class registered under `id`.

The model follows the source's own structure, one module per concern:

- `Elements` is the part of `javax.lang.model` the processor consults. It
  holds the kind, modifiers, direct superclass, direct interfaces and
  constructors of a type element. A `Universe` maps qualified names to such
  elements.
- `Descriptors` covers `FactoryAnnotatedClass` and its older form
  `FactoryItem`: an accepted class with its id and target type.
- `ItemsMaps` is the `LinkedHashMap<String, …>` each group keeps. Its keys
  keep insertion order.
- `FactoryGroups` holds the two group classes, `FactoryGroupedClasses` and the
  older `FactoryClass`. Both are modelled as Dafny classes whose `itemsMap`
  field their `Add` methods update.
- `Emitter` describes the generated factory as statements rather than text.
  `Run` gives what the generated `create` does when it is called.
- `Validator` holds `isValidClass` as a method with its loops. `Validate` is
  its reference definition.
- `Processor` holds one round of `process` in two forms. The value-level form
  is the pair of functions `Step`/`Scan` and `ProcessRound`. The other form is
  the `FactoryProcessor` class, whose `factoryClasses` field maps names to
  group objects. The class's methods are proved against the value-level form.
- `PizzaStore` is the hand-written `order` of the sample. `MealSample` runs
  the sample's three annotated meal classes through the processor. It proves
  that the generated `MealFactory` picks the same meal as the hand-written
  `order` for every name.

Source locations below are paths from the repository root.

## Model

| member | source | states |
|---|---|---|
| Descriptors.NewAnnotatedClass | factory/processor/src/main/java/com/hannesdorfmann/annotationprocessing101/factory/processor/FactoryAnnotatedClass.java:39-61 | construction succeeds iff the annotation's id is neither null nor empty; a success keeps the element, the id and the target's qualified and simple names; a failure is a ProcessingException on the element for an empty id |
| Descriptors.NewFactoryItem | factory/processor/src/main/java/com/hannesdorfmann/annotationprocessing101/factory/processor/FactoryItem.java:21-43 | the same acceptance condition and descriptor, but a failure is an IllegalArgumentException |
| Descriptors.DescriptorVersionsAgree | factory/processor/src/main/java/com/hannesdorfmann/annotationprocessing101/factory/processor/FactoryItem.java:21-43 | the two descriptor versions accept the same elements, build the same descriptor and carry the same error; only the exception class differs |
| Elements.SuperclassAtNext | factory/processor/src/main/java/com/hannesdorfmann/annotationprocessing101/factory/processor/FactoryProcessor.java:112-130 | one step up the chain: the ancestor k+1 levels up is the superclass of the one k levels up |
| Elements.ChainStaysEnded | factory/processor/src/main/java/com/hannesdorfmann/annotationprocessing101/factory/processor/FactoryProcessor.java:112-121 | once the chain has reached TypeKind.NONE, every later step is NONE too |
| Validator.IsValidClass | factory/processor/src/main/java/com/hannesdorfmann/annotationprocessing101/factory/processor/FactoryProcessor.java:80-149 | the loops decide exactly as `Validate`: not public, then abstract, then a direct interface or an ancestor class, then a public constructor with no parameters; the first failed check names the error |
| Validator.Validate | factory/processor/src/main/java/com/hannesdorfmann/annotationprocessing101/factory/processor/FactoryProcessor.java:80-149 | a class that passes is public, not abstract and has a public constructor without parameters |
| Validator.NotInherited | factory/processor/src/main/java/com/hannesdorfmann/annotationprocessing101/factory/processor/FactoryProcessor.java:112-121 | when the chain reaches NONE before meeting the target, the target is no ancestor at all, which justifies the "must inherit" error |
| Validator.ValidIffAllChecks | factory/processor/src/main/java/com/hannesdorfmann/annotationprocessing101/factory/processor/FactoryProcessor.java:80-149 | a class is accepted iff it is public, not abstract, stands in the right relation to the target and has a public no-argument constructor |
| Validator.NoTransitiveInterfaceSearch | factory/processor/src/main/java/com/hannesdorfmann/annotationprocessing101/factory/processor/FactoryProcessor.java:101-108 | for an interface target only the direct interfaces count: reaching the target through another interface is refused with "must implement" |
| Validator.NotPublicComesFirst | factory/processor/src/main/java/com/hannesdorfmann/annotationprocessing101/factory/processor/FactoryProcessor.java:85-89 | a class that is not public is refused as not public, whatever else holds of it |
| ItemsMaps.ItemsMap.Put | factory/processor/src/main/java/com/hannesdorfmann/annotationprocessing101/factory/processor/FactoryGroupedClasses.java:74 | a fresh id is appended to the key order and stored; validity and keying by id are kept, and the values gain the item at the end |
| ItemsMaps.FirstWithId | factory/processor/src/main/java/com/hannesdorfmann/annotationprocessing101/factory/processor/FactoryGroupedClasses.java:96-100 | the result is a member with that id, and there is none exactly when no member has it |
| ItemsMaps.FirstWithIdIsGet | factory/processor/src/main/java/com/hannesdorfmann/annotationprocessing101/factory/processor/FactoryGroupedClasses.java:96-100 | scanning the values in insertion order for the first equal id finds what `get(id)` returns |
| ItemsMaps.AddAllKeepsFirst | factory/processor/src/main/java/com/hannesdorfmann/annotationprocessing101/factory/processor/FactoryClass.java:39-53 | after any sequence of adds, ids stay unique and each id maps to the first item added with it |
| ItemsMaps.PutIfAbsent | factory/processor/src/main/java/com/hannesdorfmann/annotationprocessing101/factory/processor/FactoryClass.java:46-52 | a taken id keeps the item stored first, a free id now holds the new item, every other id is unchanged, and a well-formed map stays well formed |
| ItemsMaps.AddAll | factory/processor/src/main/java/com/hannesdorfmann/annotationprocessing101/factory/processor/FactoryClass.java:39-53 | a sequence of adds keeps the map well formed and never changes an id that was already present |
| FactoryGroups.FactoryGroupedClasses.constructor | factory/processor/src/main/java/com/hannesdorfmann/annotationprocessing101/factory/processor/FactoryGroupedClasses.java:47-54 | a new group holds the target name it is given and an empty map |
| FactoryGroups.FactoryGroupedClasses.Add | factory/processor/src/main/java/com/hannesdorfmann/annotationprocessing101/factory/processor/FactoryGroupedClasses.java:62-75 | a taken id fails with a conflict naming the new class, the id and the class already using it, and the map is unchanged; otherwise the class is appended under its id |
| FactoryGroups.FactoryGroupedClasses.GenerateCode | factory/processor/src/main/java/com/hannesdorfmann/annotationprocessing101/factory/processor/FactoryGroupedClasses.java:77-108 | the source written is the group's factory over its members in insertion order: a class without the `public` modifier, in a file named by the package and the simple name of the target (the qualified name computed at line 80 is never used); the group is not changed |
| FactoryGroups.FactoryClass.constructor | factory/processor/src/main/java/com/hannesdorfmann/annotationprocessing101/factory/processor/FactoryClass.java:30-32 | a new older group has no target name yet and an empty map |
| FactoryGroups.FactoryClass.Add | factory/processor/src/main/java/com/hannesdorfmann/annotationprocessing101/factory/processor/FactoryClass.java:39-53 | the group name comes from the first item ever added and is kept; a taken id returns the stored item and inserts nothing; a free id inserts and returns null |
| FactoryGroups.FactoryClass.GenerateCode | factory/processor/src/main/java/com/hannesdorfmann/annotationprocessing101/factory/processor/FactoryClass.java:60-100 | the older generator writes the same package, class name, return type and `create` body as the current one, but declares the class `public` and names the file by the target's qualified name and "Factory" |
| Emitter.RunBranches | factory/processor/src/main/java/com/hannesdorfmann/annotationprocessing101/factory/processor/FactoryGroupedClasses.java:96-102 | the if-chain answers for the first member with an equal id, and otherwise fails with "Unknown id = " and the id |
| Emitter.CreateBody | factory/processor/src/main/java/com/hannesdorfmann/annotationprocessing101/factory/processor/FactoryGroupedClasses.java:89-102 | the generated body fails on null with "id is null!"; on an id it builds the class of the first member with that id, and otherwise fails with "Unknown id = " and the id |
| Emitter.RunCreateBody | factory/processor/src/main/java/com/hannesdorfmann/annotationprocessing101/factory/processor/FactoryGroupedClasses.java:89-102 | the generated `create` behaves exactly like a lookup in the group's map: null fails, a member id builds its class, any other id fails |
| Emitter.GeneratedFactoryContract | factory/processor/src/main/java/com/hannesdorfmann/annotationprocessing101/factory/processor/FactoryGroupedClasses.java:77-107 | the factory class is named after the target with "Factory" and not declared `public`, its file is that name in the target's package (none for the unnamed one), and it returns the target; `create` fails on null with "id is null!", builds each member's class for its id, and fails on every other id with "Unknown id = " and the id |
| Emitter.FactoryFor | factory/processor/src/main/java/com/hannesdorfmann/annotationprocessing101/factory/processor/FactoryGroupedClasses.java:77-107 | the factory returns the target type, is not declared `public`, and sits in the target's package, with no package exactly when the target's is unnamed (its names and its `create` are stated by `Emitter.GeneratedFactoryContract`) |
| Emitter.OlderFactoryFor | factory/processor/src/main/java/com/hannesdorfmann/annotationprocessing101/factory/processor/FactoryClass.java:60-100 | the older factory is declared `public` and its file is the target's qualified name with "Factory"; apart from the file name and the visibility it is the current generator's factory |
| Emitter.GeneratorsAgreeOnTopLevel | factory/processor/src/main/java/com/hannesdorfmann/annotationprocessing101/factory/processor/FactoryClass.java:65-78 | for a top-level target, whose qualified name is its package and simple name, both generators write the same factory in the same file, except that only the older one declares the class `public` |
| Emitter.GeneratorsDifferOnNested | factory/processor/src/main/java/com/hannesdorfmann/annotationprocessing101/factory/processor/FactoryGroupedClasses.java:80-107 | for the nested target `p.Outer.Inner` the current generator writes `p.InnerFactory` while the older one writes `p.Outer.InnerFactory` |
| Processor.GetOrCreate | factory/processor/src/main/java/com/hannesdorfmann/annotationprocessing101/factory/processor/FactoryProcessor.java:175-181 | afterwards the group exists; an existing group leaves the registry unchanged; a new name goes at the end of the creation order with an empty group and every other group unchanged; validity is kept |
| Processor.RegistryPut | factory/processor/src/main/java/com/hannesdorfmann/annotationprocessing101/factory/processor/FactoryProcessor.java:184 | putting a fresh id into its own target's group keeps the registry valid |
| Processor.Step | factory/processor/src/main/java/com/hannesdorfmann/annotationprocessing101/factory/processor/FactoryProcessor.java:154-184 | handling one element keeps the registry valid and its targets resolvable; an error is reported on that element |
| Processor.StepRefusals | factory/processor/src/main/java/com/hannesdorfmann/annotationprocessing101/factory/processor/FactoryProcessor.java:157-172 | an element that is not a class, a class with an empty id and a class that fails validation each end the step with their own error on that element |
| Processor.StepSucceedsIff | factory/processor/src/main/java/com/hannesdorfmann/annotationprocessing101/factory/processor/FactoryProcessor.java:157-184 | a step succeeds iff the element is a class with an id that passes validation and whose id is not yet taken in its target's group |
| Processor.StepKeepsEntries | factory/processor/src/main/java/com/hannesdorfmann/annotationprocessing101/factory/processor/FactoryGroupedClasses.java:62-75 | a successful step never moves or replaces an item already registered |
| Processor.StepRegistersInItsGroup | factory/processor/src/main/java/com/hannesdorfmann/annotationprocessing101/factory/processor/FactoryProcessor.java:157-184 | only a class with an id that passes validation gets through a step; it is then stored under its id in the group of its target, a new target is appended to the creation order, and every other group is unchanged |
| Processor.Scan | factory/processor/src/main/java/com/hannesdorfmann/annotationprocessing101/factory/processor/FactoryProcessor.java:154-198 | the element loop keeps the registry valid and its targets resolvable |
| Processor.ScanCons | factory/processor/src/main/java/com/hannesdorfmann/annotationprocessing101/factory/processor/FactoryProcessor.java:154-198 | the loop over one element followed by others is a step on that element, then the loop over the others, or the step's error |
| Processor.ScanStopsAtFirstFailure | factory/processor/src/main/java/com/hannesdorfmann/annotationprocessing101/factory/processor/FactoryProcessor.java:154-198 | when element i is the first to fail, the round ends with its error; later elements are never looked at, and the registry keeps what the earlier elements registered |
| Processor.ScanKeepsEntries | factory/processor/src/main/java/com/hannesdorfmann/annotationprocessing101/factory/processor/FactoryProcessor.java:154-198 | an item registered before the loop is still registered, unchanged, when the loop ends |
| Processor.ScanAllRegistered | factory/processor/src/main/java/com/hannesdorfmann/annotationprocessing101/factory/processor/FactoryProcessor.java:154-198 | in a round without element errors every element is a class with a non-empty id that passed validation, and its descriptor is stored under its id in its target's group when the loop ends |
| Processor.EmitAll | factory/processor/src/main/java/com/hannesdorfmann/annotationprocessing101/factory/processor/FactoryProcessor.java:200-203 | one factory per group: as many factories as groups were created |
| Processor.EmitAllDispatch | factory/processor/src/main/java/com/hannesdorfmann/annotationprocessing101/factory/processor/FactoryProcessor.java:200-203 | factory i returns the i-th target created and is named after it, and its `create` behaves like a lookup in that group's map |
| Processor.ProcessRound | factory/processor/src/main/java/com/hannesdorfmann/annotationprocessing101/factory/processor/FactoryProcessor.java:151-210 | a round reports at most one diagnostic |
| Processor.RoundOutcome | factory/processor/src/main/java/com/hannesdorfmann/annotationprocessing101/factory/processor/FactoryProcessor.java:151-210 | a round reports at most one error. After an element error nothing is written and the registry is kept. After a failed write only the earlier factories are written and the registry is kept. A round reports nothing iff neither happened, and then every factory is written in creation order and the registry is emptied |
| Processor.CleanRoundFactoriesDispatch | factory/processor/src/main/java/com/hannesdorfmann/annotationprocessing101/factory/processor/FactoryProcessor.java:200-204 | in a clean round, factory i returns the i-th target created and is named after it, and its `create` behaves like a lookup in that group |
| Processor.SameIdSameTargetConflicts | factory/processor/src/main/java/com/hannesdorfmann/annotationprocessing101/factory/processor/FactoryGroupedClasses.java:62-75 | while an item is registered, any valid class with the same target and the same id, whenever it comes, is a conflict naming that class, the id and the registered class |
| Processor.SameIdOtherTargetCoexists | factory/processor/src/main/java/com/hannesdorfmann/annotationprocessing101/factory/processor/FactoryProcessor.java:175-184 | ids are unique per target only: the same id under another target registers without error |
| Processor.FactoryProcessor.constructor | factory/processor/src/main/java/com/hannesdorfmann/annotationprocessing101/factory/processor/FactoryProcessor.java:55-56 | a new processor holds an empty registry |
| Processor.FactoryProcessor.GroupFor | factory/processor/src/main/java/com/hannesdorfmann/annotationprocessing101/factory/processor/FactoryProcessor.java:175-181 | the group object for a name, created empty and put at the end when missing; the registry becomes `GetOrCreate` of the old one |
| Processor.FactoryProcessor.AddTo | factory/processor/src/main/java/com/hannesdorfmann/annotationprocessing101/factory/processor/FactoryProcessor.java:184 | adding to the group object updates the registry exactly as `Put` on that group, or reports the conflict and changes nothing |
| Processor.FactoryProcessor.AddToGroup | factory/processor/src/main/java/com/hannesdorfmann/annotationprocessing101/factory/processor/FactoryProcessor.java:175-184 | get-or-create then add: the conflict with nothing changed, or the item put into its group |
| Processor.FactoryProcessor.Register | factory/processor/src/main/java/com/hannesdorfmann/annotationprocessing101/factory/processor/FactoryProcessor.java:154-197 | handling one element moves the registry exactly as `Step`; an error is returned and the registry is left as it was |
| Processor.FactoryProcessor.FactoryAt | factory/processor/src/main/java/com/hannesdorfmann/annotationprocessing101/factory/processor/FactoryProcessor.java:201-202 | the factory the j-th group object writes is the j-th factory of `EmitAll` over the registry |
| Processor.FactoryProcessor.WriteNext | factory/processor/src/main/java/com/hannesdorfmann/annotationprocessing101/factory/processor/FactoryProcessor.java:201-202 | one pass of the write loop: the factories written so far followed by the next group's factory are the emitted factories up to that group |
| Processor.FactoryProcessor.WriteInOrder | factory/processor/src/main/java/com/hannesdorfmann/annotationprocessing101/factory/processor/FactoryProcessor.java:200-203 | the write loop writes the factories in creation order; a write that throws is reported and only the factories before it are written; otherwise all of them are |
| Processor.FactoryProcessor.WriteAll | factory/processor/src/main/java/com/hannesdorfmann/annotationprocessing101/factory/processor/FactoryProcessor.java:200-207 | the factories are written in creation order up to a failing write, which is reported and leaves the registry; a full run clears it |
| Processor.FactoryProcessor.Process | factory/processor/src/main/java/com/hannesdorfmann/annotationprocessing101/factory/processor/FactoryProcessor.java:151-210 | a call returns true and leaves the registry, the diagnostics and the written factories that `ProcessRound` prescribes |
| PizzaStore.Order | factory-sample/pizzastore/src/main/java/com/hannesdorfmann/annotationprocessing101/factory/PizzaStore_HandWritten.java:12-31 | null fails with "Name of the meal is null!"; a meal is returned only for its own name; any other name fails with "Unknown meal '<name>'", and no meal has that name |
| PizzaStore.OrderByName | factory-sample/pizzastore/src/main/java/com/hannesdorfmann/annotationprocessing101/factory/PizzaStore_HandWritten.java:18-28 | ordering by a name returns a meal iff the name is that meal's name |
| PizzaStore.MealNamesDistinct | factory-sample/pizzastore/src/main/java/com/hannesdorfmann/annotationprocessing101/factory/PizzaStore_HandWritten.java:18-28 | no two meals share a name, so the branch order of `order` does not matter |
| MealSample.MealClassValid | factory-sample/pizzastore/src/main/java/com/hannesdorfmann/annotationprocessing101/factory/MargheritaPizza.java:9-13 | each public meal class implementing Meal with an implicit public constructor passes validation |
| MealSample.MealGroup | factory/processor/src/main/java/com/hannesdorfmann/annotationprocessing101/factory/processor/FactoryProcessor.java:175-184 | the group the three annotated meal classes (CalzonePizza, MargheritaPizza, Tiramisu) form under Meal: each meal's id maps to that meal's descriptor, and nothing else is held |
| MealSample.SampleRound | factory/processor/src/main/java/com/hannesdorfmann/annotationprocessing101/factory/processor/FactoryProcessor.java:154-204 | the round over the three annotated meal classes (CalzonePizza, MargheritaPizza, Tiramisu) reports nothing, writes MealFactory alone and empties the registry |
| MealSample.MealGroupEmits | factory-sample/pizzastore/src/main/java/com/hannesdorfmann/annotationprocessing101/factory/PizzaStore.java:14-17 | the registry holding the Meal group alone emits exactly MealFactory |
| MealSample.MealFactoryNames | factory/processor/src/main/java/com/hannesdorfmann/annotationprocessing101/factory/processor/FactoryGroupedClasses.java:78-82 | the generated factory is the class MealFactory, in the file MealFactory of the sample's package, returning Meal |
| MealSample.MealFactoryMatchesOrder | factory-sample/pizzastore/src/main/java/com/hannesdorfmann/annotationprocessing101/factory/PizzaStore.java:14-17 | for every name, the generated `MealFactory.create` builds the meal the hand-written `order` returns, and refuses exactly the names it refuses; only the messages differ |
| MealSample.GeneratedFactoryMatchesHandWritten | factory-sample/pizzastore/src/main/java/com/hannesdorfmann/annotationprocessing101/factory/PizzaStore_HandWritten.java:12-31 | the sample round writes one factory; for every name, its `create` returns an instance iff `order` returns a meal, and then the same meal's class |
| MealSample.DuplicateIdStopsTheRound | factory/processor/src/main/java/com/hannesdorfmann/annotationprocessing101/factory/processor/FactoryGroupedClasses.java:62-75 | a second class claiming "Calzone" for Meal ends the round with a conflict naming both classes; nothing is written and the Meal group is kept |
| MealSample.NonPublicMealStopsTheRound | factory/processor/src/main/java/com/hannesdorfmann/annotationprocessing101/factory/processor/FactoryProcessor.java:85-89 | a non-public meal class is reported as not public; nothing is written and the registry stays empty |

## Left out

- The compiler's element and type utilities (`Elements`, `Types`,
  `TypeMirror`) are replaced by the `Universe` map. Type-mirror equality
  becomes equality of qualified names, and generics are not represented.
- Reading `type()` through `MirroredTypeException` is collapsed into the
  target's qualified and simple names carried by the annotation value.
  `FactoryAnnotatedClass.java:51-60` and `FactoryItem.java:33-42` take two
  paths to the same names.
- `Filer`, `Messager`, JavaPoet and JavaWriter are not modelled as text. A
  factory is the `FactorySource` value, with its body as a list of
  statements. "Writing" means appending to the returned list. An
  `IOException` is the `failingWrite` parameter, the position of the first
  write that throws.
- Message formatting is not modelled. Diagnostics carry the `Error`
  datatype. Two format strings in `FactoryProcessor.java` would themselves
  misbehave:
  - line 93 has a bare `@%`;
  - line 193 has four `%s` for three arguments.
- `process` in `FactoryProcessor.java:166-197` catches
  `IllegalArgumentException` and `IdAlreadyUsedException`. But
  `FactoryAnnotatedClass` and `FactoryGroupedClasses.add` throw
  `ProcessingException`, which those handlers do not catch. The model
  follows the evident design, which is report and end the round. It does
  not model an exception escaping `process`.
- A round that ends on an element error or a failed write does not clear
  the registry, because `clear()` at line 204 is reached only after every
  write succeeds. The model keeps this behaviour. The next round therefore
  sees the groups of the aborted one.
- The processor's `init`, `getSupportedAnnotationTypes` and
  `getSupportedSourceVersion` are not modelled. They only wire the
  utilities and declare constants.
- `IdAlreadyUsedException` and `ProcessingException` are represented only
  as the `Thrown` and `Error` values they carry.
- `PizzaStore.java` and the `readConsole`/`main` methods of both stores are
  console I/O and are not modelled. The meal classes' `getPrice` (floating
  point) is not modelled either. `PizzaStore.order` delegating to
  `MealFactory.create` is modelled by `Run` on the generated factory.
- Validator.IsValidClass: requires that the superclass chain ends at
  `TypeKind.NONE` and resolves at every step (`Resolvable`), which the
  compiler guarantees of a well-formed program; a cyclic chain would loop
  forever in the source.
- FactoryGroups.FactoryClass.GenerateCode: requires a group name already
  set. On a group that was never added to, the source passes null to
  `getTypeElement` and fails; that path is not modelled.
- FactoryGroups.FactoryClass.GenerateCode: ids are modelled as the
  contents of string literals. The older writer puts an id into `"%s"`
  without escaping it, while JavaPoet's `$S` in the current one escapes
  quotes and backslashes; for such ids the two factories differ (or the
  older one does not compile), and the model treats both as the same
  literal.
- FactoryGroups.FactoryGroupedClasses.GenerateCode: for a target in the
  unnamed package the source passes a null package name to
  `JavaFile.builder`, which rejects it with a NullPointerException; no
  factory is written and the exception leaves `process`. The model does not
  capture this failure: it writes such a factory with no package.
- Processor.Step: requires every target type in the `Universe`
  (`ElementReady`). The source would fail with a NullPointerException on
  an unknown target; the compiler resolves every `type()` before the
  processor runs.
