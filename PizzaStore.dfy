/**
 * The sample pizza store: the hand-written `order` that the generated
 * MealFactory replaces, and the processing round over the three annotated
 * meal classes that generates it.
 */
module PizzaStore {
  import opened Results

  /** The three meal classes of the sample. */
  datatype Meal = MargheritaPizza | CalzonePizza | Tiramisu

  /** The name a customer orders a meal by; it is also the meal's @Factory id. */
  function MealName(m: Meal): string
  {
    match m
    case MargheritaPizza => "Margherita"
    case CalzonePizza => "Calzone"
    case Tiramisu => "Tiramisu"
  }

  const NullMealMessage: string := "Name of the meal is null!"

  /**
   * PizzaStore_HandWritten.order: null is refused first, then the name is
   * compared with each known meal in turn, and any other name is unknown.
   */
  function Order(mealName: Option<string>): (r: Result<Meal, string>)
    ensures mealName.None? ==> r == Failure(NullMealMessage)
    ensures r.Success? ==> mealName == Some(MealName(r.value))
    ensures mealName.Some? && r.Failure? ==>
      && r.error == "Unknown meal '" + mealName.value + "'"
      && forall m: Meal :: MealName(m) != mealName.value
  {
    match mealName
    case None => Failure(NullMealMessage)
    case Some(name) =>
      if name == "Margherita" then Success(MargheritaPizza)
      else if name == "Calzone" then Success(CalzonePizza)
      else if name == "Tiramisu" then Success(Tiramisu)
      else Failure("Unknown meal '" + name + "'")
  }

  /** Every meal can be ordered by its name, and by no other. */
  lemma OrderByName(m: Meal, name: string)
    ensures Order(Some(name)) == Success(m) <==> name == MealName(m)
  {
  }

  /** The meal names are distinct, so a name picks out at most one meal. */
  lemma MealNamesDistinct(m: Meal, m': Meal)
    ensures MealName(m) == MealName(m') ==> m == m'
  {
  }
}

/**
 * The pizza store's @Factory round: the Meal interface, java.lang.Object and
 * the three annotated meal classes, run through the processor.
 */
module MealSample {
  import opened Results
  import opened Elements
  import opened Errors
  import opened Descriptors
  import opened ItemsMaps
  import opened Emitter
  import opened Validator
  import opened Processor
  import opened PizzaStore

  const Package: string := "com.hannesdorfmann.annotationprocessing101.factory"
  const MealType: string := "com.hannesdorfmann.annotationprocessing101.factory.Meal"
  const ObjectType: string := "java.lang.Object"

  /** The qualified name of a meal's class. */
  function ClassOf(m: Meal): string
  {
    match m
    case MargheritaPizza => "com.hannesdorfmann.annotationprocessing101.factory.MargheritaPizza"
    case CalzonePizza => "com.hannesdorfmann.annotationprocessing101.factory.CalzonePizza"
    case Tiramisu => "com.hannesdorfmann.annotationprocessing101.factory.Tiramisu"
  }

  function SimpleClassName(m: Meal): string
  {
    match m
    case MargheritaPizza => "MargheritaPizza"
    case CalzonePizza => "CalzonePizza"
    case Tiramisu => "Tiramisu"
  }

  const MealInterface: Element :=
    Element(InterfaceKind, MealType, "Meal", Package, true, true, [], None, [], None)

  const ObjectClass: Element :=
    Element(ClassKind, ObjectType, "Object", "java.lang", true, false, [], None,
      [Constructor(0, true)], None)

  /** The types the processor looks up by name. */
  const Sample: Universe := map[MealType := MealInterface, ObjectType := ObjectClass]

  /**
   * A meal class annotated `@Factory(id = <its name>, type = Meal.class)`,
   * with the given visibility; it implements Meal, extends Object and has
   * the default constructor.
   */
  function MealClass(m: Meal, isPublic: bool, id: string): Element
  {
    Element(ClassKind, ClassOf(m), SimpleClassName(m), Package, isPublic, false,
      [MealType], Some(ObjectType), [Constructor(0, isPublic)],
      Some(FactoryAnnotation(Some(id), TypeName(MealType, "Meal"))))
  }

  function Annotated(m: Meal): Element
  {
    MealClass(m, true, MealName(m))
  }

  /** The sample's annotated classes, in the order the compiler reports them. */
  const SampleElements: seq<Element> :=
    [Annotated(MargheritaPizza), Annotated(CalzonePizza), Annotated(Tiramisu)]

  /** A meal class's superclass chain is Object and then ends. */
  lemma MealClassReady(m: Meal, isPublic: bool, id: string)
    ensures ElementReady(Sample, MealClass(m, isPublic, id))
  {
    var e := MealClass(m, isPublic, id);
    assert SuperclassAt(Sample, e.superclass, 2) == None;
    forall k: nat
      ensures SuperclassAt(Sample, e.superclass, k).Some? ==>
                SuperclassAt(Sample, e.superclass, k).value in Sample
    {
      if k > 0 {
        assert SuperclassAt(Sample, e.superclass, k) == SuperclassAt(Sample, None, k - 1);
      }
    }
  }

  /** Every annotated meal class passes validation against Meal. */
  lemma MealClassValid(m: Meal, id: string)
    requires id != ""
    ensures NewAnnotatedClass(MealClass(m, true, id)).Success?
    ensures Validate(Sample, NewAnnotatedClass(MealClass(m, true, id)).value) == Pass
  {
    var e := MealClass(m, true, id);
    assert e.constructors[0].parameterCount == 0 && e.constructors[0].isPublic;
  }

  /** The descriptor of an annotated meal class. */
  function MealItem(m: Meal): Descriptor
  {
    Descriptor(Annotated(m), MealName(m), MealType, "Meal")
  }

  /** One group, Meal, holding the three meals in the order they were reported. */
  function MealGroup(): (items: ItemsMap)
    ensures items.Valid() && KeyedById(items)
    ensures forall m: Meal :: MealName(m) in items.entries && items.entries[MealName(m)] == MealItem(m)
    ensures forall k :: k in items.entries ==> exists m: Meal :: MealName(m) == k
  {
    var items := ItemsMap(["Margherita", "Calzone", "Tiramisu"],
      map["Margherita" := MealItem(MargheritaPizza), "Calzone" := MealItem(CalzonePizza),
          "Tiramisu" := MealItem(Tiramisu)]);
    assert MealName(MargheritaPizza) == "Margherita";
    assert MealName(CalzonePizza) == "Calzone";
    assert MealName(Tiramisu) == "Tiramisu";
    items
  }

  /** The registry holding just the Meal group with the given items. */
  function MealRegistry(items: ItemsMap): (reg: Registry)
    ensures MealItems(items) ==> reg.Valid() && reg.Known(Sample)
  {
    Registry([MealType], map[MealType := items])
  }

  /** The Meal group's items are well formed and all target Meal. */
  ghost predicate MealItems(items: ItemsMap)
  {
    && items.Valid() && KeyedById(items)
    && forall id :: id in items.entries ==> items.entries[id].qualifiedGroupName == MealType
  }

  lemma MealItemsPut(items: ItemsMap, m: Meal)
    requires MealItems(items) && MealName(m) !in items.entries
    ensures MealItems(items.Put(MealItem(m)))
  {
  }

  /** A sample class is described by its meal's descriptor and passes validation. */
  lemma MealDescribed(m: Meal)
    ensures ElementReady(Sample, Annotated(m))
    ensures NewAnnotatedClass(Annotated(m)) == Success(MealItem(m))
    ensures Validate(Sample, MealItem(m)) == Pass
  {
    MealClassReady(m, true, MealName(m));
    MealClassValid(m, MealName(m));
  }

  /** Registering one more sample class adds its descriptor to the Meal group, created on first use. */
  lemma StepMeal(reg: Registry, items: ItemsMap, m: Meal)
    requires MealItems(items)
    requires (reg == EmptyRegistry && items == Empty) || reg == MealRegistry(items)
    requires MealName(m) !in items.entries
    ensures ElementReady(Sample, Annotated(m)) && reg.Valid() && reg.Known(Sample)
    ensures Step(Sample, reg, Annotated(m)) == Success(MealRegistry(items.Put(MealItem(m))))
  {
    MealDescribed(m);
    var d := MealItem(m);
    var reg1 := GetOrCreate(reg, MealType);
    assert reg1 == MealRegistry(items);
    assert reg1.groups[MealType := items.Put(d)] == map[MealType := items.Put(d)];
  }

  /** Scanning a sample class and then the rest: its descriptor joins the Meal group first. */
  lemma ScanMeal(reg: Registry, items: ItemsMap, m: Meal, rest: seq<Element>)
    requires MealItems(items)
    requires (reg == EmptyRegistry && items == Empty) || reg == MealRegistry(items)
    requires MealName(m) !in items.entries
    requires RoundReady(Sample, rest)
    ensures reg.Valid() && reg.Known(Sample) && MealItems(items.Put(MealItem(m)))
    ensures RoundReady(Sample, [Annotated(m)] + rest)
    ensures Scan(Sample, reg, [Annotated(m)] + rest) ==
      Scan(Sample, MealRegistry(items.Put(MealItem(m))), rest)
  {
    StepMeal(reg, items, m);
    MealItemsPut(items, m);
    ScanCons(Sample, reg, Annotated(m), rest);
  }

  /** Adding the three descriptors in the reported order builds the Meal group. */
  lemma PutsMakeMealGroup()
    ensures Empty.Put(MealItem(MargheritaPizza)).Put(MealItem(CalzonePizza)).Put(MealItem(Tiramisu))
            == MealGroup()
  {
    var items := Empty.Put(MealItem(MargheritaPizza)).Put(MealItem(CalzonePizza)).Put(MealItem(Tiramisu));
    assert items.keys == ["Margherita", "Calzone", "Tiramisu"];
    assert items.entries == MealGroup().entries;
  }

  /** Registering the three sample classes into an empty registry yields the Meal group. */
  lemma SampleScan()
    ensures RoundReady(Sample, SampleElements)
    ensures Scan(Sample, EmptyRegistry, SampleElements) ==
      ScanResult(Registry([MealType], map[MealType := MealGroup()]), None)
  {
    var em, ec, et := Annotated(MargheritaPizza), Annotated(CalzonePizza), Annotated(Tiramisu);
    assert [em] + ([ec] + ([et] + [])) == SampleElements;
    var i1 := Empty.Put(MealItem(MargheritaPizza));
    var i2 := i1.Put(MealItem(CalzonePizza));
    var i3 := i2.Put(MealItem(Tiramisu));
    MealItemsPut(Empty, MargheritaPizza);
    MealItemsPut(i1, CalzonePizza);
    MealItemsPut(i2, Tiramisu);
    ScanMeal(MealRegistry(i2), i2, Tiramisu, []);
    ScanMeal(MealRegistry(i1), i1, CalzonePizza, [et] + []);
    ScanMeal(EmptyRegistry, Empty, MargheritaPizza, [ec] + ([et] + []));
    PutsMakeMealGroup();
  }

  /** The factory the sample round generates for Meal. */
  function MealFactory(): FactorySource
  {
    FactoryFor(Sample, MealType, MealGroup().Values())
  }

  /** MealFactory sits beside Meal, in the sample's package, and returns Meal. */
  lemma MealFactoryNames()
    ensures MealFactory().className == "MealFactory"
    ensures MealFactory().qualifiedName == Package + "." + "MealFactory"
    ensures MealFactory().packageName == Some(Package)
    ensures MealFactory().returnType == MealType
  {
    assert Sample[MealType] == MealInterface;
    assert MealInterface.simpleName + Suffix == "MealFactory";
    assert FileName(MealInterface) == Package + "." + "MealFactory";
  }

  /** The sample round reports nothing, writes the Meal factory alone and empties the registry. */
  lemma SampleRound()
    ensures RoundReady(Sample, SampleElements)
    ensures ProcessRound(Sample, EmptyRegistry, SampleElements, None) ==
      RoundResult(EmptyRegistry, [], [MealFactory()])
  {
    SampleScan();
    MealGroupEmits();
  }

  /** The registry holding the Meal group emits MealFactory alone. */
  lemma MealGroupEmits()
    ensures MealRegistry(MealGroup()).Valid() && MealRegistry(MealGroup()).Known(Sample)
    ensures EmitAll(Sample, MealRegistry(MealGroup())) == [MealFactory()]
  {
    var reg := MealRegistry(MealGroup());
    assert MealItems(MealGroup());
    assert reg.order[0] == MealType;
  }

  /**
   * The generated `MealFactory.create` builds exactly the meal the
   * hand-written `order` returns, for every name, and refuses null and every
   * name `order` refuses; only the messages differ.
   */
  lemma MealFactoryMatchesOrder(name: Option<string>)
    ensures match Order(name)
      case Success(m) => Run(MealFactory().body, name) == Instance(ClassOf(m))
      case Failure(_) =>
        Run(MealFactory().body, name) ==
          if name.None? then IllegalArgument(NullIdMessage)
          else IllegalArgument(UnknownIdPrefix + name.value)
  {
    var group := MealGroup();
    assert MealFactory().body == CreateBody(group.Values());
    RunCreateBody(group, name);
    if Order(name).Success? {
      var m := Order(name).value;
      assert group.entries[MealName(m)] == MealItem(m);
    } else if name.Some? {
      assert name.value !in group.entries;
    }
  }

  /**
   * The sample round: no diagnostic, one factory named MealFactory in the
   * sample's package, returning Meal, and the registry emptied; its `create`
   * dispatches on the names exactly as the hand-written `order` does.
   */
  lemma GeneratedFactoryMatchesHandWritten()
    ensures RoundReady(Sample, SampleElements)
    ensures var out := ProcessRound(Sample, EmptyRegistry, SampleElements, None);
      && out.diagnostics == [] && out.registry == EmptyRegistry && |out.written| == 1
      && out.written[0].qualifiedName == Package + "." + "MealFactory"
      && out.written[0].className == "MealFactory"
      && out.written[0].packageName == Some(Package)
      && out.written[0].returnType == MealType
      && forall name: Option<string> ::
           (Order(name).Success? <==> Run(out.written[0].body, name).Instance?)
           && (Order(name).Success? ==> Run(out.written[0].body, name) == Instance(ClassOf(Order(name).value)))
  {
    SampleRound();
    MealFactoryNames();
    forall name: Option<string>
      ensures (Order(name).Success? <==> Run(MealFactory().body, name).Instance?)
        && (Order(name).Success? ==> Run(MealFactory().body, name) == Instance(ClassOf(Order(name).value)))
    {
      MealFactoryMatchesOrder(name);
    }
  }

  /**
   * A second class claiming the id "Calzone" for Meal ends the round with a
   * conflict that names both classes; nothing is written and the registry
   * keeps the classes reported before it.
   */
  lemma DuplicateIdStopsTheRound()
    ensures var second := MealClass(Tiramisu, true, "Calzone");
      var elements := [Annotated(CalzonePizza), second, Annotated(MargheritaPizza)];
      && RoundReady(Sample, elements)
      && var out := ProcessRound(Sample, EmptyRegistry, elements, None);
      && out.written == []
      && out.diagnostics == [Diagnostic(Some(ClassOf(Tiramisu)),
           IdConflict(ClassOf(Tiramisu), "Calzone", ClassOf(CalzonePizza)))]
      && out.registry.order == [MealType]
  {
    var first := Annotated(CalzonePizza);
    var second := MealClass(Tiramisu, true, "Calzone");
    var third := Annotated(MargheritaPizza);
    assert [first] + ([second] + ([third] + [])) == [first, second, third];
    var i1 := Empty.Put(MealItem(CalzonePizza));
    var r1 := MealRegistry(i1);
    StepMeal(EmptyRegistry, Empty, CalzonePizza);
    MealItemsPut(Empty, CalzonePizza);
    MealClassReady(Tiramisu, true, "Calzone");
    MealClassReady(MargheritaPizza, true, "Margherita");
    MealClassValid(Tiramisu, "Calzone");
    StepRegistersInItsGroup(Sample, EmptyRegistry, first);
    SameIdSameTargetConflicts(Sample, r1, MealItem(CalzonePizza), second);
    ScanCons(Sample, r1, third, []);
    ScanCons(Sample, r1, second, [third] + []);
    ScanCons(Sample, EmptyRegistry, first, [second] + ([third] + []));
  }

  /**
   * A meal class that is not public is refused as such; the round reports
   * it and writes nothing.
   */
  lemma NonPublicMealStopsTheRound()
    ensures var hidden := MealClass(Tiramisu, false, "Tiramisu");
      && RoundReady(Sample, [hidden])
      && var out := ProcessRound(Sample, EmptyRegistry, [hidden], None);
      && out.written == []
      && out.diagnostics == [Diagnostic(Some(ClassOf(Tiramisu)), NotPublic(ClassOf(Tiramisu)))]
      && out.registry == EmptyRegistry
  {
    MealClassReady(Tiramisu, false, "Tiramisu");
  }
}
