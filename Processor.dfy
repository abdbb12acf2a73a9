/**
 * FactoryProcessor.process: one processing round. Every annotated element is
 * described, validated and registered in the group of its target type; the
 * first error is reported and ends the round. A round without errors
 * generates one factory per group, in the order the groups were created,
 * and then empties the registry.
 */
module Processor {
  import opened Results
  import opened Elements
  import opened Errors
  import opened Descriptors
  import opened ItemsMaps
  import opened Emitter
  import opened Validator
  import opened FactoryGroups

  /** The `factoryClasses` LinkedHashMap, as a value: group names in creation order and each group's items. */
  datatype Registry = Registry(order: seq<string>, groups: map<string, ItemsMap>)
  {
    /**
     * Group names are distinct and are exactly the groups; in every group
     * each id is stored under itself and every member targets the group.
     */
    ghost predicate Valid()
    {
      && (forall i, j :: 0 <= i < j < |order| ==> order[i] != order[j])
      && (forall k :: k in groups <==> k in order)
      && (forall k :: k in groups ==> groups[k].Valid() && KeyedById(groups[k]))
      && (forall k, id :: k in groups && id in groups[k].entries ==>
            groups[k].entries[id].qualifiedGroupName == k)
    }

    /** Every group's target type can be looked up. */
    ghost predicate Known(u: Universe)
    {
      forall k :: k in groups ==> k in u
    }
  }

  const EmptyRegistry: Registry := Registry([], map[])

  /** What the compiler guarantees of an element handed to the processor. */
  ghost predicate ElementReady(u: Universe, e: Element)
  {
    && e.factory.Some?
    && (e.kind == ClassKind ==> e.factory.value.target.qualifiedName in u && Resolvable(u, e))
  }

  ghost predicate RoundReady(u: Universe, elements: seq<Element>)
  {
    forall i :: 0 <= i < |elements| ==> ElementReady(u, elements[i])
  }

  /** The group named `name`, created empty when it does not exist yet. */
  function GetOrCreate(reg: Registry, name: string): (r: Registry)
    ensures name in r.groups
    ensures reg.Valid() ==> r.Valid()
    ensures name in reg.groups ==> r == reg
    ensures name !in reg.groups ==> r.order == reg.order + [name] && r.groups == reg.groups[name := Empty]
  {
    if name in reg.groups then reg
    else Registry(reg.order + [name], reg.groups[name := Empty])
  }

  /** Putting a fresh id into its target's group keeps the registry valid. */
  lemma RegistryPut(reg: Registry, name: string, d: Descriptor)
    requires reg.Valid() && name in reg.groups && d.qualifiedGroupName == name
    requires d.id !in reg.groups[name].entries
    ensures Registry(reg.order, reg.groups[name := reg.groups[name].Put(d)]).Valid()
  {
  }

  /** The descriptor `d` is stored in the group of its target under its id. */
  ghost predicate Registered(reg: Registry, d: Descriptor)
  {
    && d.qualifiedGroupName in reg.groups
    && d.id in reg.groups[d.qualifiedGroupName].entries
    && reg.groups[d.qualifiedGroupName].entries[d.id] == d
  }

  /**
   * Processing of one annotated element: the new registry, or the error that
   * ends the round. Only a class with an id that passes validation gets
   * through, and it is then stored in the group of its target.
   */
  ghost function Step(u: Universe, reg: Registry, e: Element): (r: Result<Registry, Diagnostic>)
    requires ElementReady(u, e) && reg.Valid() && reg.Known(u)
    ensures r.Success? ==> r.value.Valid() && r.value.Known(u)
    ensures r.Failure? ==> r.error.element == Some(e.qualifiedName)
  {
    if e.kind != ClassKind then
      Failure(Diagnostic(Some(e.qualifiedName), NotAClass(e.qualifiedName)))
    else match NewAnnotatedClass(e)
      case Failure(thrown) => Failure(Diagnostic(Some(e.qualifiedName), thrown.error))
      case Success(d) =>
        match Validate(u, d)
        case Fail(err) => Failure(Diagnostic(Some(e.qualifiedName), err))
        case Pass =>
          var reg1 := GetOrCreate(reg, d.qualifiedGroupName);
          var group := reg1.groups[d.qualifiedGroupName];
          if d.id in group.entries then
            Failure(Diagnostic(Some(e.qualifiedName),
              IdConflict(e.qualifiedName, d.id, group.entries[d.id].element.qualifiedName)))
          else
            Success(Registry(reg1.order, reg1.groups[d.qualifiedGroupName := group.Put(d)]))
  }

  /**
   * The refusals that come before the registry: an element that is not a
   * class, a class without an id and a class that fails validation are
   * reported with their own error, and the registry is not touched.
   */
  lemma StepRefusals(u: Universe, reg: Registry, e: Element)
    requires ElementReady(u, e) && reg.Valid() && reg.Known(u)
    ensures e.kind != ClassKind ==>
      Step(u, reg, e) == Failure(Diagnostic(Some(e.qualifiedName), NotAClass(e.qualifiedName)))
    ensures e.kind == ClassKind && IsEmpty(e.factory.value.id) ==>
      Step(u, reg, e) == Failure(Diagnostic(Some(e.qualifiedName), EmptyId(e.qualifiedName)))
    ensures e.kind == ClassKind && NewAnnotatedClass(e).Success?
            && Validate(u, NewAnnotatedClass(e).value).Fail? ==>
      Step(u, reg, e) ==
        Failure(Diagnostic(Some(e.qualifiedName), Validate(u, NewAnnotatedClass(e).value).error))
  {
  }

  /** A step that succeeds never moves or replaces an item that was already registered. */
  lemma StepKeepsEntries(u: Universe, reg: Registry, e: Element, d: Descriptor)
    requires ElementReady(u, e) && reg.Valid() && reg.Known(u)
    requires Step(u, reg, e).Success? && Registered(reg, d)
    ensures Registered(Step(u, reg, e).value, d)
  {
  }

  /**
   * Only a class with an id that passes validation gets through a step, and
   * it lands in the group of its target type: a new target name is appended
   * to the creation order, the descriptor is appended to the group, and every
   * other group stays as it was.
   */
  lemma StepRegistersInItsGroup(u: Universe, reg: Registry, e: Element)
    requires ElementReady(u, e) && reg.Valid() && reg.Known(u)
    requires Step(u, reg, e).Success?
    ensures e.kind == ClassKind && NewAnnotatedClass(e).Success?
    ensures Validate(u, NewAnnotatedClass(e).value) == Pass
    ensures var d := NewAnnotatedClass(e).value;
      var name := d.qualifiedGroupName;
      var r := Step(u, reg, e).value;
      && name in r.groups && Registered(r, d)
      && r.order == (if name in reg.groups then reg.order else reg.order + [name])
      && r.groups[name].Values() ==
           (if name in reg.groups then reg.groups[name].Values() else []) + [d]
      && r.groups.Keys == reg.groups.Keys + {name}
      && forall k :: k in reg.groups && k != name ==> r.groups[k] == reg.groups[k]
  {
    var d := NewAnnotatedClass(e).value;
    var reg1 := GetOrCreate(reg, d.qualifiedGroupName);
    var group := reg1.groups[d.qualifiedGroupName];
    assert Step(u, reg, e).value ==
      Registry(reg1.order, reg1.groups[d.qualifiedGroupName := group.Put(d)]);
  }

  datatype ScanResult = ScanResult(registry: Registry, failure: Option<Diagnostic>)

  /**
   * The loop over the annotated elements: each one in turn, stopping at the
   * first error with the registry as it was at that point.
   */
  ghost function Scan(u: Universe, reg: Registry, elements: seq<Element>): (r: ScanResult)
    requires RoundReady(u, elements) && reg.Valid() && reg.Known(u)
    ensures r.registry.Valid() && r.registry.Known(u)
    decreases |elements|
  {
    if elements == [] then ScanResult(reg, None)
    else match Step(u, reg, elements[0])
      case Failure(diagnostic) => ScanResult(reg, Some(diagnostic))
      case Success(reg') => Scan(u, reg', elements[1..])
  }

  /** Scanning a non-empty sequence is a step on its first element, then a scan of the others. */
  lemma ScanHead(u: Universe, reg: Registry, elements: seq<Element>)
    requires RoundReady(u, elements) && reg.Valid() && reg.Known(u) && elements != []
    ensures RoundReady(u, elements[1..])
    ensures Step(u, reg, elements[0]).Failure? ==>
      Scan(u, reg, elements) == ScanResult(reg, Some(Step(u, reg, elements[0]).error))
    ensures Step(u, reg, elements[0]).Success? ==>
      Scan(u, reg, elements) == Scan(u, Step(u, reg, elements[0]).value, elements[1..])
  {
  }

  /** Scanning a first element and then the rest. */
  lemma ScanCons(u: Universe, reg: Registry, e: Element, rest: seq<Element>)
    requires ElementReady(u, e) && RoundReady(u, rest) && reg.Valid() && reg.Known(u)
    ensures RoundReady(u, [e] + rest)
    ensures Step(u, reg, e).Failure? ==>
      Scan(u, reg, [e] + rest) == ScanResult(reg, Some(Step(u, reg, e).error))
    ensures Step(u, reg, e).Success? ==>
      Scan(u, reg, [e] + rest) == Scan(u, Step(u, reg, e).value, rest)
  {
    assert ([e] + rest)[1..] == rest;
  }

  /** The factory of every group, in the order the groups were created. */
  function EmitAll(u: Universe, reg: Registry): (fs: seq<FactorySource>)
    requires reg.Valid() && reg.Known(u)
    ensures |fs| == |reg.order|
  {
    seq(|reg.order|, i requires 0 <= i < |reg.order| =>
      FactoryFor(u, reg.order[i], reg.groups[reg.order[i]].Values()))
  }

  /**
   * The i-th factory emitted returns the i-th group's target type, is named
   * after it, and its `create` behaves like a lookup in that group.
   */
  lemma EmitAllDispatch(u: Universe, reg: Registry)
    requires reg.Valid() && reg.Known(u)
    ensures var fs := EmitAll(u, reg);
      && (forall i :: 0 <= i < |fs| ==>
            fs[i].returnType == reg.order[i] && fs[i].className == u[reg.order[i]].simpleName + Suffix)
      && (forall i, id :: 0 <= i < |fs| ==>
            Run(fs[i].body, id) == Create(reg.groups[reg.order[i]], id))
  {
    var fs := EmitAll(u, reg);
    forall i, id | 0 <= i < |fs|
      ensures Run(fs[i].body, id) == Create(reg.groups[reg.order[i]], id)
    {
      RunCreateBody(reg.groups[reg.order[i]], id);
    }
  }

  datatype RoundResult = RoundResult(
    registry: Registry,
    diagnostics: seq<Diagnostic>,
    written: seq<FactorySource>)

  /**
   * One call of `process`. `failingWrite` is the position, in emission order,
   * of the first factory whose file write throws IOException, if any.
   */
  ghost function ProcessRound(u: Universe, reg: Registry, elements: seq<Element>,
                              failingWrite: Option<nat>): (r: RoundResult)
    requires RoundReady(u, elements) && reg.Valid() && reg.Known(u)
    ensures |r.diagnostics| <= 1
  {
    var scanned := Scan(u, reg, elements);
    if scanned.failure.Some? then
      RoundResult(scanned.registry, [scanned.failure.value], [])
    else
      var all := EmitAll(u, scanned.registry);
      if failingWrite.Some? && failingWrite.value < |all| then
        RoundResult(scanned.registry, [Diagnostic(None, WriteFailed)], all[..failingWrite.value])
      else
        RoundResult(EmptyRegistry, [], all)
  }

  /**
   * When element `i` is the first to fail, the round ends there: later
   * elements are never looked at, and the registry keeps what the elements
   * before `i` registered.
   */
  lemma {:induction false} ScanStopsAtFirstFailure(u: Universe, reg: Registry,
                                                   elements: seq<Element>, i: nat)
    requires RoundReady(u, elements) && reg.Valid() && reg.Known(u)
    requires i < |elements|
    requires Scan(u, reg, elements[..i]).failure.None?
    requires Step(u, Scan(u, reg, elements[..i]).registry, elements[i]).Failure?
    ensures Scan(u, reg, elements) ==
      ScanResult(Scan(u, reg, elements[..i]).registry,
                 Some(Step(u, Scan(u, reg, elements[..i]).registry, elements[i]).error))
    decreases i
  {
    if i == 0 {
      ScanHead(u, reg, elements);
      assert elements[..i] == [];
    } else {
      ScanPrefixHead(u, reg, elements, i);
      ScanStopsAtFirstFailure(u, Step(u, reg, elements[0]).value, elements[1..], i - 1);
    }
  }

  /** Dropping the head of a prefix is taking a prefix of the tail. */
  lemma PrefixTail<T>(s: seq<T>, i: nat)
    requires 0 < i <= |s|
    ensures s[..i][0] == s[0] && s[..i][1..] == s[1..][..i - 1]
  {
  }

  /** Extending a prefix by the next element gives the prefix one longer. */
  lemma TakeOneMore<T>(prefix: seq<T>, s: seq<T>, j: nat, x: T)
    requires j < |s| && prefix == s[..j] && x == s[j]
    ensures prefix + [x] == s[..j + 1]
  {
    assert s[..j + 1] == s[..j] + [s[j]];
  }

  lemma ReadyPrefix(u: Universe, elements: seq<Element>, i: nat)
    requires RoundReady(u, elements) && i <= |elements|
    ensures RoundReady(u, elements[..i])
  {
  }

  /** A prefix scanned without error began with a successful step on the first element. */
  lemma ScanPrefixHead(u: Universe, reg: Registry, elements: seq<Element>, i: nat)
    requires RoundReady(u, elements) && reg.Valid() && reg.Known(u)
    requires 0 < i < |elements|
    requires Scan(u, reg, elements[..i]).failure.None?
    ensures RoundReady(u, elements[1..]) && elements[1..][i - 1] == elements[i]
    ensures Step(u, reg, elements[0]).Success?
    ensures Scan(u, reg, elements) == Scan(u, Step(u, reg, elements[0]).value, elements[1..])
    ensures Scan(u, reg, elements[..i]) ==
      Scan(u, Step(u, reg, elements[0]).value, elements[1..][..i - 1])
  {
    var prefix := elements[..i];
    PrefixTail(elements, i);
    ReadyPrefix(u, elements, i);
    ScanHead(u, reg, elements);
    ScanHead(u, reg, prefix);
  }

  /** Registered items stay registered, unchanged, through the rest of the loop. */
  lemma {:induction false} ScanKeepsEntries(u: Universe, reg: Registry, elements: seq<Element>, d: Descriptor)
    requires RoundReady(u, elements) && reg.Valid() && reg.Known(u)
    requires Registered(reg, d)
    ensures Registered(Scan(u, reg, elements).registry, d)
    decreases |elements|
  {
    if elements != [] {
      ScanHead(u, reg, elements);
      if Step(u, reg, elements[0]).Success? {
        StepKeepsEntries(u, reg, elements[0], d);
        ScanKeepsEntries(u, Step(u, reg, elements[0]).value, elements[1..], d);
      }
    }
  }

  /**
   * A round without element errors: every element is a class with an id
   * that passed validation, and each one's descriptor is stored in the group
   * of its target when the loop ends.
   */
  lemma {:induction false} ScanAllRegistered(u: Universe, reg: Registry, elements: seq<Element>)
    requires RoundReady(u, elements) && reg.Valid() && reg.Known(u)
    requires Scan(u, reg, elements).failure.None?
    ensures forall e :: e in elements ==>
      && e.kind == ClassKind && !IsEmpty(e.factory.value.id)
      && Validate(u, NewAnnotatedClass(e).value) == Pass
      && Registered(Scan(u, reg, elements).registry, NewAnnotatedClass(e).value)
    decreases |elements|
  {
    if elements != [] {
      ScanHead(u, reg, elements);
      var e0 := elements[0];
      var reg1 := Step(u, reg, e0).value;
      StepRegistersInItsGroup(u, reg, e0);
      ScanKeepsEntries(u, reg1, elements[1..], NewAnnotatedClass(e0).value);
      ScanAllRegistered(u, reg1, elements[1..]);
      forall e | e in elements
        ensures && e.kind == ClassKind && !IsEmpty(e.factory.value.id)
                && Validate(u, NewAnnotatedClass(e).value) == Pass
                && Registered(Scan(u, reg, elements).registry, NewAnnotatedClass(e).value)
      {
        if e != e0 {
          assert e in elements[1..];
        }
      }
    }
  }

  /**
   * What a round leaves behind: at most one diagnostic; after an element
   * error nothing is written and the registry is not cleared; after a write
   * failure only the factories before it are written and the registry is not
   * cleared; after a clean round every group's factory is written, in
   * creation order, and the registry is empty.
   */
  lemma RoundOutcome(u: Universe, reg: Registry, elements: seq<Element>, failingWrite: Option<nat>)
    requires RoundReady(u, elements) && reg.Valid() && reg.Known(u)
    ensures var out := ProcessRound(u, reg, elements, failingWrite);
      var scanned := Scan(u, reg, elements);
      && |out.diagnostics| <= 1
      && out.written <= EmitAll(u, scanned.registry)
      && (scanned.failure.Some? ==>
            out.written == [] && out.registry == scanned.registry
            && out.diagnostics == [scanned.failure.value])
      && (scanned.failure.None? && failingWrite.Some? && failingWrite.value < |scanned.registry.order| ==>
            out.registry == scanned.registry
            && out.diagnostics == [Diagnostic(None, WriteFailed)]
            && out.written == EmitAll(u, scanned.registry)[..failingWrite.value])
      && (out.diagnostics == [] <==>
            scanned.failure.None? &&
            (failingWrite.None? || failingWrite.value >= |scanned.registry.order|))
      && (out.diagnostics == [] ==>
            out.registry == EmptyRegistry && out.written == EmitAll(u, scanned.registry))
  {
  }

  /**
   * Every factory a clean round writes belongs to one group, in creation
   * order, and its `create` builds, for each member id, that member's class;
   * it fails on null and on every id that is not a member.
   */
  lemma CleanRoundFactoriesDispatch(u: Universe, reg: Registry, elements: seq<Element>)
    requires RoundReady(u, elements) && reg.Valid() && reg.Known(u)
    requires ProcessRound(u, reg, elements, None).diagnostics == []
    ensures var out := ProcessRound(u, reg, elements, None);
      var groups := Scan(u, reg, elements).registry;
      && |out.written| == |groups.order|
      && forall i, id :: 0 <= i < |out.written| ==>
           && out.written[i].returnType == groups.order[i]
           && out.written[i].className == u[groups.order[i]].simpleName + "Factory"
           && Run(out.written[i].body, id) == Create(groups.groups[groups.order[i]], id)
  {
    EmitAllDispatch(u, Scan(u, reg, elements).registry);
  }

  /**
   * Ids are unique per target type: while an item is registered, any valid
   * class with the same target and the same id is a conflict that names the
   * new class, the id and the class already registered, whenever it comes.
   */
  lemma SameIdSameTargetConflicts(u: Universe, reg: Registry, d: Descriptor, e: Element)
    requires reg.Valid() && reg.Known(u) && ElementReady(u, e)
    requires Registered(reg, d)
    requires e.kind == ClassKind && !IsEmpty(e.factory.value.id)
    requires e.factory.value.id.value == d.id
    requires e.factory.value.target.qualifiedName == d.qualifiedGroupName
    requires Validate(u, NewAnnotatedClass(e).value) == Pass
    ensures Step(u, reg, e) ==
      Failure(Diagnostic(Some(e.qualifiedName), IdConflict(e.qualifiedName, d.id, d.element.qualifiedName)))
  {
  }

  /**
   * When a step succeeds: exactly for a class with an id that passes
   * validation and whose id is not yet taken in its target's group.
   */
  lemma StepSucceedsIff(u: Universe, reg: Registry, e: Element)
    requires ElementReady(u, e) && reg.Valid() && reg.Known(u)
    ensures Step(u, reg, e).Success? <==>
      && e.kind == ClassKind && NewAnnotatedClass(e).Success?
      && Validate(u, NewAnnotatedClass(e).value) == Pass
      && var d := NewAnnotatedClass(e).value;
         !(d.qualifiedGroupName in reg.groups && d.id in reg.groups[d.qualifiedGroupName].entries)
  {
  }

  /**
   * Ids are not global: an element that registers without error keeps doing
   * so after an element of another target type has registered the same id.
   */
  lemma SameIdOtherTargetCoexists(u: Universe, reg: Registry, first: Element, second: Element)
    requires reg.Valid() && reg.Known(u) && ElementReady(u, first) && ElementReady(u, second)
    requires Step(u, reg, first).Success? && Step(u, reg, second).Success?
    requires second.factory.value.target.qualifiedName != first.factory.value.target.qualifiedName
    ensures Step(u, Step(u, reg, first).value, second).Success?
  {
    var d1 := NewAnnotatedClass(first).value;
    var d2 := NewAnnotatedClass(second).value;
    var reg1 := Step(u, reg, first).value;
    assert GetOrCreate(reg1, d2.qualifiedGroupName).groups[d2.qualifiedGroupName]
        == GetOrCreate(reg, d2.qualifiedGroupName).groups[d2.qualifiedGroupName];
  }

  /** The annotation processor and its registry of groups. */
  class FactoryProcessor {
    var factoryClasses: map<string, FactoryGroupedClasses>
    var groupOrder: seq<string>
    ghost var Repr: set<object>

    /** Every group object sits in Repr under its own name, and no two names share one. */
    ghost predicate Wired()
      reads this, Repr
    {
      && (forall k :: k in factoryClasses ==>
            factoryClasses[k] in Repr && factoryClasses[k].qualifiedClassName == k)
      && (forall k, k' :: k in factoryClasses && k' in factoryClasses && k != k' ==>
            factoryClasses[k] != factoryClasses[k'])
    }

    /** The registry the processor holds. */
    ghost function Model(): Registry
      reads this, Repr
      requires Wired()
    {
      Registry(groupOrder, map k | k in factoryClasses :: factoryClasses[k].itemsMap)
    }

    ghost predicate Valid()
      reads this, Repr
    {
      Wired() && Model().Valid()
    }

    constructor ()
      ensures Valid() && Model() == EmptyRegistry
    {
      factoryClasses := map[];
      groupOrder := [];
      Repr := {};
    }

    /**
     * `factoryClasses.get(name)`, creating and putting an empty group when
     * there is none: a new name goes at the end of the order.
     */
    method GroupFor(name: string) returns (factoryClass: FactoryGroupedClasses)
      requires Valid()
      modifies this
      ensures Valid() && fresh(Repr - old(Repr))
      ensures name in factoryClasses && factoryClass == factoryClasses[name]
      ensures Model() == GetOrCreate(old(Model()), name)
    {
      ghost var before := Model();
      if name in factoryClasses {
        factoryClass := factoryClasses[name];
      } else {
        factoryClass := new FactoryGroupedClasses(name);
        factoryClasses := factoryClasses[name := factoryClass];
        groupOrder := groupOrder + [name];
        Repr := Repr + {factoryClass};
        assert Model().groups == before.groups[name := Empty];
        assert Model() == GetOrCreate(before, name);
      }
    }

    /**
     * `factoryClass.add(annotatedClass)` on the group already registered under
     * the target's name: only that group changes.
     */
    method AddTo(factoryClass: FactoryGroupedClasses, annotatedClass: Descriptor)
      returns (r: Outcome<Error>)
      requires Valid()
      requires annotatedClass.qualifiedGroupName in factoryClasses
      requires factoryClass == factoryClasses[annotatedClass.qualifiedGroupName]
      modifies factoryClass
      ensures Valid()
      ensures var name := annotatedClass.qualifiedGroupName;
        var group := old(Model()).groups[name];
        if annotatedClass.id in group.entries then
          && r == Fail(IdConflict(annotatedClass.element.qualifiedName, annotatedClass.id,
                                  group.entries[annotatedClass.id].element.qualifiedName))
          && Model() == old(Model())
        else
          r.Pass? && Model() == Registry(old(Model()).order, old(Model()).groups[name := group.Put(annotatedClass)])
    {
      var groupName := annotatedClass.qualifiedGroupName;
      ghost var before := Model();
      assert factoryClass.itemsMap == before.groups[groupName];
      r := factoryClass.Add(annotatedClass);
      ghost var after := Registry(before.order, before.groups[groupName := factoryClass.itemsMap]);
      assert Model() == after by {
        forall k | k in factoryClasses && k != groupName
          ensures factoryClasses[k].itemsMap == before.groups[k]
        {
          assert factoryClasses[k] != factoryClass;
        }
      }
      if r.Pass? {
        RegistryPut(before, groupName, annotatedClass);
      } else {
        assert after == before;
      }
    }

    /**
     * Get-or-create of the group named after the target type, then the add:
     * the descriptor goes into its target's group unless the id is taken
     * there, in which case nothing but the group creation happened.
     */
    method AddToGroup(annotatedClass: Descriptor) returns (r: Outcome<Error>)
      requires Valid()
      modifies this, Repr
      ensures Valid() && fresh(Repr - old(Repr))
      ensures var name := annotatedClass.qualifiedGroupName;
        var reg1 := GetOrCreate(old(Model()), name);
        var group := reg1.groups[name];
        if annotatedClass.id in group.entries then
          && r == Fail(IdConflict(annotatedClass.element.qualifiedName, annotatedClass.id,
                                  group.entries[annotatedClass.id].element.qualifiedName))
          && Model() == old(Model())
        else
          r.Pass? && Model() == Registry(reg1.order, reg1.groups[name := group.Put(annotatedClass)])
    {
      var factoryClass := GroupFor(annotatedClass.qualifiedGroupName);
      r := AddTo(factoryClass, annotatedClass);
    }

    /**
     * The body of the loop in `process` for one annotated element: the kind
     * check, the descriptor, the validation, then get-or-create of the group
     * and the add. On an error the registry is left as it was.
     */
    method Register(u: Universe, annotatedElement: Element) returns (failure: Option<Diagnostic>)
      requires Valid() && Model().Known(u) && ElementReady(u, annotatedElement)
      modifies this, Repr
      ensures Valid() && Model().Known(u) && fresh(Repr - old(Repr))
      ensures var step := Step(u, old(Model()), annotatedElement);
        if step.Success? then failure.None? && Model() == step.value
        else failure == Some(step.error) && Model() == old(Model())
    {
      var name := annotatedElement.qualifiedName;
      if annotatedElement.kind != ClassKind {
        return Some(Diagnostic(Some(name), NotAClass(name)));
      }
      var created := NewAnnotatedClass(annotatedElement);
      if created.Failure? {
        return Some(Diagnostic(Some(name), created.error.error));
      }
      var annotatedClass := created.value;
      var valid := IsValidClass(u, annotatedClass);
      if valid.Fail? {
        return Some(Diagnostic(Some(name), valid.error));
      }
      var added := AddToGroup(annotatedClass);
      if added.Fail? {
        return Some(Diagnostic(Some(name), added.error));
      }
      failure := None;
    }

    /**
     * The factory of the j-th group created: the j-th of the factories the
     * registry emits, which the caller passes as `emitted`.
     */
    method FactoryAt(u: Universe, j: nat, ghost emitted: seq<FactorySource>) returns (src: FactorySource)
      requires Valid() && Model().Known(u) && j < |groupOrder|
      requires emitted == EmitAll(u, Model())
      ensures src == emitted[j]
    {
      assert groupOrder[j] in Model().groups;
      var factoryClass := factoryClasses[groupOrder[j]];
      assert factoryClass.itemsMap == Model().groups[groupOrder[j]];
      src := factoryClass.GenerateCode(u);
    }

    /** Writes the j-th factory after the ones before it. */
    method WriteNext(u: Universe, j: nat, ghost emitted: seq<FactorySource>, written: seq<FactorySource>)
      returns (extended: seq<FactorySource>)
      requires Valid() && Model().Known(u) && j < |groupOrder|
      requires emitted == EmitAll(u, Model()) && written == emitted[..j]
      ensures extended == emitted[..j + 1]
    {
      var src := FactoryAt(u, j, emitted);
      TakeOneMore(written, emitted, j, src);
      extended := written + [src];
    }

    /**
     * The write loop of `process`: each group's factory in creation order,
     * stopping at the write that throws, if any.
     */
    method WriteInOrder(u: Universe, failingWrite: Option<nat>)
      returns (failure: Option<Diagnostic>, written: seq<FactorySource>)
      requires Valid() && Model().Known(u)
      ensures var all := EmitAll(u, Model());
        if failingWrite.Some? && failingWrite.value < |all| then
          failure == Some(Diagnostic(None, WriteFailed)) && written == all[..failingWrite.value]
        else
          failure.None? && written == all
    {
      ghost var emitted := EmitAll(u, Model());
      var fails := failingWrite.Some? && failingWrite.value < |groupOrder|;
      var n := if fails then failingWrite.value else |groupOrder|;
      written := [];
      var j := 0;
      while j < n
        invariant 0 <= j <= n <= |groupOrder| == |emitted|
        invariant written == emitted[..j]
      {
        written := WriteNext(u, j, emitted, written);
        j := j + 1;
      }
      if fails {
        failure := Some(Diagnostic(None, WriteFailed));
      } else {
        assert written == emitted;
        failure := None;
      }
    }

    /**
     * The end of `process`: the factories are written, and the registry is
     * cleared only when every write succeeded.
     */
    method WriteAll(u: Universe, failingWrite: Option<nat>)
      returns (failure: Option<Diagnostic>, written: seq<FactorySource>)
      requires Valid() && Model().Known(u)
      modifies this
      ensures Valid() && Model().Known(u) && Repr == old(Repr)
      ensures var all := EmitAll(u, old(Model()));
        if failingWrite.Some? && failingWrite.value < |all| then
          && failure == Some(Diagnostic(None, WriteFailed))
          && written == all[..failingWrite.value]
          && Model() == old(Model())
        else
          failure.None? && written == all && Model() == EmptyRegistry
    {
      failure, written := WriteInOrder(u, failingWrite);
      if failure.None? {
        factoryClasses := map[];
        groupOrder := [];
        assert Model().groups == map[];
      }
    }

    /**
     * process: registers every annotated element, returning at the first
     * error with one diagnostic; then writes every group's factory and
     * clears the registry, unless a write throws. Always answers true.
     */
    method Process(u: Universe, elements: seq<Element>, failingWrite: Option<nat>)
      returns (handled: bool, diagnostics: seq<Diagnostic>, written: seq<FactorySource>)
      requires Valid() && Model().Known(u) && RoundReady(u, elements)
      modifies this, Repr
      ensures Valid() && Model().Known(u) && fresh(Repr - old(Repr))
      ensures handled
      ensures var out := ProcessRound(u, old(Model()), elements, failingWrite);
        Model() == out.registry && diagnostics == out.diagnostics && written == out.written
    {
      handled, diagnostics, written := true, [], [];
      ghost var start := Model();
      for i := 0 to |elements|
        invariant Valid() && Model().Known(u) && fresh(Repr - old(Repr))
        invariant Scan(u, Model(), elements[i..]) == Scan(u, start, elements)
      {
        assert elements[i..][0] == elements[i] && elements[i..][1..] == elements[i + 1..];
        var failure := Register(u, elements[i]);
        if failure.Some? {
          diagnostics := [failure.value];
          return;
        }
      }
      assert elements[|elements|..] == [];
      var failure;
      failure, written := WriteAll(u, failingWrite);
      if failure.Some? {
        diagnostics := [failure.value];
      }
    }
  }
}
