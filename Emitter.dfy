/**
 * The factory class both group versions generate, as an abstract syntax
 * instead of formatted text: its package, name and the statements of its
 * `create(String id)` method, together with what those statements do when
 * the generated method runs.
 */
module Emitter {
  import opened Results
  import opened Elements
  import opened Descriptors
  import opened ItemsMaps

  const Suffix: string := "Factory"
  const NullIdMessage: string := "id is null!"
  const UnknownIdPrefix: string := "Unknown id = "

  /** The statements the generator emits into `create`. */
  datatype Stmt =
    /** `if (id == null) { throw new IllegalArgumentException(message); }` */
    | ThrowIfNull(message: string)
    /** `if ("<literal>".equals(id)) { return new <className>(); }` */
    | ReturnNewIfEquals(literal: string, className: string)
    /** `throw new IllegalArgumentException(prefix + id);` */
    | ThrowUnknown(prefix: string)

  /** How a call of the generated `create` ends. */
  datatype Completion =
    | Instance(className: string)
    | IllegalArgument(message: string)
    | FellOffEnd

  /** Java's string conversion of a possibly null string. */
  function JavaString(s: Option<string>): string
  {
    if s.None? then "null" else s.value
  }

  /** Executes a statement list of `create` on the argument `id`. */
  function Run(body: seq<Stmt>, id: Option<string>): Completion
  {
    if body == [] then FellOffEnd
    else match body[0]
      case ThrowIfNull(message) =>
        if id.None? then IllegalArgument(message) else Run(body[1..], id)
      case ReturnNewIfEquals(literal, className) =>
        if id == Some(literal) then Instance(className) else Run(body[1..], id)
      case ThrowUnknown(prefix) =>
        IllegalArgument(prefix + JavaString(id))
  }

  /** The branch emitted for one group member. */
  function Branch(item: Descriptor): Stmt
  {
    ReturnNewIfEquals(item.id, item.element.qualifiedName)
  }

  /** One branch per member, in the given order. */
  function Branches(items: seq<Descriptor>): (bs: seq<Stmt>)
    ensures |bs| == |items|
    ensures forall i :: 0 <= i < |items| ==> bs[i] == Branch(items[i])
  {
    seq(|items|, i requires 0 <= i < |items| => Branch(items[i]))
  }

  /** What the member branches answer for the id `k`: the first member with that id, else the unknown-id throw. */
  function FirstMatch(items: seq<Descriptor>, k: string): Completion
  {
    match FirstWithId(items, k)
    case Some(item) => Instance(item.element.qualifiedName)
    case None => IllegalArgument(UnknownIdPrefix + k)
  }

  /** The branches, tried in order, answer for the first member with an equal id. */
  lemma {:induction false} RunBranches(items: seq<Descriptor>, k: string)
    ensures Run(Branches(items) + [ThrowUnknown(UnknownIdPrefix)], Some(k)) == FirstMatch(items, k)
    decreases |items|
  {
    var body := Branches(items) + [ThrowUnknown(UnknownIdPrefix)];
    if items != [] {
      assert body[0] == Branch(items[0]);
      assert body[1..] == Branches(items[1..]) + [ThrowUnknown(UnknownIdPrefix)];
      RunBranches(items[1..], k);
    }
  }

  /**
   * The body of `create`: the null check, the member branches, the unknown-id
   * throw. Run on null it fails with "id is null!"; run on an id it builds the
   * class of the first member with that id, and fails with "Unknown id = "
   * and the id when there is none.
   */
  function CreateBody(items: seq<Descriptor>): (body: seq<Stmt>)
    ensures Run(body, None) == IllegalArgument(NullIdMessage)
    ensures forall k :: Run(body, Some(k)) == FirstMatch(items, k)
  {
    var body := [ThrowIfNull(NullIdMessage)] + Branches(items) + [ThrowUnknown(UnknownIdPrefix)];
    assert forall k :: Run(body, Some(k)) == FirstMatch(items, k)
    by {
      assert body[1..] == Branches(items) + [ThrowUnknown(UnknownIdPrefix)];
      forall k {
        RunBranches(items, k);
      }
    }
    body
  }

  /**
   * What `create(id)` of a group should do, stated on the map itself:
   * null fails, a member id builds that member's class, any other id fails.
   */
  function Create(items: ItemsMap, id: Option<string>): Completion
  {
    match id
    case None => IllegalArgument(NullIdMessage)
    case Some(k) =>
      if k in items.entries then Instance(items.entries[k].element.qualifiedName)
      else IllegalArgument(UnknownIdPrefix + k)
  }

  /**
   * The emitted if-chain, although it tests the members one after the other
   * in insertion order, behaves exactly like a lookup in the group's map,
   * because every member is stored under its own id.
   */
  lemma RunCreateBody(items: ItemsMap, id: Option<string>)
    requires items.Valid() && KeyedById(items)
    ensures Run(CreateBody(items.Values()), id) == Create(items, id)
  {
    if id.Some? {
      FirstWithIdIsGet(items, id.value);
    }
  }

  /**
   * The generated source file of one group: the file's qualified name, the
   * package, whether the class is declared `public`, the class name, the
   * return type of `create` and its body.
   */
  datatype FactorySource = FactorySource(
    qualifiedName: string,
    packageName: Option<string>,
    isPublic: bool,
    className: string,
    returnType: string,
    body: seq<Stmt>)

  /** The package of a type; None for the unnamed package. */
  function PackageOf(e: Element): Option<string>
  {
    if e.packageName == "" then None else Some(e.packageName)
  }

  /**
   * The name of the file JavaFile.writeTo creates for a factory: the
   * factory's simple name, in the target's package.
   */
  function FileName(e: Element): string
  {
    if e.packageName == "" then e.simpleName + Suffix
    else e.packageName + "." + e.simpleName + Suffix
  }

  /**
   * The factory the current generator writes for the group whose target type
   * is named `target`: a class beside the target, named after it with the
   * suffix, whose `create` returns the target type.
   */
  function FactoryFor(u: Universe, target: string, items: seq<Descriptor>): (f: FactorySource)
    requires target in u
    ensures f.returnType == target && !f.isPublic
    ensures f.packageName.None? <==> u[target].packageName == ""
    ensures f.packageName.Some? ==> f.packageName.value == u[target].packageName
  {
    FactorySource(FileName(u[target]), PackageOf(u[target]), false, u[target].simpleName + Suffix,
      target, CreateBody(items))
  }

  /**
   * The older generator names its file after the target's qualified name
   * instead, and declares the class `public`; everything else it writes is
   * the same. For a top-level target the two file names agree.
   */
  function OlderFactoryFor(u: Universe, target: string, items: seq<Descriptor>): (f: FactorySource)
    requires target in u
    ensures f.qualifiedName == target + Suffix && f.isPublic
    ensures f.(qualifiedName := FileName(u[target]), isPublic := false) == FactoryFor(u, target, items)
  {
    FactoryFor(u, target, items).(qualifiedName := target + Suffix, isPublic := true)
  }

  /** A top-level type's qualified name is its package and its simple name. */
  predicate TopLevel(u: Universe, target: string)
    requires target in u
  {
    target == if u[target].packageName == "" then u[target].simpleName
              else u[target].packageName + "." + u[target].simpleName
  }

  /**
   * For a top-level target both generators write the same factory in the
   * same file, except that only the older one declares the class `public`.
   */
  lemma GeneratorsAgreeOnTopLevel(u: Universe, target: string, items: seq<Descriptor>)
    requires target in u && TopLevel(u, target)
    ensures OlderFactoryFor(u, target, items) == FactoryFor(u, target, items).(isPublic := true)
  {
    var e := u[target];
    if e.packageName != "" {
      assert e.packageName + "." + e.simpleName + Suffix == (e.packageName + "." + e.simpleName) + Suffix;
    }
  }

  /**
   * For a nested target the two generators name different files: the current
   * one `p.InnerFactory`, the older one `p.Outer.InnerFactory`.
   */
  lemma GeneratorsDifferOnNested(items: seq<Descriptor>)
    ensures var inner := Element(ClassKind, "p.Outer.Inner", "Inner", "p", true, false,
                                  [], None, [], None);
      var u := map["p.Outer.Inner" := inner];
      && FactoryFor(u, "p.Outer.Inner", items).qualifiedName == "p.InnerFactory"
      && OlderFactoryFor(u, "p.Outer.Inner", items).qualifiedName == "p.Outer.InnerFactory"
  {
  }

  /**
   * The generated factory of a group: named after the target type with the
   * suffix "Factory", in the target's package (none for the unnamed one),
   * without the `public` modifier, returning the target type; `create(null)` fails with "id is null!", every
   * member id builds that member's class, every other id fails with
   * "Unknown id = " and the id.
   */
  lemma GeneratedFactoryContract(u: Universe, target: string, items: ItemsMap)
    requires target in u && items.Valid() && KeyedById(items)
    ensures var f := FactoryFor(u, target, items.Values());
      && f.className == u[target].simpleName + "Factory"
      && f.qualifiedName == (if u[target].packageName == "" then "" else u[target].packageName + ".")
                            + u[target].simpleName + "Factory"
      && f.returnType == target && !f.isPublic
      && (u[target].packageName == "" <==> f.packageName.None?)
      && Run(f.body, None) == IllegalArgument("id is null!")
      && (forall k :: k in items.entries ==>
            Run(f.body, Some(k)) == Instance(items.entries[k].element.qualifiedName))
      && (forall k :: k !in items.entries ==>
            Run(f.body, Some(k)) == IllegalArgument("Unknown id = " + k))
  {
    var f := FactoryFor(u, target, items.Values());
    forall id: Option<string> ensures Run(f.body, id) == Create(items, id) {
      RunCreateBody(items, id);
    }
  }
}
