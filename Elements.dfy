/**
 * The compiler's view of the program being compiled, reduced to what the
 * processor asks of it: element kinds, modifiers, direct interfaces, the
 * superclass, constructors and the @Factory payload. A `Universe` maps a
 * qualified name to its declaration and stands in for
 * `Elements.getTypeElement` and `Types.asElement`.
 */
module Elements {
  import opened Results

  datatype ElementKind = ClassKind | InterfaceKind | EnumKind | OtherKind

  /** A constructor enclosed in a class: its number of parameters and whether it is public. */
  datatype Constructor = Constructor(parameterCount: nat, isPublic: bool)

  /** The qualified and simple name of the type an annotation refers to. */
  datatype TypeName = TypeName(qualifiedName: string, simpleName: string)

  /** The payload of `@Factory(id = ..., type = ...)`; `id` may be null. */
  datatype FactoryAnnotation = FactoryAnnotation(id: Option<string>, target: TypeName)

  /**
   * An annotated element. `packageName` is "" for the unnamed package;
   * `superclass` is None where the compiler answers TypeKind.NONE (for
   * java.lang.Object and for interfaces); `factory` is None when the element
   * carries no @Factory annotation.
   */
  datatype Element = Element(
    kind: ElementKind,
    qualifiedName: string,
    simpleName: string,
    packageName: string,
    isPublic: bool,
    isAbstract: bool,
    interfaces: seq<string>,
    superclass: Option<string>,
    constructors: seq<Constructor>,
    factory: Option<FactoryAnnotation>)

  type Universe = map<string, Element>

  /**
   * The superclass chain that starts with `first`: step 0 is `first` itself,
   * step k + 1 is the superclass of the type named at step k. None once the
   * chain has reached TypeKind.NONE (or left the universe).
   */
  function SuperclassAt(u: Universe, first: Option<string>, k: nat): Option<string>
    decreases k
  {
    match first
    case None => None
    case Some(s) =>
      if k == 0 then first
      else if s in u then SuperclassAt(u, u[s].superclass, k - 1)
      else None
  }

  /** One step further up the chain is the superclass of the type reached so far. */
  lemma {:induction false} SuperclassAtNext(u: Universe, first: Option<string>, k: nat)
    requires SuperclassAt(u, first, k).Some? && SuperclassAt(u, first, k).value in u
    ensures SuperclassAt(u, first, k + 1) == u[SuperclassAt(u, first, k).value].superclass
    decreases k
  {
    if k > 0 {
      SuperclassAtNext(u, u[first.value].superclass, k - 1);
    }
  }

  /** Once the chain has ended it stays ended. */
  lemma {:induction false} ChainStaysEnded(u: Universe, first: Option<string>, k: nat, k': nat)
    requires k <= k' && SuperclassAt(u, first, k) == None
    ensures SuperclassAt(u, first, k') == None
    decreases k
  {
    if first.Some? && k > 0 && first.value in u {
      ChainStaysEnded(u, u[first.value].superclass, k - 1, k' - 1);
    }
  }

  /**
   * What the compiler guarantees of a class it hands to a processor: its
   * superclass chain is finite (no cyclic inheritance) and every type on it
   * can be looked up.
   */
  ghost predicate Resolvable(u: Universe, e: Element)
  {
    && (exists k :: SuperclassAt(u, e.superclass, k) == None)
    && (forall k :: SuperclassAt(u, e.superclass, k).Some? ==> SuperclassAt(u, e.superclass, k).value in u)
  }
}
