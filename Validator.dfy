/**
 * FactoryProcessor.isValidClass: the four structural checks an annotated
 * class must pass, in order, the first failure deciding the error.
 */
module Validator {
  import opened Results
  import opened Elements
  import opened Errors
  import opened Descriptors

  /** Some class on the superclass chain of `cls`, starting with its direct superclass, is named `target`. */
  ghost predicate InheritsFrom(u: Universe, cls: Element, target: string)
  {
    exists k :: SuperclassAt(u, cls.superclass, k) == Some(target)
  }

  /** `cls` declares a constructor that takes no parameters and is public. */
  ghost predicate HasPublicEmptyConstructor(cls: Element)
  {
    exists i :: 0 <= i < |cls.constructors| && cls.constructors[i].parameterCount == 0
                && cls.constructors[i].isPublic
  }

  /**
   * The verdict on an annotated class: not public, then abstract, then the
   * structural relation to the target (a direct interface when the target is
   * an interface, an ancestor class otherwise), then the constructor.
   */
  ghost function Validate(u: Universe, item: Descriptor): (r: Outcome<Error>)
    requires item.qualifiedGroupName in u
    ensures r.Pass? ==>
      item.element.isPublic && !item.element.isAbstract && HasPublicEmptyConstructor(item.element)
  {
    var cls := item.element;
    var name := cls.qualifiedName;
    var target := item.qualifiedGroupName;
    if !cls.isPublic then Fail(NotPublic(name))
    else if cls.isAbstract then Fail(IsAbstract(name))
    else if u[target].kind == InterfaceKind && target !in cls.interfaces then
      Fail(MustImplement(name, target))
    else if u[target].kind != InterfaceKind && !InheritsFrom(u, cls, target) then
      Fail(MustInherit(name, target))
    else if !HasPublicEmptyConstructor(cls) then Fail(NoPublicEmptyConstructor(name))
    else Pass
  }

  /** When the superclass chain ends before reaching `target`, `target` is no ancestor. */
  lemma NotInherited(u: Universe, cls: Element, target: string, steps: nat)
    requires SuperclassAt(u, cls.superclass, steps) == None
    requires forall j :: 0 <= j < steps ==> SuperclassAt(u, cls.superclass, j) != Some(target)
    ensures !InheritsFrom(u, cls, target)
  {
    forall k | steps <= k
      ensures SuperclassAt(u, cls.superclass, k) == None
    {
      ChainStaysEnded(u, cls.superclass, steps, k);
    }
  }

  /**
   * isValidClass: walks the superclass chain upward from the direct
   * superclass until it meets the target or TypeKind.NONE, and scans the
   * constructors for a public one without parameters.
   */
  method IsValidClass(u: Universe, item: Descriptor) returns (r: Outcome<Error>)
    requires item.qualifiedGroupName in u && Resolvable(u, item.element)
    ensures r == Validate(u, item)
  {
    var classElement := item.element;
    var name := classElement.qualifiedName;
    var target := item.qualifiedGroupName;
    if !classElement.isPublic {
      return Fail(NotPublic(name));
    }
    if classElement.isAbstract {
      return Fail(IsAbstract(name));
    }
    var superClassElement := u[target];
    if superClassElement.kind == InterfaceKind {
      if target !in classElement.interfaces {
        return Fail(MustImplement(name, target));
      }
    } else {
      var superClassType := classElement.superclass;
      ghost var steps: nat := 0;
      ghost var end: nat :| SuperclassAt(u, classElement.superclass, end) == None;
      while true
        invariant superClassType == SuperclassAt(u, classElement.superclass, steps)
        invariant steps <= end
        invariant forall j :: 0 <= j < steps ==> SuperclassAt(u, classElement.superclass, j) != Some(target)
        decreases end - steps
      {
        if superClassType.None? {
          NotInherited(u, classElement, target, steps);
          return Fail(MustInherit(name, target));
        }
        if superClassType.value == target {
          break;
        }
        SuperclassAtNext(u, classElement.superclass, steps);
        superClassType := u[superClassType.value].superclass;
        steps := steps + 1;
      }
      assert InheritsFrom(u, classElement, target);
    }
    for i := 0 to |classElement.constructors|
      invariant forall j :: 0 <= j < i ==>
        !(classElement.constructors[j].parameterCount == 0 && classElement.constructors[j].isPublic)
    {
      var constructorElement := classElement.constructors[i];
      if constructorElement.parameterCount == 0 && constructorElement.isPublic {
        return Pass;
      }
    }
    return Fail(NoPublicEmptyConstructor(name));
  }

  /** The class is accepted exactly when it passes all four checks. */
  lemma ValidIffAllChecks(u: Universe, item: Descriptor)
    requires item.qualifiedGroupName in u
    ensures Validate(u, item) == Pass <==>
      && item.element.isPublic
      && !item.element.isAbstract
      && (if u[item.qualifiedGroupName].kind == InterfaceKind
          then item.qualifiedGroupName in item.element.interfaces
          else InheritsFrom(u, item.element, item.qualifiedGroupName))
      && HasPublicEmptyConstructor(item.element)
  {
  }

  /**
   * Only the direct interfaces count: a class that reaches an interface
   * target through another interface it implements is refused.
   */
  lemma NoTransitiveInterfaceSearch(u: Universe, item: Descriptor, via: string)
    requires item.qualifiedGroupName in u && u[item.qualifiedGroupName].kind == InterfaceKind
    requires item.element.isPublic && !item.element.isAbstract
    requires via in item.element.interfaces && via in u
    requires item.qualifiedGroupName in u[via].interfaces
    requires item.qualifiedGroupName !in item.element.interfaces
    ensures Validate(u, item) ==
      Fail(MustImplement(item.element.qualifiedName, item.qualifiedGroupName))
  {
  }

  /** A class that is not public is refused as such, whatever else holds of it. */
  lemma NotPublicComesFirst(u: Universe, item: Descriptor)
    requires item.qualifiedGroupName in u && !item.element.isPublic
    ensures Validate(u, item) == Fail(NotPublic(item.element.qualifiedName))
  {
  }
}
