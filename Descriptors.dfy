/**
 * The descriptor of one @Factory-annotated class: FactoryAnnotatedClass and
 * its older form FactoryItem. Both read the annotation's id, refuse a null or
 * empty one, and resolve the target type's qualified and simple names; they
 * differ only in the exception they throw.
 */
module Descriptors {
  import opened Results
  import opened Elements
  import opened Errors

  /**
   * An accepted annotated class: the element itself, the annotation's id and
   * the qualified and simple names of the group (target) type.
   */
  datatype Descriptor = Descriptor(
    element: Element,
    id: string,
    qualifiedGroupName: string,
    simpleGroupName: string)

  /** StringUtils.isEmpty: null or of length zero. */
  predicate IsEmpty(s: Option<string>)
  {
    s.None? || |s.value| == 0
  }

  /** The constructor of FactoryAnnotatedClass. */
  function NewAnnotatedClass(classElement: Element): (r: Result<Descriptor, Thrown>)
    requires classElement.factory.Some?
    ensures r.Success? <==> !IsEmpty(classElement.factory.value.id)
    ensures r.Success? ==>
      && r.value.element == classElement
      && r.value.id == classElement.factory.value.id.value
      && r.value.id != ""
      && r.value.qualifiedGroupName == classElement.factory.value.target.qualifiedName
      && r.value.simpleGroupName == classElement.factory.value.target.simpleName
    ensures r.Failure? ==>
      r.error == ProcessingException(classElement.qualifiedName, EmptyId(classElement.qualifiedName))
  {
    var annotation := classElement.factory.value;
    if IsEmpty(annotation.id) then
      Failure(ProcessingException(classElement.qualifiedName, EmptyId(classElement.qualifiedName)))
    else
      Success(Descriptor(classElement, annotation.id.value,
        annotation.target.qualifiedName, annotation.target.simpleName))
  }

  /** The constructor of FactoryItem. */
  function NewFactoryItem(classElement: Element): (r: Result<Descriptor, Thrown>)
    requires classElement.factory.Some?
    ensures r.Success? <==> !IsEmpty(classElement.factory.value.id)
    ensures r.Success? ==>
      && r.value.element == classElement
      && r.value.id == classElement.factory.value.id.value
      && r.value.id != ""
      && r.value.qualifiedGroupName == classElement.factory.value.target.qualifiedName
      && r.value.simpleGroupName == classElement.factory.value.target.simpleName
    ensures r.Failure? ==> r.error == IllegalArgumentException(EmptyId(classElement.qualifiedName))
  {
    var annotation := classElement.factory.value;
    if IsEmpty(annotation.id) then
      Failure(IllegalArgumentException(EmptyId(classElement.qualifiedName)))
    else
      Success(Descriptor(classElement, annotation.id.value,
        annotation.target.qualifiedName, annotation.target.simpleName))
  }

  /** The two descriptor versions accept the same elements, build the same descriptor and carry the same error. */
  lemma DescriptorVersionsAgree(classElement: Element)
    requires classElement.factory.Some?
    ensures NewAnnotatedClass(classElement).Success? == NewFactoryItem(classElement).Success?
    ensures NewAnnotatedClass(classElement).Success? ==>
      NewAnnotatedClass(classElement).value == NewFactoryItem(classElement).value
    ensures NewAnnotatedClass(classElement).Failure? ==>
      NewAnnotatedClass(classElement).error.error == NewFactoryItem(classElement).error.error
  {
  }
}
