/**
 * The errors the processor reports to the compiler's messager, as values
 * instead of formatted strings.
 */
module Errors {
  import opened Results

  datatype Error =
    /** "Only classes can be annotated with @Factory" */
    | NotAClass(element: string)
    /** "id() in @Factory for class X is null or empty! that's not allowed" */
    | EmptyId(className: string)
    /** "The class X is not public." */
    | NotPublic(className: string)
    /** "The class X is abstract. You can't annotate abstract classes with @Factory" */
    | IsAbstract(className: string)
    /** "The class X annotated with @Factory must implement the interface Y" */
    | MustImplement(className: string, interfaceName: string)
    /** "The class X annotated with @Factory must inherit from Y" */
    | MustInherit(className: string, superclassName: string)
    /** "The class X must provide an public empty default constructor" */
    | NoPublicEmptyConstructor(className: string)
    /** "Conflict: The class X is annotated with @Factory with id ='ID' but Y already uses the same id" */
    | IdConflict(className: string, id: string, existingClassName: string)
    /** An IOException raised while a generated file was written. */
    | WriteFailed

  /** What a descriptor constructor throws. */
  datatype Thrown =
    | ProcessingException(element: string, error: Error)
    | IllegalArgumentException(error: Error)

  /** One error reported to the messager, anchored at an element when there is one. */
  datatype Diagnostic = Diagnostic(element: Option<string>, error: Error)

}
