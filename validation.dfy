/** Validation diagnostics and the collector that every rule of one
    validation pass appends to. */
module Validation {
  import opened Language

  /** The kinds of validation error this rule can raise. */
  datatype ValidationErrorType = UndefinedVariable

  datatype ValidationError = ValidationError(
    kind: ValidationErrorType,
    location: SourceLocation,
    message: string)

  /** The externally owned, append-only list of errors shared by the rules of one pass. */
  class ValidationErrorCollector {
    var errors: seq<ValidationError>

    constructor ()
      ensures errors == []
    {
      errors := [];
    }

    method AddError(error: ValidationError)
      modifies this
      ensures errors == old(errors) + [error]
    {
      errors := errors + [error];
    }
  }
}
