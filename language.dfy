/** The parts of the query-language syntax tree that the variable rule reads.
    Only the fields the rule looks at are kept; types, default values and
    selection sets of the real nodes are not part of this model. */
module Language {

  /** The name of the built-in export directive. */
  const ExportDirectiveName: string := "export"

  /** The name of the export directive's argument that names the target variable. */
  const ExportAsArgument: string := "as"

  /** Where a node stands in the query text; carried into diagnostics unchanged. */
  datatype SourceLocation = SourceLocation(line: int, column: int)

  /** Literal argument values. */
  datatype Value =
    | StringValue(text: string)
    | IntValue(number: int)
    | BooleanValue(truth: bool)
    | EnumValue(symbol: string)
    | VariableValue(variable: string)
    | NullValue

  /** `$name: Type = default` in an operation's header. */
  datatype VariableDefinition = VariableDefinition(name: string)

  /** A use `$name` somewhere inside an operation. */
  datatype VariableReference = VariableReference(name: string, sourceLocation: SourceLocation)

  /** `@name(arg: value, ...)`; the argument names are distinct. */
  datatype Directive = Directive(name: string, arguments: map<string, Value>)

  predicate IsExportDirective(d: Directive) {
    d.name == ExportDirectiveName
  }

  /** The directive carries an `as` argument whose value is a string literal. */
  predicate HasStringAsArgument(d: Directive) {
    ExportAsArgument in d.arguments && d.arguments[ExportAsArgument].StringValue?
  }

  /** The variable name an export directive publishes. */
  function ExportedName(d: Directive): string
    requires HasStringAsArgument(d)
  {
    d.arguments[ExportAsArgument].text
  }
}
