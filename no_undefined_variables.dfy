/** The validation rule that reports references to variables that no
    variable definition and no export directive has introduced. */
module Rules {
  import opened Language
  import opened Validation
  import opened VariableScope

  class NoUndefinedVariables {
    /** The names known in the operation being visited. */
    var variableNames: set<string>

    /** The collector shared with the other rules of the pass. */
    const validationErrorCollector: ValidationErrorCollector

    constructor (validationErrorCollector: ValidationErrorCollector)
      ensures variableNames == {}
      ensures this.validationErrorCollector == validationErrorCollector
    {
      variableNames := {};
      this.validationErrorCollector := validationErrorCollector;
    }

    /** The rule's state as the specification sees it. */
    function AbstractState(): State
      reads this, validationErrorCollector
    {
      State(variableNames, validationErrorCollector.errors)
    }

    /** A new operation starts with no names known. */
    method CheckOperationDefinition()
      modifies this`variableNames
      ensures variableNames == {}
      ensures AbstractState() == Step(old(AbstractState()), EnterOperationDefinition)
    {
      variableNames := {};
    }

    /** Fragment definitions leave the rule's state alone. */
    method CheckFragmentDefinition()
      ensures AbstractState() == old(AbstractState())
    {
    }

    /** A reference to an unknown name appends one error; the known names
        never change. */
    method CheckVariable(variableReference: VariableReference)
      modifies validationErrorCollector
      ensures variableNames == old(variableNames)
      ensures variableReference.name in variableNames ==>
        validationErrorCollector.errors == old(validationErrorCollector.errors)
      ensures variableReference.name !in variableNames ==>
        validationErrorCollector.errors == old(validationErrorCollector.errors)
          + [ValidationError(UndefinedVariable, variableReference.sourceLocation,
                             "Undefined variable " + variableReference.name)]
      ensures AbstractState() == Step(old(AbstractState()), EnterVariableReference(variableReference))
    {
      if variableReference.name !in variableNames {
        var message := "Undefined variable " + variableReference.name;
        validationErrorCollector.AddError(
          ValidationError(UndefinedVariable, variableReference.sourceLocation, message));
      }
    }

    /** A variable definition makes its name known. */
    method CheckVariableDefinition(variableDefinition: VariableDefinition)
      modifies this`variableNames
      ensures variableNames == old(variableNames) + {variableDefinition.name}
      ensures AbstractState() == Step(old(AbstractState()), EnterVariableDefinition(variableDefinition))
    {
      variableNames := variableNames + {variableDefinition.name};
    }

    /** An export directive makes the name in its `as` argument known; any
        other directive changes nothing. */
    method CheckDirective(directive: Directive)
      requires IsExportDirective(directive) ==> HasStringAsArgument(directive)
      modifies this`variableNames
      ensures IsExportDirective(directive) ==>
        variableNames == old(variableNames) + {directive.arguments[ExportAsArgument].text}
      ensures !IsExportDirective(directive) ==> variableNames == old(variableNames)
      ensures AbstractState() == Step(old(AbstractState()), EnterDirective(directive))
    {
      if directive.name == ExportDirectiveName {
        var variableName := directive.arguments[ExportAsArgument];
        variableNames := variableNames + {variableName.text};
      }
    }

    /** Hands one visit to the callback for its node kind. */
    method Dispatch(v: Visit)
      requires WellFormed(v)
      modifies this`variableNames, validationErrorCollector
      ensures AbstractState() == Step(old(AbstractState()), v)
    {
      match v
      case EnterOperationDefinition => CheckOperationDefinition();
      case EnterFragmentDefinition => CheckFragmentDefinition();
      case EnterVariableDefinition(definition) => CheckVariableDefinition(definition);
      case EnterDirective(directive) => CheckDirective(directive);
      case EnterVariableReference(reference) => CheckVariable(reference);
    }

    /** Feeds the visits in order; the rule ends where the fold ends, having
        appended one error per reference that was out of scope. */
    method VisitAll(visits: seq<Visit>)
      requires AllWellFormed(visits)
      modifies this`variableNames, validationErrorCollector
      ensures AbstractState() == Run(old(AbstractState()), visits)
      ensures validationErrorCollector.errors
           == old(validationErrorCollector.errors) + UndefinedReferences(old(variableNames), visits, |visits|)
    {
      for i := 0 to |visits|
        invariant AllWellFormed(visits[..i])
        invariant AbstractState() == Run(old(AbstractState()), visits[..i])
      {
        assert visits[..i + 1][..i] == visits[..i];
        Dispatch(visits[i]);
      }
      assert visits[..|visits|] == visits;
      RunMatchesScope(old(AbstractState()), visits, |visits|);
    }
  }

  /** Runs a fresh rule over a fresh collector and returns what it reported:
      exactly the references out of scope, one error per occurrence, in order. */
  method Validate(visits: seq<Visit>) returns (errors: seq<ValidationError>)
    requires AllWellFormed(visits)
    ensures errors == UndefinedReferences({}, visits, |visits|)
  {
    var collector := new ValidationErrorCollector();
    var rule := new NoUndefinedVariables(collector);
    rule.VisitAll(visits);
    errors := collector.errors;
  }
}
