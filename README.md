# NoUndefinedVariables: the undefined-variable validation rule

This project models the GraphQL validation rule `NoUndefinedVariables`. The
rule reports every variable reference `$name` whose name was not introduced
earlier in the same operation, by a variable definition or by the `as`
argument of an `export` directive (wherever that directive stands).

The rule is a small state machine driven by visitor callbacks. It keeps one
mutable set of known names. Entering an operation clears the set. A variable
definition adds its name. An `export` directive adds the string value of its
`as` argument. A variable reference whose name is not in the set at that moment
appends one `UndefinedVariable` error to the shared error collector. The error
carries the message `Undefined variable <name>` and the reference's source
location.

Layout:

- `language.dfy` (module `Language`): the syntax-tree nodes the rule reads.
  These are variable definitions, variable references with their source
  locations, directives with their arguments, and literal values.
- `validation.dfy` (module `Validation`): the `ValidationError` record and
  `ValidationErrorCollector`, the append-only error list shared by all rules
  of a pass. It is a class because the rules append to it in place.
- `variable_scope.dfy` (module `VariableScope`): the specification.
  - `Visit` is one callback.
  - `Step` is its effect on the pair (known names, collected errors).
  - `Run` folds `Step` over a sequence of visits.
  - `InScope` and `UndefinedReferences` give an independent, declarative
    account of which references are reported. The lemmas connect them to the
    fold and prove that operations are isolated from each other.
- `no_undefined_variables.dfy` (module `Rules`): the class
  `NoUndefinedVariables`, with the mutable `variableNames` field and one
  method per callback. Each method is proved to perform exactly that visit's
  `Step`. `VisitAll` feeds a sequence of visits and is proved to end in
  `Run`'s state. `Validate` runs a fresh rule over a fresh collector.

The traversal framework is outside this model. Its output is taken as a
sequence of visits in document order, with fragment spreads already expanded
in place (the rule turns spread expansion on).

### The check depends on visit order

The set is tested at the moment each reference is visited
(`NoUndefinedVariables.java:36`), so a reference visited before the directive
that exports its name is reported. Only the `as` argument of an `export`
directive is read (line 50); an `export` that names its target any other way
introduces nothing and, lacking `as`, makes the rule fail.

- `ExportAfterUseIsReported` exhibits the order dependence on a concrete
  three-visit operation.
- `RunMatchesScope` states the general rule: a reference is in scope only if
  its name was introduced *earlier* in the same operation.

## Model

| member | source | states |
|---|---|---|
| `Rules.NoUndefinedVariables.constructor` | src/main/java/graphql/validation/rules/NoUndefinedVariables.java:17-22 | a fresh rule knows no names and appends to the collector it is given |
| `Rules.NoUndefinedVariables.CheckOperationDefinition` | src/main/java/graphql/validation/rules/NoUndefinedVariables.java:24-27 | entering an operation empties the known-name set and leaves the collected errors untouched |
| `Rules.NoUndefinedVariables.CheckFragmentDefinition` | src/main/java/graphql/validation/rules/NoUndefinedVariables.java:29-32 | entering a fragment definition changes neither the names nor the errors |
| `Rules.NoUndefinedVariables.CheckVariable` | src/main/java/graphql/validation/rules/NoUndefinedVariables.java:34-40 | a known name adds no error; an unknown name appends exactly one `UndefinedVariable` error, with message `"Undefined variable " + name`, at the reference's location; the name set never changes |
| `Rules.NoUndefinedVariables.CheckVariableDefinition` | src/main/java/graphql/validation/rules/NoUndefinedVariables.java:42-45 | the set grows by exactly the defined name (so repeating a name leaves it unchanged) |
| `Rules.NoUndefinedVariables.CheckDirective` | src/main/java/graphql/validation/rules/NoUndefinedVariables.java:47-53 | an `export` directive adds the string value of its `as` argument; any other directive leaves the set unchanged; a missing or non-string `as` is excluded by the precondition, since the null argument access or the cast fails fatally |
| `Rules.NoUndefinedVariables.Dispatch` | src/main/java/graphql/validation/rules/NoUndefinedVariables.java:24-53 | each callback performs exactly the specification's step for that visit |
| `Rules.NoUndefinedVariables.VisitAll` | src/main/java/graphql/validation/rules/NoUndefinedVariables.java:17-53 | after a sequence of callbacks the rule is in the fold's state, and the collector holds its old errors followed by one error per out-of-scope reference |
| `Rules.Validate` | src/main/java/graphql/validation/rules/NoUndefinedVariables.java:17-53 | a fresh rule over a fresh collector reports exactly the references whose names were not introduced earlier in the same operation, one error per occurrence, in visit order |
| `VariableScope.Run` | src/main/java/graphql/validation/rules/NoUndefinedVariables.java:35-40 | errors are only appended, never removed or reordered, and at most one per callback |
| `VariableScope.RunMatchesScope` | src/main/java/graphql/validation/rules/NoUndefinedVariables.java:26-51 | after any prefix of visits, a name is known exactly when a definition or export introduced it since the last operation boundary, and the errors are exactly the out-of-scope references of that prefix, in order |
| `VariableScope.ScopeStepsOver` | src/main/java/graphql/validation/rules/NoUndefinedVariables.java:35-40 | proof helper for `RunMatchesScope` about `InScope`: a visit that neither introduces a name nor starts an operation leaves that name's scope unchanged |
| `VariableScope.ValidationReportsUndefinedReferences` | src/main/java/graphql/validation/rules/NoUndefinedVariables.java:35-40 | from a fresh rule, the reported errors are exactly one per undefined reference occurrence, with no early exit |
| `VariableScope.RunConcat` | src/main/java/graphql/validation/rules/NoUndefinedVariables.java:17 | the rule's state is carried across callbacks: running two stretches in turn is running their concatenation |
| `VariableScope.RunIgnoresPriorErrors` | src/main/java/graphql/validation/rules/NoUndefinedVariables.java:38 | errors already in the collector neither influence later checks nor are disturbed by them |
| `VariableScope.OperationIsolation` | src/main/java/graphql/validation/rules/NoUndefinedVariables.java:25-27 | after an operation boundary, the known names and the appended errors depend only on that operation's own visits; no name leaks from one operation into the next |
| `VariableScope.RevalidationRepeatsErrors` | src/main/java/graphql/validation/rules/NoUndefinedVariables.java:25-27 | visiting an unchanged operation a second time with the same rule instance appends the same errors again and ends with the same names |
| `VariableScope.AppendedErrorsComeFromReferences` | src/main/java/graphql/validation/rules/NoUndefinedVariables.java:36-38 | every appended error is an `UndefinedVariable` error of some visited reference, at that reference's location |
| `VariableScope.ExportBeforeUsePasses` | src/main/java/graphql/validation/rules/NoUndefinedVariables.java:48-51 | an export as `postId` followed by a use of `$postId` reports nothing |
| `VariableScope.ExportAfterUseIsReported` | src/main/java/graphql/validation/rules/NoUndefinedVariables.java:36-38 | a use of `$postId` before the export that introduces it is reported once, with message `Undefined variable postId` |
| `VariableScope.EachUndefinedOccurrenceIsReported` | src/main/java/graphql/validation/rules/NoUndefinedVariables.java:35-40 | two uses of the same unknown name give two errors |

## Left out

- The traversal framework (`AbstractRule`, the rules visitor, fragment-spread expansion switched on at line 21, the super call at line 31) is not part of this model. Its output is a parameter: the sequence of visits.
- `ValidationContext` is not part of this model. The rule never reads it.
- `AbstractRule.addError` is not part of this model. The model calls the collector's append directly.
- `Directives.ExportDirective` is not part of this model. Its name is the constant `"export"`.
- `Directive.getArgument` is not part of this model. A directive's arguments are a map from argument name to value, so duplicate argument names (two `as` arguments, of which `getArgument` would pick one) are not modelled.
- Source locations are opaque values (line, column) carried into the error.
- Other node fields (variable types and defaults, selection sets, the `ancestors` list passed to `checkDirective`) are not modelled. The rule does not read them.
- The `LinkedHashSet`'s insertion order is not modelled. The rule only tests membership.
- A null variable name is not modelled. Java's `String.format` would print `null`.
- Rules.NoUndefinedVariables.CheckDirective: an `export` directive without an `as` argument (for example one carrying only `into`) makes the source fail with a null access at line 50, ending the validation pass; the model excludes it by precondition (`WellFormed`) and does not model that failure.
- Runtime variable binding, export application, and serial or parallel execution are not modelled. This rule implements none of them.
