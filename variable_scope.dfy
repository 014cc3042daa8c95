/** The undefined-variable rule as a pure function of the visits the rule
    receives, and a declarative account of which references it reports.

    The traversal framework is not part of this model: its output is taken
    as a sequence of `Visit`s, one per callback, in document order (with
    fragment spreads already expanded in place). */
module VariableScope {
  import opened Language
  import opened Validation

  /** One callback the traversal makes on the rule. */
  datatype Visit =
    | EnterOperationDefinition
    | EnterFragmentDefinition
    | EnterVariableDefinition(definition: VariableDefinition)
    | EnterDirective(directive: Directive)
    | EnterVariableReference(reference: VariableReference)

  /** The rule's state: the names known so far and the collector's errors. */
  datatype State = State(names: set<string>, errors: seq<ValidationError>)

  /** A fresh rule over an empty collector. */
  function Initial(): State {
    State({}, [])
  }

  /** An export directive must carry a string `as` argument; the rule reads
      that argument and casts its value unconditionally, so a missing `as`
      (a null access) or a non-string value (a failed cast) is a fatal
      failure, not a validation error. */
  predicate WellFormed(v: Visit) {
    v.EnterDirective? && IsExportDirective(v.directive) ==> HasStringAsArgument(v.directive)
  }

  predicate AllWellFormed(vs: seq<Visit>) {
    forall i :: 0 <= i < |vs| ==> WellFormed(vs[i])
  }

  /** The error reported for a reference to an unknown name. */
  function UndefinedVariableError(ref: VariableReference): ValidationError {
    ValidationError(UndefinedVariable, ref.sourceLocation, "Undefined variable " + ref.name)
  }

  /** The effect of one callback. */
  function Step(s: State, v: Visit): State
    requires WellFormed(v)
  {
    match v
    case EnterOperationDefinition => State({}, s.errors)
    case EnterFragmentDefinition => s
    case EnterVariableDefinition(definition) => s.(names := s.names + {definition.name})
    case EnterDirective(directive) =>
      if IsExportDirective(directive) then s.(names := s.names + {ExportedName(directive)}) else s
    case EnterVariableReference(ref) =>
      if ref.name in s.names then s else s.(errors := s.errors + [UndefinedVariableError(ref)])
  }

  /** The effect of a whole sequence of callbacks, in order. Errors are only
      ever appended, at most one per callback. */
  function Run(s: State, vs: seq<Visit>): (r: State)
    requires AllWellFormed(vs)
    ensures s.errors <= r.errors
    ensures |r.errors| <= |s.errors| + |vs|
    decreases |vs|
  {
    if vs == [] then s else Step(Run(s, vs[..|vs| - 1]), vs[|vs| - 1])
  }

  // ---------------------------------------------------------------------
  // A declarative account of the rule, independent of the fold.

  /** The visit brings `n` into scope: a definition of `n`, or an export as `n`. */
  predicate Introduces(v: Visit, n: string) {
    || (v.EnterVariableDefinition? && v.definition.name == n)
    || (v.EnterDirective? && IsExportDirective(v.directive) && HasStringAsArgument(v.directive)
        && ExportedName(v.directive) == n)
  }

  /** No operation boundary among `vs[lo..hi]`. */
  predicate NoOperationBetween(vs: seq<Visit>, lo: nat, hi: nat)
    requires hi <= |vs|
  {
    forall k :: lo <= k < hi ==> !vs[k].EnterOperationDefinition?
  }

  /** Name `n` is known just before visit `i`: it was introduced earlier
      and no operation boundary has been crossed since; or it was known at
      the start and no operation boundary has been crossed at all. */
  ghost predicate InScope(init: set<string>, vs: seq<Visit>, i: nat, n: string)
    requires i <= |vs|
  {
    || (n in init && NoOperationBetween(vs, 0, i))
    || exists j :: 0 <= j < i && Introduces(vs[j], n) && NoOperationBetween(vs, j + 1, i)
  }

  /** Visit `i` is a reference to a name that is not in scope at that point. */
  ghost predicate UndefinedAt(init: set<string>, vs: seq<Visit>, i: nat)
    requires i < |vs|
  {
    vs[i].EnterVariableReference? && !InScope(init, vs, i, vs[i].reference.name)
  }

  /** One error per undefined reference among the first `i` visits, in visit order. */
  ghost function UndefinedReferences(init: set<string>, vs: seq<Visit>, i: nat): seq<ValidationError>
    requires i <= |vs|
  {
    if i == 0 then []
    else UndefinedReferences(init, vs, i - 1)
         + (if UndefinedAt(init, vs, i - 1) then [UndefinedVariableError(vs[i - 1].reference)] else [])
  }

  // ---------------------------------------------------------------------
  // The fold agrees with the declarative account.

  lemma WellFormedPrefix(vs: seq<Visit>, i: nat)
    requires AllWellFormed(vs) && i <= |vs|
    ensures AllWellFormed(vs[..i])
  {
  }

  /** After the first `i` visits the rule knows exactly the names in scope,
      and has appended exactly one error per undefined reference, in order. */
  lemma {:induction false} RunMatchesScope(s: State, vs: seq<Visit>, i: nat)
    requires AllWellFormed(vs) && i <= |vs|
    ensures AllWellFormed(vs[..i])
    ensures forall n :: n in Run(s, vs[..i]).names <==> InScope(s.names, vs, i, n)
    ensures Run(s, vs[..i]).errors == s.errors + UndefinedReferences(s.names, vs, i)
  {
    WellFormedPrefix(vs, i);
    if i == 0 {
      assert vs[..0] == [];
    } else {
      RunMatchesScope(s, vs, i - 1);
      var pre := Run(s, vs[..i - 1]);
      assert vs[..i][..i - 1] == vs[..i - 1];
      assert Run(s, vs[..i]) == Step(pre, vs[i - 1]);
      var v := vs[i - 1];
      forall n
        ensures n in Step(pre, v).names <==> InScope(s.names, vs, i, n)
      {
        if v.EnterOperationDefinition? {
          assert !NoOperationBetween(vs, 0, i);
        } else if Introduces(v, n) {
          assert NoOperationBetween(vs, i, i);
        } else {
          ScopeStepsOver(s.names, vs, i, n);
        }
      }
      if UndefinedAt(s.names, vs, i - 1) {
        assert v.reference.name !in pre.names;
      }
    }
  }

  /** A visit that neither introduces `n` nor ends the operation leaves the
      scope of `n` as it was. */
  lemma ScopeStepsOver(init: set<string>, vs: seq<Visit>, i: nat, n: string)
    requires 0 < i <= |vs|
    requires !vs[i - 1].EnterOperationDefinition? && !Introduces(vs[i - 1], n)
    ensures InScope(init, vs, i, n) <==> InScope(init, vs, i - 1, n)
  {
  }

  /** Running a whole document from a fresh rule reports exactly the
      undefined references, one per occurrence, in document order. */
  lemma ValidationReportsUndefinedReferences(vs: seq<Visit>)
    requires AllWellFormed(vs)
    ensures Run(Initial(), vs).errors == UndefinedReferences({}, vs, |vs|)
  {
    RunMatchesScope(Initial(), vs, |vs|);
    assert vs[..|vs|] == vs;
  }

  // ---------------------------------------------------------------------
  // Operations are isolated from each other.

  /** Running two stretches of visits one after the other is running their concatenation. */
  lemma {:induction false} RunConcat(s: State, a: seq<Visit>, b: seq<Visit>)
    requires AllWellFormed(a) && AllWellFormed(b)
    ensures AllWellFormed(a + b)
    ensures Run(s, a + b) == Run(Run(s, a), b)
    decreases |b|
  {
    if b == [] {
      assert a + b == a;
    } else {
      var b' := b[..|b| - 1];
      assert AllWellFormed(b');
      RunConcat(s, a, b');
      assert (a + b)[..|a + b| - 1] == a + b';
    }
  }

  /** The errors already collected neither influence nor are disturbed by later visits. */
  lemma {:induction false} RunIgnoresPriorErrors(names: set<string>, errors: seq<ValidationError>, vs: seq<Visit>)
    requires AllWellFormed(vs)
    ensures Run(State(names, errors), vs)
         == State(Run(State(names, []), vs).names, errors + Run(State(names, []), vs).errors)
    decreases |vs|
  {
    if vs != [] {
      var vs' := vs[..|vs| - 1];
      RunIgnoresPriorErrors(names, errors, vs');
      var v := vs[|vs| - 1];
      if v.EnterVariableReference? {
        var r := Run(State(names, []), vs');
        assert errors + r.errors + [UndefinedVariableError(v.reference)]
            == errors + (r.errors + [UndefinedVariableError(v.reference)]);
      }
    }
  }

  /** Whatever the rule knew or had reported before, an operation's own
      visits alone decide what the rule knows afterwards and which errors
      it appends: no name leaks from one operation into the next. */
  lemma OperationIsolation(s: State, operation: seq<Visit>)
    requires AllWellFormed(operation)
    ensures AllWellFormed([EnterOperationDefinition] + operation)
    ensures Run(s, [EnterOperationDefinition] + operation)
         == State(Run(Initial(), operation).names, s.errors + Run(Initial(), operation).errors)
  {
    var boundary := [EnterOperationDefinition];
    assert AllWellFormed(boundary);
    RunConcat(s, boundary, operation);
    assert boundary[..0] == [];
    assert Run(s, boundary) == State({}, s.errors);
    RunIgnoresPriorErrors({}, s.errors, operation);
  }

  /** Validating an unchanged operation again, with the same rule instance,
      appends the same errors again and leaves the same names known. */
  lemma RevalidationRepeatsErrors(s: State, vs: seq<Visit>)
    requires AllWellFormed(vs) && |vs| > 0 && vs[0] == EnterOperationDefinition
    ensures Run(Run(s, vs), vs).names == Run(s, vs).names
    ensures Run(Run(s, vs), vs).errors == Run(s, vs).errors + Run(s, vs).errors[|s.errors|..]
  {
    var operation := vs[1..];
    assert AllWellFormed(operation);
    assert vs == [EnterOperationDefinition] + operation;
    OperationIsolation(s, operation);
    OperationIsolation(Run(s, vs), operation);
  }

  /** Every appended error is an `UndefinedVariable` error raised by some
      reference among the visits, at that reference's location. */
  lemma {:induction false} AppendedErrorsComeFromReferences(s: State, vs: seq<Visit>)
    requires AllWellFormed(vs)
    ensures forall e :: e in Run(s, vs).errors[|s.errors|..] ==>
      exists i :: (0 <= i < |vs| && vs[i].EnterVariableReference?
                   && e == UndefinedVariableError(vs[i].reference))
    decreases |vs|
  {
    if vs != [] {
      var vs' := vs[..|vs| - 1];
      AppendedErrorsComeFromReferences(s, vs');
      var r := Run(s, vs);
      var r' := Run(s, vs');
      forall e | e in r.errors[|s.errors|..]
        ensures exists i :: (0 <= i < |vs| && vs[i].EnterVariableReference?
                             && e == UndefinedVariableError(vs[i].reference))
      {
        if e in r'.errors[|s.errors|..] {
          var i :| 0 <= i < |vs'| && vs'[i].EnterVariableReference? && e == UndefinedVariableError(vs'[i].reference);
          assert vs[i] == vs'[i];
        } else {
          assert r.errors[|s.errors|..] == r'.errors[|s.errors|..] + r.errors[|r'.errors|..];
          assert vs[|vs| - 1].EnterVariableReference?;
        }
      }
    }
  }

  // ---------------------------------------------------------------------
  // The check looks at the names known at the moment of each reference.

  const postIdExport := EnterDirective(Directive(ExportDirectiveName, map[ExportAsArgument := StringValue("postId")]))
  const postIdUse := EnterVariableReference(VariableReference("postId", SourceLocation(3, 5)))

  /** A use placed after the field that exports its name passes. */
  lemma ExportBeforeUsePasses()
    ensures Run(Initial(), [EnterOperationDefinition, postIdExport, postIdUse]).errors == []
  {
    UnfoldThree(Initial(), EnterOperationDefinition, postIdExport, postIdUse);
  }

  /** A use placed before the field that exports its name is reported: the
      rule does not look ahead. */
  lemma ExportAfterUseIsReported()
    ensures Run(Initial(), [EnterOperationDefinition, postIdUse, postIdExport]).errors
         == [ValidationError(UndefinedVariable, SourceLocation(3, 5), "Undefined variable postId")]
  {
    UnfoldThree(Initial(), EnterOperationDefinition, postIdUse, postIdExport);
    var afterUse := Step(Step(Initial(), EnterOperationDefinition), postIdUse);
    assert afterUse.errors == [UndefinedVariableError(postIdUse.reference)];
    assert "Undefined variable " + "postId" == "Undefined variable postId";
  }

  /** Two uses of the same unknown name are reported twice. */
  lemma EachUndefinedOccurrenceIsReported()
    ensures Run(Initial(), [EnterOperationDefinition, postIdUse, postIdUse]).errors
         == [UndefinedVariableError(postIdUse.reference), UndefinedVariableError(postIdUse.reference)]
  {
    UnfoldThree(Initial(), EnterOperationDefinition, postIdUse, postIdUse);
  }

  lemma UnfoldThree(s: State, a: Visit, b: Visit, c: Visit)
    requires WellFormed(a) && WellFormed(b) && WellFormed(c)
    ensures AllWellFormed([a, b, c])
    ensures Run(s, [a, b, c]) == Step(Step(Step(s, a), b), c)
  {
    assert [a][..0] == [];
    assert Run(s, [a]) == Step(s, a);
    assert [a, b][..1] == [a];
    assert Run(s, [a, b]) == Step(Step(s, a), b);
    assert [a, b, c][..2] == [a, b];
  }
}
