/** The entry points of input coercion (ValuesResolver.coerceVariableValuesImpl,
    getArgumentValuesImpl, argumentMap): each walks a list of definitions and
    fills a LinkedHashMap, deciding per definition whether to use the default,
    raise a non-null error, store null, coerce the value or leave the key out. */
module ValuesResolver {
  import opened Wrappers
  import opened LinkedMaps
  import opened InputValues
  import opened DefinitionLoop
  import opened ValueCoercion
  import opened LiteralCoercion

  // ---------------------------------------------------------------------------
  // Variables
  // ---------------------------------------------------------------------------

  function VariableNames(defs: seq<VariableDefinition>): seq<string> {
    seq(|defs|, i requires 0 <= i < |defs| => defs[i].name)
  }

  /** A variable is kept in the result when a value or a default was supplied. */
  predicate Kept(def: VariableDefinition, rawVariables: LinkedMap<Value>) {
    HasKey(rawVariables, def.name) || def.defaultValue.Some?
  }

  /** What one variable definition contributes. The raw map cannot hold
      variable references, and each variable gets a fresh, empty name stack.
      A default literal is coerced with an empty variable map and no
      normalized variables. */
  function VariableOutcome(s: Schema, mode: ValueMode, def: VariableDefinition, rawVariables: LinkedMap<Value>)
    : (r: Outcome)
    ensures r.Success? ==> (r.value.Some? <==> Kept(def, rawVariables))
  {
    var hasValue := HasKey(rawVariables, def.name);
    var value := GetOrNull(rawVariables, def.name);
    match Decide(hasValue, def.defaultValue.Some?, def.varType.NonNull?, value.Null?, false)
    case UseDefault =>
      var coercedDefaultValue :- CoerceAstValue(s, def.varType, def.defaultValue.value, [], None, mode, false);
      Success(Some(NewValue(coercedDefaultValue, def.varType, mode)))
    case RaiseNull => Failure(NonNullVariableIsNull(def.name))
    case StoreNull => Success(Some(NewValue(Null, def.varType, mode)))
    case PassThrough => assert false; Success(None)
    case CoerceIt =>
      var coercedValue :- CoercedValue(s, mode, def.name, def.varType, value, []);
      Success(Some(NewValue(coercedValue, def.varType, mode)))
    case Omit => Success(None)
  }

  function VariableOutcomes(s: Schema, mode: ValueMode, defs: seq<VariableDefinition>, rawVariables: LinkedMap<Value>)
    : (r: seq<Outcome>)
    ensures |r| == |defs|
  {
    seq(|defs|, i requires 0 <= i < |defs| => VariableOutcome(s, mode, defs[i], rawVariables))
  }

  /** What `coerceVariableValuesImpl` returns. */
  function VariableValues(s: Schema, mode: ValueMode, defs: seq<VariableDefinition>, rawVariables: LinkedMap<Value>)
    : Result<LinkedMap<Value>, CoercionError>
  {
    Fill(VariableNames(defs), VariableOutcomes(s, mode, defs, rawVariables), |defs|)
  }

  /** The names of the kept variables, in declaration order. */
  function KeptNames(defs: seq<VariableDefinition>, rawVariables: LinkedMap<Value>): seq<string> {
    if defs == [] then []
    else
      var last := defs[|defs| - 1];
      KeptNames(defs[..|defs| - 1], rawVariables) + if Kept(last, rawVariables) then [last.name] else []
  }

  lemma {:induction false} KeptNamesRecorded(s: Schema, mode: ValueMode, defs: seq<VariableDefinition>,
                                             rawVariables: LinkedMap<Value>, n: nat)
    requires n <= |defs|
    requires forall i :: 0 <= i < n ==> VariableOutcome(s, mode, defs[i], rawVariables).Success?
    ensures RecordedNames(VariableNames(defs), VariableOutcomes(s, mode, defs, rawVariables), n)
            == KeptNames(defs[..n], rawVariables)
  {
    if n > 0 {
      KeptNamesRecorded(s, mode, defs, rawVariables, n - 1);
      assert defs[..n][..n - 1] == defs[..n - 1];
    }
  }

  /** `coerceVariableValuesImpl` succeeds with exactly the kept variables as
      keys, in declaration order: a nullable variable that is absent and has no
      default is left out. */
  lemma VariableValuesKeys(s: Schema, mode: ValueMode, defs: seq<VariableDefinition>, rawVariables: LinkedMap<Value>)
    requires DistinctNames(VariableNames(defs))
    requires VariableValues(s, mode, defs, rawVariables).Success?
    ensures Keys(VariableValues(s, mode, defs, rawVariables).value) == KeptNames(defs, rawVariables)
  {
    var names, outcomes := VariableNames(defs), VariableOutcomes(s, mode, defs, rawVariables);
    FillKeys(names, outcomes, |defs|);
    FillSucceedsIff(names, outcomes, |defs|);
    forall i | 0 <= i < |defs| ensures VariableOutcome(s, mode, defs[i], rawVariables).Success? {
      assert outcomes[i].Success?;
    }
    KeptNamesRecorded(s, mode, defs, rawVariables, |defs|);
    assert defs[..|defs|] == defs;
  }

  /** The entry a successfully coerced variable gets. A supplied value, null or
      not, always wins over the default; the default is used only for an absent
      key; an absent nullable variable without default gets no entry. */
  predicate VariableEntry(s: Schema, mode: ValueMode, def: VariableDefinition, rawVariables: LinkedMap<Value>,
                          entry: Option<Value>) {
    var raw := GetOrNull(rawVariables, def.name);
    if HasKey(rawVariables, def.name) then
      if raw.Null? then entry == Some(NewValue(Null, def.varType, mode)) && !def.varType.NonNull?
      else
        var c := CoercedValue(s, mode, def.name, def.varType, raw, []);
        c.Success? && entry == Some(NewValue(c.value, def.varType, mode))
    else if def.defaultValue.Some? then
      var c := CoerceAstValue(s, def.varType, def.defaultValue.value, [], None, mode, false);
      c.Success? && entry == Some(NewValue(c.value, def.varType, mode))
    else entry.None? && !def.varType.NonNull?
  }

  lemma VariableOutcomeEntry(s: Schema, mode: ValueMode, def: VariableDefinition, rawVariables: LinkedMap<Value>)
    requires VariableOutcome(s, mode, def, rawVariables).Success?
    ensures VariableEntry(s, mode, def, rawVariables, VariableOutcome(s, mode, def, rawVariables).value)
  {
  }

  /** Every declared variable's entry in the coerced map is the one its own
      raw value, default and type call for. */
  lemma VariableValuesEntries(s: Schema, mode: ValueMode, defs: seq<VariableDefinition>,
                              rawVariables: LinkedMap<Value>, i: nat)
    requires i < |defs| && DistinctNames(VariableNames(defs))
    requires VariableValues(s, mode, defs, rawVariables).Success?
    ensures VariableEntry(s, mode, defs[i], rawVariables, Get(VariableValues(s, mode, defs, rawVariables).value, defs[i].name))
  {
    FillEntry(VariableNames(defs), VariableOutcomes(s, mode, defs, rawVariables), |defs|, i);
    VariableOutcomeEntry(s, mode, defs[i], rawVariables);
  }

  /** A non-null variable that is absent without a default, or present with
      null (default or not), raises NonNullableValueCoercedAsNullException. */
  lemma NonNullVariableOutcome(s: Schema, mode: ValueMode, def: VariableDefinition, rawVariables: LinkedMap<Value>)
    requires def.varType.NonNull?
    requires if HasKey(rawVariables, def.name) then GetOrNull(rawVariables, def.name).Null?
             else def.defaultValue.None?
    ensures VariableOutcome(s, mode, def, rawVariables) == Failure(NonNullVariableIsNull(def.name))
  {
  }

  /** Such a variable makes the whole coercion fail, with its own exception
      when every variable before it was coerced. */
  lemma NonNullVariableFails(s: Schema, mode: ValueMode, defs: seq<VariableDefinition>,
                             rawVariables: LinkedMap<Value>, i: nat)
    requires i < |defs|
    requires defs[i].varType.NonNull?
    requires if HasKey(rawVariables, defs[i].name) then GetOrNull(rawVariables, defs[i].name).Null?
             else defs[i].defaultValue.None?
    ensures VariableValues(s, mode, defs, rawVariables).Failure?
    ensures (forall j :: 0 <= j < i ==> VariableOutcome(s, mode, defs[j], rawVariables).Success?)
            ==> VariableValues(s, mode, defs, rawVariables) == Failure(NonNullVariableIsNull(defs[i].name))
  {
    var names, outcomes := VariableNames(defs), VariableOutcomes(s, mode, defs, rawVariables);
    NonNullVariableOutcome(s, mode, defs[i], rawVariables);
    assert outcomes[i].Failure?;
    FillSucceedsIff(names, outcomes, |defs|);
    if forall j :: 0 <= j < i ==> VariableOutcome(s, mode, defs[j], rawVariables).Success? {
      forall j | 0 <= j < i ensures outcomes[j].Success? {
        assert outcomes[j] == VariableOutcome(s, mode, defs[j], rawVariables);
      }
      FillFirstError(names, outcomes, |defs|, i);
    }
  }

  /** The map filled from the first `n` variable definitions. */
  function VariablePrefix(s: Schema, mode: ValueMode, defs: seq<VariableDefinition>, rawVariables: LinkedMap<Value>,
                          n: nat): Result<LinkedMap<Value>, CoercionError>
    requires n <= |defs|
  {
    Fill(VariableNames(defs), VariableOutcomes(s, mode, defs, rawVariables), n)
  }

  /** One pass of the loop of `coerceVariableValuesImpl` after `n` successful ones. */
  lemma VariableStep(s: Schema, mode: ValueMode, defs: seq<VariableDefinition>, rawVariables: LinkedMap<Value>,
                     n: nat, acc: LinkedMap<Value>, pass: Result<LinkedMap<Value>, CoercionError>)
    requires n < |defs| && VariablePrefix(s, mode, defs, rawVariables, n) == Success(acc)
    requires pass == Record(acc, defs[n].name, VariableOutcome(s, mode, defs[n], rawVariables))
    ensures pass.Success? ==> VariablePrefix(s, mode, defs, rawVariables, n + 1) == pass
    ensures pass.Failure? ==> VariableValues(s, mode, defs, rawVariables) == pass
  {
    FillStep(VariableNames(defs), VariableOutcomes(s, mode, defs, rawVariables), n, acc, pass);
  }

  /** `coerceVariableValuesImpl`, filling a LinkedHashMap in a loop. */
  method CoerceVariableValuesImpl(s: Schema, variableDefinitions: seq<VariableDefinition>,
                                  rawVariables: LinkedMap<Value>, mode: ValueMode)
    returns (r: Result<LinkedMap<Value>, CoercionError>)
    ensures r == VariableValues(s, mode, variableDefinitions, rawVariables)
  {
    var coercedValues: LinkedMap<Value> := [];
    var i := 0;
    while i < |variableDefinitions|
      invariant 0 <= i <= |variableDefinitions|
      invariant VariablePrefix(s, mode, variableDefinitions, rawVariables, i) == Success(coercedValues)
    {
      var slot := CoerceVariable(s, mode, variableDefinitions[i], rawVariables, coercedValues);
      VariableStep(s, mode, variableDefinitions, rawVariables, i, coercedValues, slot);
      if slot.Failure? {
        return Failure(slot.error);
      }
      coercedValues := slot.value;
      i := i + 1;
    }
    r := Success(coercedValues);
  }

  /** One pass of the loop of `coerceVariableValuesImpl`, with its own fresh
      name stack. */
  method CoerceVariable(s: Schema, mode: ValueMode, variableDefinition: VariableDefinition,
                        rawVariables: LinkedMap<Value>, coercedValues: LinkedMap<Value>)
    returns (r: Result<LinkedMap<Value>, CoercionError>)
    ensures r == Record(coercedValues, variableDefinition.name, VariableOutcome(s, mode, variableDefinition, rawVariables))
  {
    var variableName := variableDefinition.name;
    var nameStack := new NameStack();
    var variableType := variableDefinition.varType;
    var defaultValue := variableDefinition.defaultValue;
    var hasValue := HasKey(rawVariables, variableName);
    var value := GetOrNull(rawVariables, variableName);
    if !hasValue && defaultValue.Some? {
      var coercedDefaultValue := CoerceAstValue(s, variableType, defaultValue.value, [], None, mode, false);
      if coercedDefaultValue.Failure? {
        return Failure(coercedDefaultValue.error);
      }
      r := Success(Put(coercedValues, variableName, NewValue(coercedDefaultValue.value, variableType, mode)));
    } else if variableType.NonNull? && (!hasValue || value.Null?) {
      r := Failure(NonNullVariableIsNull(variableDefinition.name));
    } else if hasValue {
      if value.Null? {
        r := Success(Put(coercedValues, variableName, NewValue(Null, variableType, mode)));
      } else {
        var coercedValue := CoerceValue(s, mode, variableDefinition.name, variableType, value, nameStack);
        if coercedValue.Failure? {
          return Failure(coercedValue.error);
        }
        r := Success(Put(coercedValues, variableName, NewValue(coercedValue.value, variableType, mode)));
      }
    } else {
      r := Success(coercedValues);
    }
  }

  // ---------------------------------------------------------------------------
  // Arguments
  // ---------------------------------------------------------------------------

  function ArgumentName(a: Argument): string {
    a.name
  }

  /** `argumentMap`: the arguments by name, the last one winning for a repeated name. */
  function ArgumentsByName(arguments: seq<Argument>): LinkedMap<Argument> {
    ByName(arguments, ArgumentName)
  }

  /** `argumentMap`, filling a LinkedHashMap in a loop. */
  method ArgumentMap(arguments: seq<Argument>) returns (result: LinkedMap<Argument>)
    ensures result == ArgumentsByName(arguments)
    ensures forall i :: 0 <= i < |arguments| && (forall j :: i < j < |arguments| ==> arguments[j].name != arguments[i].name)
                        ==> Get(result, arguments[i].name) == Some(arguments[i])
    ensures forall k :: Get(result, k).None? <==> forall i :: 0 <= i < |arguments| ==> arguments[i].name != k
  {
    result := [];
    var i := 0;
    while i < |arguments|
      invariant 0 <= i <= |arguments|
      invariant result == ArgumentsByName(arguments[..i])
    {
      assert arguments[..i + 1][..i] == arguments[..i];
      result := Put(result, arguments[i].name, arguments[i]);
      i := i + 1;
    }
    assert arguments[..i] == arguments;
    ByNameLookup(arguments, ArgumentName);
  }

  /** The literal given for argument `name`, the last one winning. */
  function ArgumentLiteral(byName: LinkedMap<Argument>, name: string): Option<Literal> {
    var argument := Get(byName, name);
    if argument.Some? then Some(argument.value.value) else None
  }

  /** What one argument definition contributes, given the arguments by name. */
  function ArgumentOutcome(s: Schema, mode: ValueMode, def: InputValueDefinition, byName: LinkedMap<Argument>,
                           coercedVariables: LinkedMap<Value>, normalizedVariables: Option<LinkedMap<Value>>)
    : (r: Outcome)
    ensures r.Failure? ==> r.error == NonNullArgumentIsNull || LiteralError(r.error)
    ensures r.Success? ==> (r.value.Some? <==> Supplied(ArgumentLiteral(byName, def.name), coercedVariables,
                                                        normalizedVariables, mode) || def.defaultValue.Some?)
  {
    var given := ArgumentLiteral(byName, def.name);
    var p :- ProvidedValue(given, def.inputType, coercedVariables, normalizedVariables, mode);
    match Decide(p.hasValue, def.defaultValue.Some?, def.inputType.NonNull?, IsNullValue(p.value), p.isVariable)
    case UseDefault => Success(Some(NewValue(def.defaultValue.value, def.inputType, mode)))
    case RaiseNull => Failure(NonNullArgumentIsNull)
    case StoreNull => Success(Some(p.value))
    case PassThrough => Success(Some(p.value))
    case CoerceIt =>
      var value :- CoerceAstValue(s, def.inputType, given.value, coercedVariables, normalizedVariables, mode, false);
      Success(Some(NewValue(value, def.inputType, mode)))
    case Omit => Success(None)
  }

  function ArgumentOutcomes(s: Schema, mode: ValueMode, defs: seq<InputValueDefinition>, byName: LinkedMap<Argument>,
                            coercedVariables: LinkedMap<Value>, normalizedVariables: Option<LinkedMap<Value>>)
    : seq<Outcome>
  {
    seq(|defs|, i requires 0 <= i < |defs| => ArgumentOutcome(s, mode, defs[i], byName, coercedVariables, normalizedVariables))
  }

  /** What `getArgumentValuesImpl` returns: no argument definitions give an
      empty map; otherwise every definition is looked up among the arguments
      by name. */
  function ArgumentValues(s: Schema, mode: ValueMode, defs: seq<InputValueDefinition>, arguments: seq<Argument>,
                          coercedVariables: LinkedMap<Value>, normalizedVariables: Option<LinkedMap<Value>>)
    : Result<LinkedMap<Value>, CoercionError>
  {
    if defs == [] then Success([])
    else
      var byName := ArgumentsByName(arguments);
      Fill(FieldNames(defs), ArgumentOutcomes(s, mode, defs, byName, coercedVariables, normalizedVariables), |defs|)
  }

  /** No argument definitions: an empty map, whatever the arguments. */
  lemma NoArgumentDefinitions(s: Schema, mode: ValueMode, arguments: seq<Argument>,
                              coercedVariables: LinkedMap<Value>, normalizedVariables: Option<LinkedMap<Value>>)
    ensures ArgumentValues(s, mode, [], arguments, coercedVariables, normalizedVariables) == Success([])
  {
  }

  /** Only the defined argument names appear as keys; an argument the field
      does not define is ignored. */
  lemma ArgumentValuesKeys(s: Schema, mode: ValueMode, defs: seq<InputValueDefinition>, arguments: seq<Argument>,
                           coercedVariables: LinkedMap<Value>, normalizedVariables: Option<LinkedMap<Value>>)
    requires ArgumentValues(s, mode, defs, arguments, coercedVariables, normalizedVariables).Success?
    ensures forall k :: k in Keys(ArgumentValues(s, mode, defs, arguments, coercedVariables, normalizedVariables).value)
                        ==> k in FieldNames(defs)
  {
    if defs != [] {
      var byName := ArgumentsByName(arguments);
      FillKeysAmongNames(FieldNames(defs), ArgumentOutcomes(s, mode, defs, byName, coercedVariables, normalizedVariables),
                         |defs|);
      assert FieldNames(defs)[..|defs|] == FieldNames(defs);
    }
  }

  /** The names of the argument definitions that get an entry: given a literal
      (a variable reference only when the variable is present), or a default. */
  function SuppliedArgumentNames(defs: seq<InputValueDefinition>, byName: LinkedMap<Argument>,
                                 coercedVariables: LinkedMap<Value>, normalizedVariables: Option<LinkedMap<Value>>,
                                 mode: ValueMode)
    : seq<string>
  {
    if defs == [] then []
    else
      var last := defs[|defs| - 1];
      SuppliedArgumentNames(defs[..|defs| - 1], byName, coercedVariables, normalizedVariables, mode)
      + if Supplied(ArgumentLiteral(byName, last.name), coercedVariables, normalizedVariables, mode)
           || last.defaultValue.Some?
        then [last.name] else []
  }

  lemma {:induction false} SuppliedArgumentsRecorded(defs: seq<InputValueDefinition>, byName: LinkedMap<Argument>,
                                                     outcomes: seq<Outcome>, coercedVariables: LinkedMap<Value>,
                                                     normalizedVariables: Option<LinkedMap<Value>>,
                                                     mode: ValueMode, n: nat)
    requires n <= |defs| == |outcomes|
    requires forall i :: 0 <= i < n ==>
               outcomes[i].Success? &&
               (outcomes[i].value.Some? <==>
                  Supplied(ArgumentLiteral(byName, defs[i].name), coercedVariables, normalizedVariables, mode)
                  || defs[i].defaultValue.Some?)
    ensures RecordedNames(FieldNames(defs), outcomes, n)
            == SuppliedArgumentNames(defs[..n], byName, coercedVariables, normalizedVariables, mode)
  {
    if n > 0 {
      SuppliedArgumentsRecorded(defs, byName, outcomes, coercedVariables, normalizedVariables, mode, n - 1);
      assert defs[..n][..n - 1] == defs[..n - 1];
      assert defs[..n][n - 1] == defs[n - 1] && FieldNames(defs)[n - 1] == defs[n - 1].name;
    }
  }

  /** With distinct definition names, the keys are exactly the arguments that
      were given or defaulted, in definition order. */
  lemma ArgumentValuesExactKeys(s: Schema, mode: ValueMode, defs: seq<InputValueDefinition>, arguments: seq<Argument>,
                                coercedVariables: LinkedMap<Value>, normalizedVariables: Option<LinkedMap<Value>>)
    requires DistinctNames(FieldNames(defs))
    requires ArgumentValues(s, mode, defs, arguments, coercedVariables, normalizedVariables).Success?
    ensures Keys(ArgumentValues(s, mode, defs, arguments, coercedVariables, normalizedVariables).value)
            == SuppliedArgumentNames(defs, ArgumentsByName(arguments), coercedVariables, normalizedVariables, mode)
  {
    if defs != [] {
      var byName := ArgumentsByName(arguments);
      var names, outcomes := FieldNames(defs), ArgumentOutcomes(s, mode, defs, byName, coercedVariables, normalizedVariables);
      FillKeys(names, outcomes, |defs|);
      FillSucceedsIff(names, outcomes, |defs|);
      forall i | 0 <= i < |defs|
        ensures outcomes[i].Success?
        ensures outcomes[i].value.Some? <==>
                Supplied(ArgumentLiteral(byName, defs[i].name), coercedVariables, normalizedVariables, mode)
                || defs[i].defaultValue.Some?
      {
        assert outcomes[i] == ArgumentOutcome(s, mode, defs[i], byName, coercedVariables, normalizedVariables);
      }
      SuppliedArgumentsRecorded(defs, byName, outcomes, coercedVariables, normalizedVariables, mode, |defs|);
      assert defs[..|defs|] == defs;
    }
  }

  lemma ArgumentOutcomeEntry(s: Schema, mode: ValueMode, def: InputValueDefinition, byName: LinkedMap<Argument>,
                             coercedVariables: LinkedMap<Value>, normalizedVariables: Option<LinkedMap<Value>>)
    requires ArgumentOutcome(s, mode, def, byName, coercedVariables, normalizedVariables).Success?
    ensures GivenEntry(s, mode, def, ArgumentLiteral(byName, def.name), coercedVariables, normalizedVariables, false,
                       ArgumentOutcome(s, mode, def, byName, coercedVariables, normalizedVariables).value)
  {
    var given := ArgumentLiteral(byName, def.name);
    if given.Some? && !given.value.VariableReference? {
      IsNullValueOfNewValue(AstValue(given.value), def.inputType, mode);
    }
  }

  /** With distinct argument definitions, every defined argument's entry is
      the one its argument, variable, default and type call for. */
  lemma ArgumentValuesEntries(s: Schema, mode: ValueMode, defs: seq<InputValueDefinition>, arguments: seq<Argument>,
                              coercedVariables: LinkedMap<Value>, normalizedVariables: Option<LinkedMap<Value>>, i: nat)
    requires i < |defs| && DistinctNames(FieldNames(defs))
    requires ArgumentValues(s, mode, defs, arguments, coercedVariables, normalizedVariables).Success?
    ensures GivenEntry(s, mode, defs[i], ArgumentLiteral(ArgumentsByName(arguments), defs[i].name),
                       coercedVariables, normalizedVariables, false,
                       Get(ArgumentValues(s, mode, defs, arguments, coercedVariables, normalizedVariables).value,
                           defs[i].name))
  {
    var byName := ArgumentsByName(arguments);
    FillEntry(FieldNames(defs), ArgumentOutcomes(s, mode, defs, byName, coercedVariables, normalizedVariables), |defs|, i);
    ArgumentOutcomeEntry(s, mode, defs[i], byName, coercedVariables, normalizedVariables);
  }

  /** An argument given as the literal `null` is not Java null, so it passes the
      non-null check and is stored as null even for a non-null argument type;
      rejecting it is left to query validation. */
  lemma NullLiteralArgumentStoredAsNull(s: Schema, mode: ValueMode, def: InputValueDefinition,
                                        byName: LinkedMap<Argument>, coercedVariables: LinkedMap<Value>,
                                        normalizedVariables: Option<LinkedMap<Value>>)
    requires Get(byName, def.name).Some? && Get(byName, def.name).value.value == NullLiteral
    ensures ArgumentOutcome(s, mode, def, byName, coercedVariables, normalizedVariables)
            == Success(Some(NewValue(Null, def.inputType, mode)))
  {
  }

  /** A non-null argument that is missing, with no default, makes the whole
      call fail. */
  lemma MissingNonNullArgumentFails(s: Schema, mode: ValueMode, defs: seq<InputValueDefinition>, arguments: seq<Argument>,
                                    coercedVariables: LinkedMap<Value>, normalizedVariables: Option<LinkedMap<Value>>,
                                    i: nat)
    requires i < |defs|
    requires defs[i].inputType.NonNull? && defs[i].defaultValue.None?
    requires forall j :: 0 <= j < |arguments| ==> arguments[j].name != defs[i].name
    ensures ArgumentValues(s, mode, defs, arguments, coercedVariables, normalizedVariables).Failure?
  {
    var byName := ArgumentsByName(arguments);
    var outcomes := ArgumentOutcomes(s, mode, defs, byName, coercedVariables, normalizedVariables);
    ByNameAbsent(arguments, ArgumentName, defs[i].name);
    assert outcomes[i].Failure?;
    FillSucceedsIff(FieldNames(defs), outcomes, |defs|);
  }

  /** `getArgumentValuesImpl`, filling a LinkedHashMap in a loop. */
  method GetArgumentValuesImpl(s: Schema, argumentTypes: seq<InputValueDefinition>, arguments: seq<Argument>,
                               coercedVariables: LinkedMap<Value>, normalizedVariables: Option<LinkedMap<Value>>,
                               mode: ValueMode)
    returns (r: Result<LinkedMap<Value>, CoercionError>)
    ensures r == ArgumentValues(s, mode, argumentTypes, arguments, coercedVariables, normalizedVariables)
  {
    if argumentTypes == [] {
      return Success([]);
    }
    var variables := GetVariables(coercedVariables, normalizedVariables, mode);
    var coercedValues: LinkedMap<Value> := [];
    var argumentMap := ArgumentMap(arguments);
    ghost var names := FieldNames(argumentTypes);
    ghost var outcomes := ArgumentOutcomes(s, mode, argumentTypes, argumentMap, coercedVariables, normalizedVariables);
    var i := 0;
    while i < |argumentTypes|
      invariant 0 <= i <= |argumentTypes|
      invariant Fill(names, outcomes, i) == Success(coercedValues)
    {
      var slot := CoerceArgument(s, mode, argumentTypes[i], argumentMap, variables, coercedVariables,
                                 normalizedVariables, coercedValues);
      FillStep(names, outcomes, i, coercedValues, slot);
      if slot.Failure? {
        return Failure(slot.error);
      }
      coercedValues := slot.value;
      i := i + 1;
    }
    r := Success(coercedValues);
  }

  /** One pass of the loop of `getArgumentValuesImpl`. */
  method CoerceArgument(s: Schema, mode: ValueMode, argumentDefinition: InputValueDefinition,
                        argumentMap: LinkedMap<Argument>, variables: Option<LinkedMap<Value>>,
                        coercedVariables: LinkedMap<Value>, normalizedVariables: Option<LinkedMap<Value>>,
                        coercedValues: LinkedMap<Value>)
    returns (r: Result<LinkedMap<Value>, CoercionError>)
    requires variables == GetVariables(coercedVariables, normalizedVariables, mode)
    ensures r == Record(coercedValues, argumentDefinition.name,
                        ArgumentOutcome(s, mode, argumentDefinition, argumentMap, coercedVariables, normalizedVariables))
  {
    var argumentType := argumentDefinition.inputType;
    var argumentName := argumentDefinition.name;
    var argument := Get(argumentMap, argumentName);
    var hasValue := argument.Some?;
    var value: Value;
    var argumentValue: Option<Literal> := if argument.Some? then Some(argument.value.value) else None;
    var isVariable := argumentValue.Some? && argumentValue.value.VariableReference?;
    if isVariable {
      if variables.None? {
        return Failure(MissingVariables);
      }
      hasValue := HasKey(variables.value, argumentValue.value.name);
      value := GetOrNull(variables.value, argumentValue.value.name);
    } else {
      value := NewValue(if argumentValue.Some? then AstValue(argumentValue.value) else Null, argumentType, mode);
    }
    if !hasValue && argumentDefinition.defaultValue.Some? {
      r := Success(Put(coercedValues, argumentName, NewValue(argumentDefinition.defaultValue.value, argumentType, mode)));
    } else if argumentType.NonNull? && (!hasValue || IsNullValue(value)) {
      r := Failure(NonNullArgumentIsNull);
    } else if hasValue {
      if IsNullValue(value) {
        r := Success(Put(coercedValues, argumentName, value));
      } else if isVariable {
        r := Success(Put(coercedValues, argumentName, value));
      } else {
        var coerced := CoerceAstValue(s, argumentType, argument.value.value, coercedVariables, normalizedVariables,
                                      mode, false);
        if coerced.Failure? {
          return Failure(coerced.error);
        }
        r := Success(Put(coercedValues, argumentName, NewValue(coerced.value, argumentType, mode)));
      }
    } else {
      r := Success(coercedValues);
    }
  }
}
