/** Coercion of AST literals (ValuesResolver.coerceAstValue,
    coerceAstValueAstForList, coerceAstValueForInputObject). The type dispatch
    is a function; the two helpers that fill a list or a map in a loop are
    methods, proved to yield what the specification functions say. */
module LiteralCoercion {
  import opened Wrappers
  import opened LinkedMaps
  import opened InputValues
  import opened DefinitionLoop

  /** The errors literal coercion can raise. */
  predicate LiteralError(e: CoercionError) {
    e == MissingVariables || e == InvalidLiteral || e == NotAnObjectLiteral || e.NonNullLiteralFieldIsNull?
  }

  /** A literal parser's answer; a parser that throws rejects the literal. */
  function ParsedLiteral(p: Option<Value>): (r: Result<Value, CoercionError>)
    ensures r.Failure? <==> p.None?
    ensures r.Failure? ==> r.error == InvalidLiteral
    ensures r.Success? ==> r.value == p.value
  {
    match p
    case None => Failure(InvalidLiteral)
    case Some(v) => Success(v)
  }

  /** The value of variable `name` in the mode's variable map: null when it is
      absent, the bare value of a normalized variable inside a list, and a
      failure when the map itself is null. */
  function VariableValue(name: string, coercedVariables: LinkedMap<Value>,
                         normalizedVariables: Option<LinkedMap<Value>>, mode: ValueMode,
                         unwrappingList: bool): (r: Result<Value, CoercionError>)
    ensures r.Failure? <==> GetVariables(coercedVariables, normalizedVariables, mode).None?
    ensures r.Failure? ==> r.error == MissingVariables
    ensures r.Success? && !HasKey(GetVariables(coercedVariables, normalizedVariables, mode).value, name)
            ==> r.value == Null
  {
    match GetVariables(coercedVariables, normalizedVariables, mode)
    case None => Failure(MissingVariables)
    case Some(variables) =>
      var variableValue := GetOrNull(variables, name);
      if unwrappingList && variableValue.NormalizedInput? then Success(variableValue.inner)
      else Success(variableValue)
  }

  function ObjectFieldName(f: ObjectField): string {
    f.name
  }

  /** `mapObjectValueFieldsByName`: the fields of an object literal by name,
      the last field winning for a repeated name. */
  function FieldsByName(fields: seq<ObjectField>): LinkedMap<ObjectField> {
    ByName(fields, ObjectFieldName)
  }

  /** Whether a definition was given a value, and which: the value a variable
      reference stands for, or the literal itself wrapped for the mode (`newValue`
      of the literal, or of null when none was given). */
  datatype Provided = Provided(hasValue: bool, value: Value, isVariable: bool)

  /** Whether a definition counts as given a value: a literal was given, or a
      variable reference to a variable the map holds. */
  predicate Supplied(given: Option<Literal>, coercedVariables: LinkedMap<Value>,
                     normalizedVariables: Option<LinkedMap<Value>>, mode: ValueMode) {
    given.Some? &&
    (given.value.VariableReference? ==>
       var variables := GetVariables(coercedVariables, normalizedVariables, mode);
       variables.Some? && HasKey(variables.value, given.value.name))
  }

  function ProvidedValue(given: Option<Literal>, t: InputType, coercedVariables: LinkedMap<Value>,
                         normalizedVariables: Option<LinkedMap<Value>>, mode: ValueMode)
    : (r: Result<Provided, CoercionError>)
    ensures r.Failure? ==> r.error == MissingVariables
    ensures r.Success? ==> r.value.isVariable == (given.Some? && given.value.VariableReference?)
    ensures r.Success? ==> r.value.hasValue == Supplied(given, coercedVariables, normalizedVariables, mode)
  {
    if given.Some? && given.value.VariableReference? then
      match GetVariables(coercedVariables, normalizedVariables, mode)
      case None => Failure(MissingVariables)
      case Some(variables) =>
        Success(Provided(HasKey(variables, given.value.name), GetOrNull(variables, given.value.name), true))
    else
      Success(Provided(given.Some?, NewValue(if given.Some? then AstValue(given.value) else Null, t, mode), false))
  }

  /** `coerceAstValue`: what literal `lit` coerces to at type `t`. */
  function CoerceAstValue(s: Schema, t: InputType, lit: Literal, coercedVariables: LinkedMap<Value>,
                          normalizedVariables: Option<LinkedMap<Value>>, mode: ValueMode,
                          unwrappingList: bool): (r: Result<Value, CoercionError>)
    decreases lit, t, 3, 0
    ensures lit.NullLiteral? ==> r == Success(Null)
    ensures r.Failure? ==> LiteralError(r.error)
    ensures r.Failure? && r.error == MissingVariables ==> GetVariables(coercedVariables, normalizedVariables, mode).None?
  {
    if lit.VariableReference? then
      VariableValue(lit.name, coercedVariables, normalizedVariables, mode, unwrappingList)
    else if lit.NullLiteral? then Success(Null)
    else if t.Scalar? then ParsedLiteral(s.parseLiteral(t.name, lit, coercedVariables))
    else if t.NonNull? then
      CoerceAstValue(s, t.wrapped, lit, coercedVariables, normalizedVariables, mode, unwrappingList)
    else if t.InputObject? then
      if lit.ObjectLiteral? then AstInputObjectValue(s, t, lit, coercedVariables, normalizedVariables, mode)
      else Failure(NotAnObjectLiteral)
    else if t.Enum? then ParsedLiteral(s.enumParseLiteral(t.name, lit))
    else AstListValue(s, t.wrapped, lit, coercedVariables, normalizedVariables, mode)
  }

  /** `coerceAstValueAstForList`: an array literal becomes a list of the same
      length, any other literal a list of one element. */
  function AstListValue(s: Schema, elementType: InputType, lit: Literal, coercedVariables: LinkedMap<Value>,
                        normalizedVariables: Option<LinkedMap<Value>>, mode: ValueMode)
    : (r: Result<Value, CoercionError>)
    decreases lit, elementType, 4, 0
    ensures r.Failure? ==> LiteralError(r.error)
    ensures r.Failure? && r.error == MissingVariables ==> GetVariables(coercedVariables, normalizedVariables, mode).None?
    ensures r.Success? ==> r.value.ListValue? && |r.value.items| == if lit.ArrayLiteral? then |lit.values| else 1
  {
    if lit.ArrayLiteral? then
      var items :- AstItems(s, elementType, lit, |lit.values|, coercedVariables, normalizedVariables, mode);
      Success(ListValue(items))
    else
      var item :- CoerceAstValue(s, elementType, lit, coercedVariables, normalizedVariables, mode, true);
      Success(ListValue([item]))
  }

  /** The first `n` elements of an array literal, coerced in order. */
  function AstItems(s: Schema, elementType: InputType, lit: Literal, n: nat, coercedVariables: LinkedMap<Value>,
                    normalizedVariables: Option<LinkedMap<Value>>, mode: ValueMode)
    : (r: Result<seq<Value>, CoercionError>)
    requires lit.ArrayLiteral? && n <= |lit.values|
    decreases lit, elementType, 1, n
    ensures r.Failure? ==> LiteralError(r.error)
    ensures r.Failure? && r.error == MissingVariables ==> GetVariables(coercedVariables, normalizedVariables, mode).None?
    ensures r.Success? ==> |r.value| == n
  {
    if n == 0 then Success([])
    else
      var prefix :- AstItems(s, elementType, lit, n - 1, coercedVariables, normalizedVariables, mode);
      var item :- CoerceAstValue(s, elementType, lit.values[n - 1], coercedVariables, normalizedVariables, mode, true);
      Success(prefix + [item])
  }

  /** `coerceAstValueForInputObject`: the map built from every field definition
      of input object type `t`, in definition order. */
  function AstInputObjectValue(s: Schema, t: InputType, lit: Literal, coercedVariables: LinkedMap<Value>,
                               normalizedVariables: Option<LinkedMap<Value>>, mode: ValueMode)
    : (r: Result<Value, CoercionError>)
    requires t.InputObject? && lit.ObjectLiteral?
    decreases lit, t, 2, 0
    ensures r.Failure? ==> LiteralError(r.error)
    ensures r.Failure? && r.error == MissingVariables ==> GetVariables(coercedVariables, normalizedVariables, mode).None?
    ensures r.Success? ==> r.value.MapValue?
  {
    var defs := s.fieldDefinitions(t.name);
    var outcomes := AstFieldOutcomes(s, t, lit, coercedVariables, normalizedVariables, mode);
    FillErrorRaised(FieldNames(defs), outcomes, |defs|);
    var fields :- Fill(FieldNames(defs), outcomes, |defs|);
    Success(MapValue(fields))
  }

  /** The outcomes of the field definitions, in definition order. */
  function AstFieldOutcomes(s: Schema, t: InputType, lit: Literal, coercedVariables: LinkedMap<Value>,
                            normalizedVariables: Option<LinkedMap<Value>>, mode: ValueMode)
    : (r: seq<Outcome>)
    requires t.InputObject? && lit.ObjectLiteral?
    decreases lit, t, 1, 0
    ensures |r| == |s.fieldDefinitions(t.name)|
  {
    var defs := s.fieldDefinitions(t.name);
    seq(|defs|, i requires 0 <= i < |defs| =>
      AstFieldOutcome(s, t, lit, defs[i], coercedVariables, normalizedVariables, mode))
  }

  /** The literal an object literal gives for field `name`, the last one
      winning for a repeated name. */
  function FieldLiteral(fields: seq<ObjectField>, name: string): Option<Literal> {
    var field := Get(FieldsByName(fields), name);
    if field.Some? then Some(field.value.value) else None
  }

  /** What field definition `def` contributes to the map: its default, the
      non-null error, the value stored as null or passed through, the coerced
      literal, or nothing. */
  function AstFieldOutcome(s: Schema, t: InputType, lit: Literal, def: InputValueDefinition,
                           coercedVariables: LinkedMap<Value>, normalizedVariables: Option<LinkedMap<Value>>,
                           mode: ValueMode)
    : (r: Outcome)
    requires lit.ObjectLiteral?
    decreases lit, t, 0, 0
    ensures r.Failure? ==> LiteralError(r.error)
    ensures r.Failure? && r.error == MissingVariables ==> GetVariables(coercedVariables, normalizedVariables, mode).None?
    ensures r.Success? ==> (r.value.Some? <==> Supplied(FieldLiteral(lit.fields, def.name), coercedVariables,
                                                        normalizedVariables, mode) || def.defaultValue.Some?)
  {
    var given := FieldLiteral(lit.fields, def.name);
    var p :- ProvidedValue(given, def.inputType, coercedVariables, normalizedVariables, mode);
    match Decide(p.hasValue, def.defaultValue.Some?, def.inputType.NonNull?, IsNullValue(p.value), p.isVariable)
    case UseDefault => Success(Some(NewValue(def.defaultValue.value, def.inputType, mode)))
    case RaiseNull => Failure(NonNullLiteralFieldIsNull(def.name))
    case StoreNull => Success(Some(p.value))
    case PassThrough => Success(Some(p.value))
    case CoerceIt =>
      assert Get(FieldsByName(lit.fields), def.name).value in lit.fields;
      var c :- CoerceAstValue(s, def.inputType, given.value, coercedVariables, normalizedVariables, mode, true);
      Success(Some(NewValue(c, def.inputType, mode)))
    case Omit => Success(None)
  }

  /** An array literal's list holds, position by position, what each element
      coerces to. */
  lemma {:induction false} AstItemsElementwise(s: Schema, elementType: InputType, lit: Literal, n: nat,
                                               coercedVariables: LinkedMap<Value>,
                                               normalizedVariables: Option<LinkedMap<Value>>, mode: ValueMode)
    requires lit.ArrayLiteral? && n <= |lit.values|
    requires AstItems(s, elementType, lit, n, coercedVariables, normalizedVariables, mode).Success?
    ensures forall i :: 0 <= i < n ==>
              CoerceAstValue(s, elementType, lit.values[i], coercedVariables, normalizedVariables, mode, true)
              == Success(AstItems(s, elementType, lit, n, coercedVariables, normalizedVariables, mode).value[i])
  {
    if n > 0 {
      AstItemsElementwise(s, elementType, lit, n - 1, coercedVariables, normalizedVariables, mode);
    }
  }

  /** `coerceAstValueAstForList`: an array literal becomes a list of its
      elements' coercions, in order; any other literal a one-element list. */
  lemma AstListShape(s: Schema, elementType: InputType, lit: Literal, coercedVariables: LinkedMap<Value>,
                     normalizedVariables: Option<LinkedMap<Value>>, mode: ValueMode)
    requires AstListValue(s, elementType, lit, coercedVariables, normalizedVariables, mode).Success?
    ensures var items := AstListValue(s, elementType, lit, coercedVariables, normalizedVariables, mode).value.items;
            if lit.ArrayLiteral? then
              |items| == |lit.values|
              && forall i :: 0 <= i < |items| ==>
                   CoerceAstValue(s, elementType, lit.values[i], coercedVariables, normalizedVariables, mode, true)
                   == Success(items[i])
            else items == [CoerceAstValue(s, elementType, lit, coercedVariables, normalizedVariables, mode, true).value]
  {
    if lit.ArrayLiteral? {
      AstItemsElementwise(s, elementType, lit, |lit.values|, coercedVariables, normalizedVariables, mode);
    }
  }

  /** A variable reference outside a list (an argument's own literal) stands
      for the variable's value as the map holds it, a normalized value still
      wrapped, and null for an absent variable. */
  lemma VariableReferenceOutsideList(s: Schema, t: InputType, name: string, coercedVariables: LinkedMap<Value>,
                                     normalizedVariables: Option<LinkedMap<Value>>, mode: ValueMode,
                                     variables: LinkedMap<Value>)
    requires GetVariables(coercedVariables, normalizedVariables, mode) == Some(variables)
    ensures CoerceAstValue(s, t, VariableReference(name), coercedVariables, normalizedVariables, mode, false)
            == Success(GetOrNull(variables, name))
  {
  }

  /** A variable reference among the elements of an array literal stands for
      the variable's bare value: a normalized variable is unwrapped, because
      the whole list is wrapped once; any other value, and null for an absent
      variable, is taken as it is. */
  lemma {:induction false} VariableReferenceInList(s: Schema, elementType: InputType, lit: Literal,
                                                   coercedVariables: LinkedMap<Value>,
                                                   normalizedVariables: Option<LinkedMap<Value>>, mode: ValueMode,
                                                   variables: LinkedMap<Value>, i: nat)
    requires lit.ArrayLiteral? && i < |lit.values| && lit.values[i].VariableReference?
    requires GetVariables(coercedVariables, normalizedVariables, mode) == Some(variables)
    requires AstListValue(s, elementType, lit, coercedVariables, normalizedVariables, mode).Success?
    ensures var value := GetOrNull(variables, lit.values[i].name);
            AstListValue(s, elementType, lit, coercedVariables, normalizedVariables, mode).value.items[i]
            == if value.NormalizedInput? then value.inner else value
  {
    AstListShape(s, elementType, lit, coercedVariables, normalizedVariables, mode);
  }

  /** In normalized mode, an element that names a normalized variable holding
      `x` becomes `x` in the coerced list. */
  lemma NormalizedVariableInList(s: Schema, elementType: InputType, lit: Literal, coercedVariables: LinkedMap<Value>,
                                 variables: LinkedMap<Value>, i: nat, variableType: InputType, x: Value)
    requires lit.ArrayLiteral? && i < |lit.values| && lit.values[i].VariableReference?
    requires Get(variables, lit.values[i].name) == Some(NormalizedInput(variableType, x))
    requires AstListValue(s, elementType, lit, coercedVariables, Some(variables), Normalized).Success?
    ensures AstListValue(s, elementType, lit, coercedVariables, Some(variables), Normalized).value.items[i] == x
  {
    VariableReferenceInList(s, elementType, lit, coercedVariables, Some(variables), Normalized, variables, i);
  }

  /** Once a prefix of the elements fails, every longer prefix fails the same way. */
  lemma {:induction false} AstItemsFailurePersists(s: Schema, elementType: InputType, lit: Literal, m: nat, n: nat,
                                                   coercedVariables: LinkedMap<Value>,
                                                   normalizedVariables: Option<LinkedMap<Value>>, mode: ValueMode)
    requires lit.ArrayLiteral? && m <= n <= |lit.values|
    requires AstItems(s, elementType, lit, m, coercedVariables, normalizedVariables, mode).Failure?
    ensures AstItems(s, elementType, lit, n, coercedVariables, normalizedVariables, mode)
            == AstItems(s, elementType, lit, m, coercedVariables, normalizedVariables, mode)
    decreases n - m
  {
    if m < n {
      AstItemsFailurePersists(s, elementType, lit, m, n - 1, coercedVariables, normalizedVariables, mode);
    }
  }

  /** What a definition that was given nothing, or a reference to a variable
      the map does not hold, is stored as: its default, uncoerced, or no entry
      when it is nullable. */
  predicate AbsentEntry(mode: ValueMode, def: InputValueDefinition, entry: Option<Value>) {
    if def.defaultValue.Some? then entry == Some(NewValue(def.defaultValue.value, def.inputType, mode))
    else entry.None? && !def.inputType.NonNull?
  }

  /** The entry a definition (an argument, or a field of an object literal)
      gets from the literal `given` for it: a variable reference passes the
      variable's value through uncoerced, null only for a nullable type; any
      other literal is coerced, so the `null` literal becomes null whatever
      the type. */
  predicate GivenEntry(s: Schema, mode: ValueMode, def: InputValueDefinition, given: Option<Literal>,
                       coercedVariables: LinkedMap<Value>, normalizedVariables: Option<LinkedMap<Value>>,
                       unwrappingList: bool, entry: Option<Value>) {
    if given.None? then AbsentEntry(mode, def, entry)
    else
      var lit := given.value;
      if lit.VariableReference? then
        var variables := GetVariables(coercedVariables, normalizedVariables, mode);
        variables.Some? &&
        if !HasKey(variables.value, lit.name) then AbsentEntry(mode, def, entry)
        else
          var value := GetOrNull(variables.value, lit.name);
          entry == Some(value) && (IsNullValue(value) ==> !def.inputType.NonNull?)
      else
        var c := CoerceAstValue(s, def.inputType, lit, coercedVariables, normalizedVariables, mode, unwrappingList);
        c.Success? && entry == Some(NewValue(c.value, def.inputType, mode))
  }

  lemma AstFieldOutcomeEntry(s: Schema, t: InputType, lit: Literal, def: InputValueDefinition,
                             coercedVariables: LinkedMap<Value>, normalizedVariables: Option<LinkedMap<Value>>,
                             mode: ValueMode)
    requires lit.ObjectLiteral? && AstFieldOutcome(s, t, lit, def, coercedVariables, normalizedVariables, mode).Success?
    ensures GivenEntry(s, mode, def, FieldLiteral(lit.fields, def.name), coercedVariables, normalizedVariables, true,
                       AstFieldOutcome(s, t, lit, def, coercedVariables, normalizedVariables, mode).value)
  {
    var given := FieldLiteral(lit.fields, def.name);
    if given.Some? && !given.value.VariableReference? {
      IsNullValueOfNewValue(AstValue(given.value), def.inputType, mode);
    }
  }

  /** With distinct field names, every field definition's entry in a coerced
      object literal is the one its literal, variable, default and type call for. */
  lemma AstInputObjectEntries(s: Schema, t: InputType, lit: Literal, coercedVariables: LinkedMap<Value>,
                              normalizedVariables: Option<LinkedMap<Value>>, mode: ValueMode, i: nat)
    requires t.InputObject? && lit.ObjectLiteral?
    requires i < |s.fieldDefinitions(t.name)| && DistinctNames(FieldNames(s.fieldDefinitions(t.name)))
    requires AstInputObjectValue(s, t, lit, coercedVariables, normalizedVariables, mode).Success?
    ensures var def := s.fieldDefinitions(t.name)[i];
            GivenEntry(s, mode, def, FieldLiteral(lit.fields, def.name), coercedVariables, normalizedVariables, true,
                       Get(AstInputObjectValue(s, t, lit, coercedVariables, normalizedVariables, mode).value.entries,
                           def.name))
  {
    var defs := s.fieldDefinitions(t.name);
    FillEntry(FieldNames(defs), AstFieldOutcomes(s, t, lit, coercedVariables, normalizedVariables, mode), |defs|, i);
    AstFieldOutcomeEntry(s, t, lit, defs[i], coercedVariables, normalizedVariables, mode);
  }

  /** The names of the field definitions that get an entry: those the
      literal supplies a value for and those with a default, in definition order. */
  function SuppliedLiteralFieldNames(defs: seq<InputValueDefinition>, fields: seq<ObjectField>,
                                     coercedVariables: LinkedMap<Value>,
                                     normalizedVariables: Option<LinkedMap<Value>>, mode: ValueMode)
    : seq<string>
  {
    if defs == [] then []
    else
      var last := defs[|defs| - 1];
      SuppliedLiteralFieldNames(defs[..|defs| - 1], fields, coercedVariables, normalizedVariables, mode)
      + if Supplied(FieldLiteral(fields, last.name), coercedVariables, normalizedVariables, mode)
           || last.defaultValue.Some?
        then [last.name] else []
  }

  lemma {:induction false} SuppliedLiteralFieldsRecorded(defs: seq<InputValueDefinition>, fields: seq<ObjectField>,
                                                         outcomes: seq<Outcome>, coercedVariables: LinkedMap<Value>,
                                                         normalizedVariables: Option<LinkedMap<Value>>,
                                                         mode: ValueMode, n: nat)
    requires n <= |defs| == |outcomes|
    requires forall i :: 0 <= i < n ==>
               outcomes[i].Success? &&
               (outcomes[i].value.Some? <==>
                  Supplied(FieldLiteral(fields, defs[i].name), coercedVariables, normalizedVariables, mode)
                  || defs[i].defaultValue.Some?)
    ensures RecordedNames(FieldNames(defs), outcomes, n)
            == SuppliedLiteralFieldNames(defs[..n], fields, coercedVariables, normalizedVariables, mode)
  {
    if n > 0 {
      SuppliedLiteralFieldsRecorded(defs, fields, outcomes, coercedVariables, normalizedVariables, mode, n - 1);
      assert defs[..n][..n - 1] == defs[..n - 1];
      assert defs[..n][n - 1] == defs[n - 1] && FieldNames(defs)[n - 1] == defs[n - 1].name;
    }
  }

  /** A coerced object literal's keys are exactly the fields the literal
      supplies a value for or that have a default, in definition order. */
  lemma AstInputObjectKeys(s: Schema, t: InputType, lit: Literal, coercedVariables: LinkedMap<Value>,
                           normalizedVariables: Option<LinkedMap<Value>>, mode: ValueMode)
    requires t.InputObject? && lit.ObjectLiteral? && DistinctNames(FieldNames(s.fieldDefinitions(t.name)))
    requires AstInputObjectValue(s, t, lit, coercedVariables, normalizedVariables, mode).Success?
    ensures Keys(AstInputObjectValue(s, t, lit, coercedVariables, normalizedVariables, mode).value.entries)
            == SuppliedLiteralFieldNames(s.fieldDefinitions(t.name), lit.fields, coercedVariables, normalizedVariables, mode)
  {
    var defs := s.fieldDefinitions(t.name);
    var names, outcomes := FieldNames(defs), AstFieldOutcomes(s, t, lit, coercedVariables, normalizedVariables, mode);
    FillKeys(names, outcomes, |defs|);
    FillSucceedsIff(names, outcomes, |defs|);
    forall i | 0 <= i < |defs|
      ensures outcomes[i].Success?
      ensures outcomes[i].value.Some? <==>
              Supplied(FieldLiteral(lit.fields, defs[i].name), coercedVariables, normalizedVariables, mode)
              || defs[i].defaultValue.Some?
    {
      assert outcomes[i] == AstFieldOutcome(s, t, lit, defs[i], coercedVariables, normalizedVariables, mode);
    }
    SuppliedLiteralFieldsRecorded(defs, lit.fields, outcomes, coercedVariables, normalizedVariables, mode, |defs|);
    assert defs[..|defs|] == defs;
  }

  /** `coerceAstValueAstForList`, appending to a list in a loop. */
  method CoerceAstValueAstForList(s: Schema, listType: InputType, lit: Literal, coercedVariables: LinkedMap<Value>,
                                  normalizedVariables: Option<LinkedMap<Value>>, mode: ValueMode)
    returns (r: Result<Value, CoercionError>)
    requires listType.ListType?
    ensures r == AstListValue(s, listType.wrapped, lit, coercedVariables, normalizedVariables, mode)
  {
    var elementType := listType.wrapped;
    if lit.ArrayLiteral? {
      var result: seq<Value> := [];
      var i := 0;
      while i < |lit.values|
        invariant 0 <= i <= |lit.values|
        invariant AstItems(s, elementType, lit, i, coercedVariables, normalizedVariables, mode) == Success(result)
      {
        var item := CoerceAstValue(s, elementType, lit.values[i], coercedVariables, normalizedVariables, mode, true);
        if item.Failure? {
          AstItemsFailurePersists(s, elementType, lit, i + 1, |lit.values|, coercedVariables, normalizedVariables, mode);
          return Failure(item.error);
        }
        result := result + [item.value];
        i := i + 1;
      }
      r := Success(ListValue(result));
    } else {
      var item := CoerceAstValue(s, elementType, lit, coercedVariables, normalizedVariables, mode, true);
      if item.Failure? {
        return Failure(item.error);
      }
      r := Success(ListValue([item.value]));
    }
  }

  /** `mapObjectValueFieldsByName`, filling a LinkedHashMap in a loop. */
  method MapObjectValueFieldsByName(fields: seq<ObjectField>) returns (byName: LinkedMap<ObjectField>)
    ensures byName == FieldsByName(fields)
    ensures forall i :: 0 <= i < |fields| && (forall j :: i < j < |fields| ==> fields[j].name != fields[i].name)
                        ==> Get(byName, fields[i].name) == Some(fields[i])
    ensures forall k :: Get(byName, k).None? <==> forall i :: 0 <= i < |fields| ==> fields[i].name != k
  {
    byName := [];
    var i := 0;
    while i < |fields|
      invariant 0 <= i <= |fields|
      invariant byName == FieldsByName(fields[..i])
    {
      assert fields[..i + 1][..i] == fields[..i];
      byName := Put(byName, fields[i].name, fields[i]);
      i := i + 1;
    }
    assert fields[..i] == fields;
    ByNameLookup(fields, ObjectFieldName);
  }

  /** `coerceAstValueForInputObject`: the fields of the literal by name, then
      the loop over the field definitions. */
  method CoerceAstValueForInputObject(s: Schema, t: InputType, lit: Literal, coercedVariables: LinkedMap<Value>,
                                      normalizedVariables: Option<LinkedMap<Value>>, mode: ValueMode)
    returns (r: Result<Value, CoercionError>)
    requires t.InputObject? && lit.ObjectLiteral?
    ensures r == AstInputObjectValue(s, t, lit, coercedVariables, normalizedVariables, mode)
  {
    var inputFieldsByName := MapObjectValueFieldsByName(lit.fields);
    var coercedValues := CoerceAstInputFields(s, t, lit, inputFieldsByName, coercedVariables, normalizedVariables, mode);
    if coercedValues.Failure? {
      return Failure(coercedValues.error);
    }
    r := Success(MapValue(coercedValues.value));
  }

  /** The loop of `coerceAstValueForInputObject` over the field definitions,
      filling a LinkedHashMap. */
  method CoerceAstInputFields(s: Schema, t: InputType, lit: Literal, inputFieldsByName: LinkedMap<ObjectField>,
                              coercedVariables: LinkedMap<Value>, normalizedVariables: Option<LinkedMap<Value>>,
                              mode: ValueMode)
    returns (r: Result<LinkedMap<Value>, CoercionError>)
    requires t.InputObject? && lit.ObjectLiteral? && inputFieldsByName == FieldsByName(lit.fields)
    ensures var defs := s.fieldDefinitions(t.name);
            r == Fill(FieldNames(defs), AstFieldOutcomes(s, t, lit, coercedVariables, normalizedVariables, mode), |defs|)
  {
    var coercedValues: LinkedMap<Value> := [];
    var inputFieldTypes := s.fieldDefinitions(t.name);
    ghost var names := FieldNames(inputFieldTypes);
    ghost var outcomes := AstFieldOutcomes(s, t, lit, coercedVariables, normalizedVariables, mode);
    var i := 0;
    while i < |inputFieldTypes|
      invariant 0 <= i <= |inputFieldTypes|
      invariant Fill(names, outcomes, i) == Success(coercedValues)
    {
      var field := CoerceAstInputField(s, t, lit, inputFieldTypes[i], coercedValues, inputFieldsByName,
                                       coercedVariables, normalizedVariables, mode);
      assert names[i] == inputFieldTypes[i].name;
      FillStep(names, outcomes, i, coercedValues, field);
      if field.Failure? {
        return Failure(field.error);
      }
      coercedValues := field.value;
      i := i + 1;
    }
    r := Success(coercedValues);
  }

  /** One pass of the loop of `coerceAstValueForInputObject`. */
  method CoerceAstInputField(s: Schema, t: InputType, lit: Literal, inputFieldDefinition: InputValueDefinition,
                             coercedValues: LinkedMap<Value>, inputFieldsByName: LinkedMap<ObjectField>,
                             coercedVariables: LinkedMap<Value>, normalizedVariables: Option<LinkedMap<Value>>,
                             mode: ValueMode)
    returns (r: Result<LinkedMap<Value>, CoercionError>)
    requires lit.ObjectLiteral? && inputFieldsByName == FieldsByName(lit.fields)
    ensures r == Record(coercedValues, inputFieldDefinition.name,
                        AstFieldOutcome(s, t, lit, inputFieldDefinition, coercedVariables, normalizedVariables, mode))
  {
    var fieldType := inputFieldDefinition.inputType;
    var fieldName := inputFieldDefinition.name;
    var field := Get(inputFieldsByName, fieldName);
    var fieldValue: Option<Literal> := if field.Some? then Some(field.value.value) else None;
    var provided := ProvideFieldValue(fieldValue, fieldType, coercedVariables, normalizedVariables, mode);
    if provided.Failure? {
      return Failure(provided.error);
    }
    var p := provided.value;
    var decision := Decide(p.hasValue, inputFieldDefinition.defaultValue.Some?, fieldType.NonNull?,
                           IsNullValue(p.value), p.isVariable);
    match decision {
      case UseDefault =>
        r := Success(Put(coercedValues, fieldName, NewValue(inputFieldDefinition.defaultValue.value, fieldType, mode)));
      case RaiseNull =>
        r := Failure(NonNullLiteralFieldIsNull(fieldName));
      case StoreNull =>
        r := Success(Put(coercedValues, fieldName, p.value));
      case PassThrough =>
        r := Success(Put(coercedValues, fieldName, p.value));
      case CoerceIt =>
        var c := CoerceAstValue(s, fieldType, fieldValue.value, coercedVariables, normalizedVariables, mode, true);
        if c.Failure? {
          return Failure(c.error);
        }
        r := Success(Put(coercedValues, fieldName, NewValue(c.value, fieldType, mode)));
      case Omit =>
        r := Success(coercedValues);
    }
  }

  /** The start of a pass of the loop of `coerceAstValueForInputObject`: whether
      the field has a value and what it is, read from the variables when the
      literal is a variable reference. */
  method ProvideFieldValue(fieldValue: Option<Literal>, fieldType: InputType, coercedVariables: LinkedMap<Value>,
                           normalizedVariables: Option<LinkedMap<Value>>, mode: ValueMode)
    returns (r: Result<Provided, CoercionError>)
    ensures r == ProvidedValue(fieldValue, fieldType, coercedVariables, normalizedVariables, mode)
  {
    var hasValue := fieldValue.Some?;
    var value: Value;
    var isVariable := fieldValue.Some? && fieldValue.value.VariableReference?;
    if isVariable {
      var variables := GetVariables(coercedVariables, normalizedVariables, mode);
      if variables.None? {
        return Failure(MissingVariables);
      }
      hasValue := HasKey(variables.value, fieldValue.value.name);
      value := GetOrNull(variables.value, fieldValue.value.name);
    } else {
      value := NewValue(if fieldValue.Some? then AstValue(fieldValue.value) else Null, fieldType, mode);
    }
    r := Success(Provided(hasValue, value, isVariable));
  }
}
