/** Coercion of raw variable values (ValuesResolver.coerceValue,
    coerceValueForList, coerceValueForInputObjectType). The functions say what
    a coercion yields for a given name stack; the methods do the work as the
    Java does, pushing and popping a shared `NameStack`, and are proved to
    yield what the functions say. */
module ValueCoercion {
  import opened Wrappers
  import opened LinkedMaps
  import opened InputValues
  import opened DefinitionLoop

  /** The deque of input names that error paths are read from. */
  class NameStack {
    var names: seq<string>

    constructor ()
      ensures names == []
    {
      names := [];
    }

    method AddLast(name: string)
      modifies this
      ensures names == old(names) + [name]
    {
      names := names + [name];
    }

    method RemoveLast()
      requires names != []
      modifies this
      ensures names == old(names)[..|old(names)| - 1]
    {
      names := names[..|names| - 1];
    }
  }

  /** Errors that raw-value coercion raises below the name path `path`. */
  predicate RaisedUnder(e: CoercionError, path: seq<string>) {
    match e
    case NonNullValueIsNull(p) => path <= p
    case InvalidValue(p) => path <= p
    case NonNullFieldIsNull(p) => path < p
    case TooManyFields(_, _) => true
    case _ => false
  }

  lemma RaisedUnderPrefix(e: CoercionError, path: seq<string>, longer: seq<string>)
    requires path <= longer && RaisedUnder(e, longer)
    ensures RaisedUnder(e, path)
  {
  }

  /** A parser's answer; a parser that throws makes the value invalid at `path`. */
  function ParsedOrInvalid(p: Option<Value>, path: seq<string>): (r: Result<Value, CoercionError>)
    ensures r.Failure? <==> p.None?
    ensures r.Failure? ==> r.error == InvalidValue(path)
    ensures r.Success? ==> r.value == p.value
  {
    match p
    case None => Failure(InvalidValue(path))
    case Some(v) => Success(v)
  }

  /** The position of the first input-map key that names none of the fields. */
  function FirstUnknownIndex(entries: LinkedMap<Value>, names: seq<string>): (r: Option<nat>)
    ensures r.Some? ==> r.value < |entries| && entries[r.value].0 !in names
    ensures r.Some? ==> forall j :: 0 <= j < r.value ==> entries[j].0 in names
    ensures r.None? <==> forall j :: 0 <= j < |entries| ==> entries[j].0 in names
  {
    if entries == [] then None
    else if entries[0].0 !in names then Some(0)
    else match FirstUnknownIndex(entries[1..], names)
      case None => None
      case Some(j) => Some(j + 1)
  }

  /** What coercing raw value `v` named `inputName` at type `t` yields when the
      name stack holds `stack` on entry. */
  function CoercedValue(s: Schema, mode: ValueMode, inputName: string, t: InputType, v: Value,
                        stack: seq<string>): (r: Result<Value, CoercionError>)
    decreases v, t, 3, 0
    ensures r.Failure? ==> RaisedUnder(r.error, stack + [inputName])
    ensures t.NonNull? && r.Success? ==> r.value != Null
  {
    var path := stack + [inputName];
    if t.NonNull? then
      var inner := CoercedValue(s, mode, inputName, t.wrapped, v, path);
      if inner.Failure? then
        RaisedUnderPrefix(inner.error, path, path + [inputName]);
        inner
      else if inner.value.Null? then Failure(NonNullValueIsNull(path))
      else inner
    else if v.Null? then Success(Null)
    else if t.Scalar? then ParsedOrInvalid(s.parseValue(t.name, v), path)
    else if t.Enum? then ParsedOrInvalid(s.enumParseValue(t.name, v), path)
    else if t.ListType? then CoercedList(s, mode, inputName, t.wrapped, v, path)
    else if v.MapValue? then CoercedInputObject(s, mode, t, v, path)
    else Failure(InvalidValue(path))
  }

  /** What coercing `v` as a list of `elementType` yields; `stack` already
      holds the list's own name. */
  function CoercedList(s: Schema, mode: ValueMode, inputName: string, elementType: InputType, v: Value,
                       stack: seq<string>): (r: Result<Value, CoercionError>)
    decreases v, elementType, 4, 0
    ensures r.Failure? ==> RaisedUnder(r.error, stack)
    ensures r.Success? ==> r.value.ListValue?
  {
    if v.ListValue? then
      var items :- CoercedItems(s, mode, inputName, elementType, v, |v.items|, stack);
      Success(ListValue(items))
    else
      var item := CoercedValue(s, mode, inputName, elementType, v, stack);
      if item.Failure? then
        RaisedUnderPrefix(item.error, stack, stack + [inputName]);
        Failure(item.error)
      else Success(ListValue([item.value]))
  }

  /** The first `n` items of a list value, coerced in order. */
  function CoercedItems(s: Schema, mode: ValueMode, inputName: string, elementType: InputType, v: Value,
                        n: nat, stack: seq<string>): (r: Result<seq<Value>, CoercionError>)
    requires v.ListValue? && n <= |v.items|
    decreases v, elementType, 1, n
    ensures r.Failure? ==> RaisedUnder(r.error, stack)
    ensures r.Success? ==> |r.value| == n
  {
    if n == 0 then Success([])
    else
      var prefix :- CoercedItems(s, mode, inputName, elementType, v, n - 1, stack);
      var item := CoercedValue(s, mode, inputName, elementType, v.items[n - 1], stack);
      if item.Failure? then
        RaisedUnderPrefix(item.error, stack, stack + [inputName]);
        Failure(item.error)
      else Success(prefix + [item.value])
  }

  /** What coercing input map `v` at input object type `t` yields; `stack`
      already holds the object's own name. */
  function CoercedInputObject(s: Schema, mode: ValueMode, t: InputType, v: Value,
                              stack: seq<string>): (r: Result<Value, CoercionError>)
    requires t.InputObject? && v.MapValue?
    decreases v, t, 2, 0
    ensures r.Failure? ==> RaisedUnder(r.error, stack)
    ensures r.Success? ==> r.value.MapValue?
  {
    var defs := s.fieldDefinitions(t.name);
    match FirstUnknownIndex(v.entries, FieldNames(defs))
    case Some(i) => Failure(TooManyFields(t.name, v.entries[i].0))
    case None =>
      var outcomes := FieldOutcomes(s, mode, t, v, stack);
      FillErrorRaised(FieldNames(defs), outcomes, |defs|);
      var fields :- Fill(FieldNames(defs), outcomes, |defs|);
      Success(MapValue(fields))
  }

  /** The outcomes of the field definitions, in definition order. */
  function FieldOutcomes(s: Schema, mode: ValueMode, t: InputType, v: Value, stack: seq<string>): (r: seq<Outcome>)
    requires t.InputObject? && v.MapValue?
    decreases v, t, 1, 0
    ensures |r| == |s.fieldDefinitions(t.name)|
  {
    var defs := s.fieldDefinitions(t.name);
    seq(|defs|, i requires 0 <= i < |defs| => FieldOutcome(s, mode, t, v, defs[i], stack))
  }

  /** What field definition `def` contributes to the map: its default, the
      non-null error at the field's path, the supplied value stored as null,
      passed through or coerced, or nothing. A field gets an entry exactly
      when the input map has its key or it has a default. */
  function FieldOutcome(s: Schema, mode: ValueMode, t: InputType, v: Value, def: InputValueDefinition,
                        stack: seq<string>): (r: Outcome)
    requires v.MapValue?
    decreases v, t, 0, 0
    ensures r.Failure? ==> RaisedUnder(r.error, stack)
    ensures r.Success? ==> (r.value.Some? <==> HasKey(v.entries, def.name) || def.defaultValue.Some?)
  {
    var idx := IndexOfKey(v.entries, def.name);
    var value := if idx.Some? then v.entries[idx.value].1 else Null;
    var isVariable := value.AstValue? && value.literal.VariableReference?;
    match Decide(idx.Some?, def.defaultValue.Some?, def.inputType.NonNull?, value.Null?, isVariable)
    case UseDefault => Success(Some(NewValue(def.defaultValue.value, def.inputType, mode)))
    case RaiseNull => Failure(NonNullFieldIsNull(stack + [def.name]))
    case StoreNull => Success(Some(NewValue(Null, def.inputType, mode)))
    case PassThrough => Success(Some(NewValue(value, def.inputType, mode)))
    case CoerceIt =>
      assert idx.Some?;
      var c := CoercedValue(s, mode, def.name, def.inputType, value, stack);
      if c.Failure? then
        RaisedUnderPrefix(c.error, stack, stack + [def.name]);
        Failure(c.error)
      else Success(Some(NewValue(c.value, def.inputType, mode)))
    case Omit => Success(None)
  }

  /** Once a prefix of the items fails, every longer prefix fails the same way. */
  lemma {:induction false} ItemsFailurePersists(s: Schema, mode: ValueMode, inputName: string, elementType: InputType,
                                                v: Value, m: nat, n: nat, stack: seq<string>)
    requires v.ListValue? && m <= n <= |v.items|
    requires CoercedItems(s, mode, inputName, elementType, v, m, stack).Failure?
    ensures CoercedItems(s, mode, inputName, elementType, v, n, stack) == CoercedItems(s, mode, inputName, elementType, v, m, stack)
    decreases n - m
  {
    if m < n {
      ItemsFailurePersists(s, mode, inputName, elementType, v, m, n - 1, stack);
    }
  }

  /** With every key known, an input object is the map of its fields. */
  lemma InputObjectOfFields(s: Schema, mode: ValueMode, t: InputType, v: Value, stack: seq<string>)
    requires t.InputObject? && v.MapValue?
    requires forall j :: 0 <= j < |v.entries| ==> v.entries[j].0 in FieldNames(s.fieldDefinitions(t.name))
    ensures var defs := s.fieldDefinitions(t.name);
            var fields := Fill(FieldNames(defs), FieldOutcomes(s, mode, t, v, stack), |defs|);
      CoercedInputObject(s, mode, t, v, stack) == if fields.Failure? then Failure(fields.error) else Success(MapValue(fields.value))
  {
  }

  /** A null raw value is null under a nullable type, and a non-null error at
      the input's own path under a non-null wrapper of a nullable type. */
  lemma NullValueCoercion(s: Schema, mode: ValueMode, inputName: string, t: InputType, stack: seq<string>)
    ensures !t.NonNull? ==> CoercedValue(s, mode, inputName, t, Null, stack) == Success(Null)
    ensures t.NonNull? && !t.wrapped.NonNull? ==>
            CoercedValue(s, mode, inputName, t, Null, stack) == Failure(NonNullValueIsNull(stack + [inputName]))
  {
  }

  /** The items of a coerced list are its elements' coercions, in order. */
  lemma {:induction false} CoercedItemsElementwise(s: Schema, mode: ValueMode, inputName: string, elementType: InputType,
                                                   v: Value, n: nat, stack: seq<string>)
    requires v.ListValue? && n <= |v.items|
    requires CoercedItems(s, mode, inputName, elementType, v, n, stack).Success?
    ensures forall i :: 0 <= i < n ==>
              CoercedValue(s, mode, inputName, elementType, v.items[i], stack)
              == Success(CoercedItems(s, mode, inputName, elementType, v, n, stack).value[i])
  {
    if n > 0 {
      CoercedItemsElementwise(s, mode, inputName, elementType, v, n - 1, stack);
    }
  }

  /** `coerceValueForList`: an iterable value becomes a list of the same length,
      coerced element by element; any other value becomes a one-element list. */
  lemma CoercedListShape(s: Schema, mode: ValueMode, inputName: string, elementType: InputType, v: Value,
                         stack: seq<string>)
    requires CoercedList(s, mode, inputName, elementType, v, stack).Success?
    ensures var items := CoercedList(s, mode, inputName, elementType, v, stack).value.items;
            if v.ListValue? then
              |items| == |v.items|
              && forall i :: 0 <= i < |items| ==>
                   CoercedValue(s, mode, inputName, elementType, v.items[i], stack) == Success(items[i])
            else items == [CoercedValue(s, mode, inputName, elementType, v, stack).value]
  {
    if v.ListValue? {
      CoercedItemsElementwise(s, mode, inputName, elementType, v, |v.items|, stack);
    }
  }

  /** A value that is not a map is invalid for an input object type, at the
      input's own path. */
  lemma NonMapInputObjectRejected(s: Schema, mode: ValueMode, inputName: string, t: InputType, v: Value,
                                  stack: seq<string>)
    requires t.InputObject? && !v.Null? && !v.MapValue?
    ensures CoercedValue(s, mode, inputName, t, v, stack) == Failure(InvalidValue(stack + [inputName]))
  {
  }

  /** An input map with a key that names no field definition is rejected with
      the first such key, before any field is coerced. */
  lemma UnknownFieldRejected(s: Schema, mode: ValueMode, inputName: string, t: InputType, v: Value,
                             stack: seq<string>, i: nat)
    requires t.InputObject? && v.MapValue? && i < |v.entries|
    requires v.entries[i].0 !in FieldNames(s.fieldDefinitions(t.name))
    requires forall k :: 0 <= k < i ==> v.entries[k].0 in FieldNames(s.fieldDefinitions(t.name))
    ensures CoercedValue(s, mode, inputName, t, v, stack) == Failure(TooManyFields(t.name, v.entries[i].0))
  {
    FirstUnknownIndexAt(v.entries, FieldNames(s.fieldDefinitions(t.name)), i);
  }

  // ---------------------------------------------------------------------------
  // The entries of a coerced input object
  // ---------------------------------------------------------------------------

  /** The entry an input field gets. A supplied value always wins over the
      default: null is stored as null, and only for a nullable field; a
      variable reference is stored uncoerced; any other value is stored as
      its coercion. Without a key the default is stored uncoerced, and a
      nullable field without a default gets no entry. */
  predicate FieldEntry(s: Schema, mode: ValueMode, v: Value, def: InputValueDefinition, stack: seq<string>,
                       entry: Option<Value>)
    requires v.MapValue?
  {
    if HasKey(v.entries, def.name) then
      var value := GetOrNull(v.entries, def.name);
      if value.Null? then entry == Some(NewValue(Null, def.inputType, mode)) && !def.inputType.NonNull?
      else if value.AstValue? && value.literal.VariableReference? then entry == Some(NewValue(value, def.inputType, mode))
      else
        var c := CoercedValue(s, mode, def.name, def.inputType, value, stack);
        c.Success? && entry == Some(NewValue(c.value, def.inputType, mode))
    else if def.defaultValue.Some? then entry == Some(NewValue(def.defaultValue.value, def.inputType, mode))
    else entry.None? && !def.inputType.NonNull?
  }

  lemma FieldOutcomeEntry(s: Schema, mode: ValueMode, t: InputType, v: Value, def: InputValueDefinition,
                          stack: seq<string>)
    requires v.MapValue? && FieldOutcome(s, mode, t, v, def, stack).Success?
    ensures FieldEntry(s, mode, v, def, stack, FieldOutcome(s, mode, t, v, def, stack).value)
  {
  }

  /** Every field definition's entry in a coerced input object is the one its
      own value, default and type call for. */
  lemma InputObjectEntries(s: Schema, mode: ValueMode, t: InputType, v: Value, stack: seq<string>, i: nat)
    requires t.InputObject? && v.MapValue?
    requires i < |s.fieldDefinitions(t.name)| && DistinctNames(FieldNames(s.fieldDefinitions(t.name)))
    requires CoercedInputObject(s, mode, t, v, stack).Success?
    ensures FieldEntry(s, mode, v, s.fieldDefinitions(t.name)[i], stack,
                       Get(CoercedInputObject(s, mode, t, v, stack).value.entries, s.fieldDefinitions(t.name)[i].name))
  {
    var defs := s.fieldDefinitions(t.name);
    FillEntry(FieldNames(defs), FieldOutcomes(s, mode, t, v, stack), |defs|, i);
    FieldOutcomeEntry(s, mode, t, v, defs[i], stack);
  }

  /** The names of the field definitions that get an entry: those whose key
      the input map has and those with a default, in definition order. */
  function SuppliedFieldNames(defs: seq<InputValueDefinition>, entries: LinkedMap<Value>): seq<string> {
    if defs == [] then []
    else
      var last := defs[|defs| - 1];
      SuppliedFieldNames(defs[..|defs| - 1], entries)
      + if HasKey(entries, last.name) || last.defaultValue.Some? then [last.name] else []
  }

  lemma {:induction false} SuppliedFieldsRecorded(defs: seq<InputValueDefinition>, entries: LinkedMap<Value>,
                                                  outcomes: seq<Outcome>, n: nat)
    requires n <= |defs| == |outcomes|
    requires forall i :: 0 <= i < n ==>
               outcomes[i].Success? &&
               (outcomes[i].value.Some? <==> HasKey(entries, defs[i].name) || defs[i].defaultValue.Some?)
    ensures RecordedNames(FieldNames(defs), outcomes, n) == SuppliedFieldNames(defs[..n], entries)
  {
    if n > 0 {
      SuppliedFieldsRecorded(defs, entries, outcomes, n - 1);
      assert defs[..n][..n - 1] == defs[..n - 1];
      assert defs[..n][n - 1] == defs[n - 1] && FieldNames(defs)[n - 1] == defs[n - 1].name;
    }
  }

  /** A coerced input object's keys are exactly the fields that were supplied
      or have a default, in definition order: a nullable field without key or
      default is left out. */
  lemma InputObjectKeys(s: Schema, mode: ValueMode, t: InputType, v: Value, stack: seq<string>)
    requires t.InputObject? && v.MapValue? && DistinctNames(FieldNames(s.fieldDefinitions(t.name)))
    requires CoercedInputObject(s, mode, t, v, stack).Success?
    ensures Keys(CoercedInputObject(s, mode, t, v, stack).value.entries)
            == SuppliedFieldNames(s.fieldDefinitions(t.name), v.entries)
  {
    var defs := s.fieldDefinitions(t.name);
    var names, outcomes := FieldNames(defs), FieldOutcomes(s, mode, t, v, stack);
    FillKeys(names, outcomes, |defs|);
    FillSucceedsIff(names, outcomes, |defs|);
    forall i | 0 <= i < |defs|
      ensures outcomes[i].Success?
      ensures outcomes[i].value.Some? <==> HasKey(v.entries, defs[i].name) || defs[i].defaultValue.Some?
    {
      assert outcomes[i] == FieldOutcome(s, mode, t, v, defs[i], stack);
    }
    SuppliedFieldsRecorded(defs, v.entries, outcomes, |defs|);
    assert defs[..|defs|] == defs;
  }

  /** The name left on the stack by a failed coercion: the Java pushes a field
      name just before throwing for a null non-null field and never pops it,
      so every enclosing `finally` pops one name too few. */
  function Leftover(r: Result<Value, CoercionError>, name: string): seq<string> {
    if r.Failure? && r.error.NonNullFieldIsNull? then [name] else []
  }

  method CoerceValue(s: Schema, mode: ValueMode, inputName: string, t: InputType, v: Value,
                     nameStack: NameStack) returns (r: Result<Value, CoercionError>)
    modifies nameStack
    decreases v, t, 3, 0
    ensures r == CoercedValue(s, mode, inputName, t, v, old(nameStack.names))
    ensures nameStack.names == old(nameStack.names) + Leftover(r, inputName)
  {
    ghost var stack := nameStack.names;
    nameStack.AddLast(inputName);
    var path := nameStack.names;
    assert path == stack + [inputName];
    if t.NonNull? {
      var returnValue := CoerceValue(s, mode, inputName, t.wrapped, v, nameStack);
      assert returnValue == CoercedValue(s, mode, inputName, t.wrapped, v, path);
      if returnValue.Failure? {
        r := returnValue;
      } else if returnValue.value.Null? {
        assert nameStack.names == path;
        r := Failure(NonNullValueIsNull(nameStack.names));
      } else {
        r := returnValue;
      }
    } else if v.Null? {
      r := Success(Null);
    } else if t.Scalar? {
      r := ParsedOrInvalid(s.parseValue(t.name, v), path);
    } else if t.Enum? {
      r := ParsedOrInvalid(s.enumParseValue(t.name, v), path);
    } else if t.ListType? {
      r := CoerceValueForList(s, mode, inputName, t, v, nameStack);
    } else if v.MapValue? {
      r := CoerceValueForInputObjectType(s, mode, t, v, nameStack);
    } else {
      r := Failure(InvalidValue(path));
    }
    nameStack.RemoveLast();
  }

  method CoerceValueForList(s: Schema, mode: ValueMode, inputName: string, listType: InputType, v: Value,
                            nameStack: NameStack) returns (r: Result<Value, CoercionError>)
    requires listType.ListType?
    modifies nameStack
    decreases v, listType.wrapped, 4, 0
    ensures r == CoercedList(s, mode, inputName, listType.wrapped, v, old(nameStack.names))
    ensures nameStack.names == old(nameStack.names) + Leftover(r, inputName)
  {
    var elementType := listType.wrapped;
    if v.ListValue? {
      var result: seq<Value> := [];
      var i := 0;
      while i < |v.items|
        invariant 0 <= i <= |v.items|
        invariant nameStack.names == old(nameStack.names)
        invariant CoercedItems(s, mode, inputName, elementType, v, i, nameStack.names) == Success(result)
      {
        var item := CoerceValue(s, mode, inputName, elementType, v.items[i], nameStack);
        if item.Failure? {
          r := Failure(item.error);
          ItemsFailurePersists(s, mode, inputName, elementType, v, i + 1, |v.items|, old(nameStack.names));
          return;
        }
        result := result + [item.value];
        i := i + 1;
      }
      r := Success(ListValue(result));
    } else {
      var item := CoerceValue(s, mode, inputName, elementType, v, nameStack);
      if item.Failure? {
        r := Failure(item.error);
      } else {
        r := Success(ListValue([item.value]));
      }
    }
  }

  method CoerceValueForInputObjectType(s: Schema, mode: ValueMode, t: InputType, v: Value,
                                       nameStack: NameStack) returns (r: Result<Value, CoercionError>)
    requires t.InputObject? && v.MapValue?
    modifies nameStack
    decreases v, t, 2, 0
    ensures r == CoercedInputObject(s, mode, t, v, old(nameStack.names))
    ensures !(r.Failure? && r.error.NonNullFieldIsNull?) ==> nameStack.names == old(nameStack.names)
    ensures r.Failure? && r.error.NonNullFieldIsNull? ==>
      |nameStack.names| == |old(nameStack.names)| + 1 &&
      nameStack.names[..|old(nameStack.names)|] == old(nameStack.names) &&
      nameStack.names[|old(nameStack.names)|] in FieldNames(s.fieldDefinitions(t.name))
  {
    var fieldDefinitions := s.fieldDefinitions(t.name);
    var fieldNames := FieldNames(fieldDefinitions);
    var unknown := FindUnknownField(v.entries, fieldNames);
    if unknown.Some? {
      r := Failure(TooManyFields(t.name, v.entries[unknown.value].0));
      return;
    }
    InputObjectOfFields(s, mode, t, v, nameStack.names);
    var coercedValues := CoerceInputFields(s, mode, t, v, nameStack);
    if coercedValues.Failure? {
      r := Failure(coercedValues.error);
      return;
    }
    r := Success(MapValue(coercedValues.value));
  }

  /** The field loop of `coerceValueForInputObjectType`, filling a
      LinkedHashMap in definition order. */
  method CoerceInputFields(s: Schema, mode: ValueMode, t: InputType, v: Value, nameStack: NameStack)
    returns (r: Result<LinkedMap<Value>, CoercionError>)
    requires t.InputObject? && v.MapValue?
    modifies nameStack
    decreases v, t, 1, 1
    ensures var defs := s.fieldDefinitions(t.name);
            r == Fill(FieldNames(defs), FieldOutcomes(s, mode, t, v, old(nameStack.names)), |defs|)
    ensures !(r.Failure? && r.error.NonNullFieldIsNull?) ==> nameStack.names == old(nameStack.names)
    ensures r.Failure? && r.error.NonNullFieldIsNull? ==>
      |nameStack.names| == |old(nameStack.names)| + 1 &&
      nameStack.names[..|old(nameStack.names)|] == old(nameStack.names) &&
      nameStack.names[|old(nameStack.names)|] in FieldNames(s.fieldDefinitions(t.name))
  {
    var fieldDefinitions := s.fieldDefinitions(t.name);
    ghost var stack := nameStack.names;
    ghost var names, outcomes := FieldNames(fieldDefinitions), FieldOutcomes(s, mode, t, v, stack);
    var coercedValues: LinkedMap<Value> := [];
    var i := 0;
    while i < |fieldDefinitions|
      invariant 0 <= i <= |fieldDefinitions|
      invariant nameStack.names == stack
      invariant Fill(names, outcomes, i) == Success(coercedValues)
    {
      var def := fieldDefinitions[i];
      var field := CoerceInputField(s, mode, t, v, def, coercedValues, nameStack);
      assert names[i] == def.name;
      FillStep(names, outcomes, i, coercedValues, field);
      if field.Failure? {
        r := Failure(field.error);
        return;
      }
      coercedValues := field.value;
      i := i + 1;
    }
    r := Success(coercedValues);
  }

  /** One pass of the field loop of `coerceValueForInputObjectType`: the entry
      that field definition `def` adds to `coercedValues`. A null non-null field
      pushes its name and throws without popping it. */
  method CoerceInputField(s: Schema, mode: ValueMode, t: InputType, v: Value, def: InputValueDefinition,
                          coercedValues: LinkedMap<Value>, nameStack: NameStack)
    returns (r: Result<LinkedMap<Value>, CoercionError>)
    requires v.MapValue?
    modifies nameStack
    decreases v, t, 1, 0
    ensures r == Record(coercedValues, def.name, FieldOutcome(s, mode, t, v, def, old(nameStack.names)))
    ensures nameStack.names == old(nameStack.names) + if r.Failure? && r.error.NonNullFieldIsNull? then [def.name] else []
  {
    var idx := IndexOfKey(v.entries, def.name);
    var hasValue := idx.Some?;
    var value := if hasValue then v.entries[idx.value].1 else Null;
    var isVariable := value.AstValue? && value.literal.VariableReference?;
    var decision := Decide(hasValue, def.defaultValue.Some?, def.inputType.NonNull?, value.Null?, isVariable);
    match decision {
      case UseDefault =>
        r := Success(Put(coercedValues, def.name, NewValue(def.defaultValue.value, def.inputType, mode)));
      case RaiseNull =>
        nameStack.AddLast(def.name);
        r := Failure(NonNullFieldIsNull(nameStack.names));
      case StoreNull =>
        r := Success(Put(coercedValues, def.name, NewValue(Null, def.inputType, mode)));
      case PassThrough =>
        r := Success(Put(coercedValues, def.name, NewValue(value, def.inputType, mode)));
      case CoerceIt =>
        var c := CoerceValue(s, mode, def.name, def.inputType, value, nameStack);
        if c.Failure? {
          r := Failure(c.error);
        } else {
          r := Success(Put(coercedValues, def.name, NewValue(c.value, def.inputType, mode)));
        }
      case Omit =>
        r := Success(coercedValues);
    }
  }

  /** The key check of `coerceValueForInputObjectType`: the scan over the
      input map's keys stops at the first one no field definition names. */
  method FindUnknownField(entries: LinkedMap<Value>, fieldNames: seq<string>) returns (r: Option<nat>)
    ensures r == FirstUnknownIndex(entries, fieldNames)
  {
    var j := 0;
    while j < |entries|
      invariant 0 <= j <= |entries|
      invariant forall k :: 0 <= k < j ==> entries[k].0 in fieldNames
    {
      if entries[j].0 !in fieldNames {
        FirstUnknownIndexAt(entries, fieldNames, j);
        return Some(j);
      }
      j := j + 1;
    }
    return None;
  }

  /** The first unknown key is the one a left-to-right scan stops at. */
  lemma FirstUnknownIndexAt(entries: LinkedMap<Value>, names: seq<string>, j: nat)
    requires j < |entries| && entries[j].0 !in names
    requires forall k :: 0 <= k < j ==> entries[k].0 in names
    ensures FirstUnknownIndex(entries, names) == Some(j)
  {
    var r := FirstUnknownIndex(entries, names);
    assert r.Some?;
    assert !(r.value < j) && !(j < r.value);
  }
}
