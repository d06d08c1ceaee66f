/** The values, types and collaborators that input coercion works on
    (graphql/execution/ValuesResolver.java). Every Java `Object` the coercion
    code passes around is a `Value`: raw variable values supplied by the
    client, the coerced results, `NormalizedInputValue` wrappers and AST
    literals held as values. */
module InputValues {
  import opened Wrappers
  import opened LinkedMaps

  /** ValuesResolver.ValueMode: plain coerced values, or values wrapped with
      their type. */
  datatype ValueMode = Coerced | Normalized

  /** The input types: the two wrappers and the three named kinds. */
  datatype InputType =
    | NonNull(wrapped: InputType)
    | ListType(wrapped: InputType)
    | Scalar(name: string)
    | Enum(name: string)
    | InputObject(name: string)

  /** AST literals (graphql.language.Value). Int, float, string, boolean and
      enum literals are only ever read by the scalar and enum parsers, so they
      are one uninterpreted kind. */
  datatype Literal =
    | VariableReference(name: string)
    | NullLiteral
    | ArrayLiteral(values: seq<Literal>)
    | ObjectLiteral(fields: seq<ObjectField>)
    | ScalarLiteral(text: string)

  datatype ObjectField = ObjectField(name: string, value: Literal)

  /** A field argument as written in the query. */
  datatype Argument = Argument(name: string, value: Literal)

  /** Runtime values. `Null` is Java's null; `Atom` is any object only the
      parsers look into (String, Integer, Boolean, ...); `ListValue` is an
      Iterable; `MapValue` a Map; `NormalizedInput` a NormalizedInputValue, which
      keeps the type it was normalized at; `AstValue` an AST literal held as a
      value. */
  datatype Value =
    | Null
    | Atom(token: string)
    | ListValue(items: seq<Value>)
    | MapValue(entries: LinkedMap<Value>)
    | NormalizedInput(inputType: InputType, inner: Value)
    | AstValue(literal: Literal)

  /** A GraphQLArgument or GraphQLInputObjectField: `defaultValue` is None when
      no default was set (`hasSetDefaultValue()` is false), and Some(Null) for
      a default that was set to null. */
  datatype InputValueDefinition = InputValueDefinition(name: string, inputType: InputType, defaultValue: Option<Value>)

  /** A variable definition of an operation, with its type already resolved
      against the schema and its optional default literal. */
  datatype VariableDefinition = VariableDefinition(name: string, varType: InputType, defaultValue: Option<Literal>)

  /** The exceptions the coercion code throws, as values. Paths are the name
      stack at the point of failure. */
  datatype CoercionError =
    | NonNullVariableIsNull(variable: string)          // variable of non-null type absent or null
    | NonNullValueIsNull(path: seq<string>)            // a value under NonNull coerced to null
    | InvalidValue(path: seq<string>)                  // a parse failure, rewrapped with the name path
    | TooManyFields(typeName: string, field: string)   // input map key not among the fields
    | NonNullFieldIsNull(path: seq<string>)            // raw input field of non-null type absent or null
    | NonNullArgumentIsNull                            // the bare RuntimeException for a null argument
    | NonNullLiteralFieldIsNull(field: string)         // literal input field of non-null type absent or null
    | InvalidLiteral                                   // a literal the scalar or enum parser rejects
    | NotAnObjectLiteral                               // non-object literal given for an input object type
    | MissingVariables                                 // a variable read when the variable map is null

  /** The collaborators that are not modelled: field visibility and the scalar
      and enum parsers. A parser returns None where it throws. */
  datatype Schema = Schema(
    fieldDefinitions: string -> seq<InputValueDefinition>,
    parseValue: (string, Value) -> Option<Value>,
    parseLiteral: (string, Literal, LinkedMap<Value>) -> Option<Value>,
    enumParseValue: (string, Value) -> Option<Value>,
    enumParseLiteral: (string, Literal) -> Option<Value>)

  function FieldNames(defs: seq<InputValueDefinition>): seq<string> {
    seq(|defs|, i requires 0 <= i < |defs| => defs[i].name)
  }

  /** `value` as the mode stores it: as is, or wrapped with its type. */
  function NewValue(value: Value, t: InputType, mode: ValueMode): (r: Value)
    ensures mode == Coerced ==> r == value
    ensures mode == Normalized ==> r.NormalizedInput? && r.inner == value && r.inputType == t
  {
    match mode
    case Coerced => value
    case Normalized => NormalizedInput(t, value)
  }

  /** The variable map the mode reads from; None stands for a null map. */
  function GetVariables(coercedVariables: LinkedMap<Value>, normalizedVariables: Option<LinkedMap<Value>>,
                        mode: ValueMode): (r: Option<LinkedMap<Value>>)
    ensures mode == Coerced ==> r == Some(coercedVariables)
    ensures mode == Normalized ==> r == normalizedVariables
  {
    match mode
    case Coerced => Some(coercedVariables)
    case Normalized => normalizedVariables
  }

  /** Java null, or a NormalizedInputValue holding null. */
  predicate IsNullValue(v: Value) {
    v.Null? || (v.NormalizedInput? && v.inner.Null?)
  }

  /** A value is null in the mode's sense exactly when what was stored is. */
  lemma IsNullValueOfNewValue(v: Value, t: InputType, mode: ValueMode)
    ensures mode == Coerced ==> (IsNullValue(NewValue(v, t, mode)) <==> IsNullValue(v))
    ensures mode == Normalized ==> (IsNullValue(NewValue(v, t, mode)) <==> v.Null?)
  {
  }

  /** The value Java reads from a map: null when the key is absent. */
  function GetOrNull(m: LinkedMap<Value>, k: string): (r: Value)
    ensures !HasKey(m, k) ==> r == Null
    ensures HasKey(m, k) ==> Get(m, k) == Some(r)
  {
    match Get(m, k)
    case None => Null
    case Some(v) => v
  }

  /** What the coercion code does with one variable, argument or input field,
      given whether a value was supplied, whether a default is set, whether the
      type is non-null, whether the supplied value is null and whether it is a
      variable reference. The four call sites share this table. */
  datatype Decision = UseDefault | RaiseNull | StoreNull | PassThrough | CoerceIt | Omit

  function Decide(hasValue: bool, hasDefault: bool, nonNull: bool, isNull: bool, isVariable: bool): (r: Decision)
    ensures r == UseDefault <==> !hasValue && hasDefault
    ensures r == RaiseNull <==> nonNull && ((!hasValue && !hasDefault) || (hasValue && isNull))
    ensures r == StoreNull <==> hasValue && isNull && !nonNull
    ensures r == PassThrough <==> hasValue && !isNull && isVariable
    ensures r == CoerceIt <==> hasValue && !isNull && !isVariable
    ensures r == Omit <==> !hasValue && !hasDefault && !nonNull
  {
    if !hasValue && hasDefault then UseDefault
    else if nonNull && (!hasValue || isNull) then RaiseNull
    else if hasValue then
      (if isNull then StoreNull else if isVariable then PassThrough else CoerceIt)
    else Omit
  }
}
