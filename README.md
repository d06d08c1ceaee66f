# graphql-java: schema diffing driver and input value coercion

This project is a Dafny model of two pieces of graphql-java, with proofs of
what each promises.

**Schema diffing** (`graphql.schema.diffing.SchemaDiffing`). A schema diff
proceeds in four steps:

1. Pads the two schema graphs to the same size and checks that their sizes
   match.
2. When the fixed partial vertex mapping already covers every source vertex,
   returns the editorial cost of that mapping.
3. Otherwise hands the branch-and-bound search two vertex orders: the
   fixed-mapped vertices, then the unmapped ones. The unmapped sources are
   sorted by their number of possible mappings.
4. `calcEdgeOperations` turns a mapping into edge edit operations:
   - a source edge whose image has no target edge is deleted;
   - an image edge with a different label is changed;
   - a target edge whose pre-image has no source edge is inserted.

The class keeps the two graphs of the current diff in its fields
`sourceGraph` and `targetGraph`, as the Java does.

**Input coercion** (`graphql.execution.ValuesResolver`). There are three
entry points, each of which walks a list of definitions and fills a
`LinkedHashMap`:

- variables, from raw client values;
- field arguments, from AST literals;
- input-object fields, from raw maps or from object literals.

For each definition, one decision table (`InputValues.Decide`) chooses
between:

- using the default;
- raising a non-null error;
- storing null;
- passing a variable's value through;
- coercing the value;
- leaving the key out.

Coercion walks the input type:

- `NonNull` refuses a null result;
- lists wrap a single value into a one-element list;
- input objects reject unknown keys;
- scalars and enums are handed to their parsers.

A name stack (`nameStack`) records the path to the value being coerced.

The model is written in three layers:

- Every Java method that works with a loop or mutable state is a Dafny
  method with the same loop, except the in-place sort of
  `sortListBasedOnPossibleMapping` (see "## Left out"). Each such method is
  proved equal to a specification function.
- The properties are proved about those functions as lemmas.
- `LinkedHashMap` is `LinkedMaps.LinkedMap`, an association list. On `Put`,
  a key that is already present keeps its position.

Files:

| file | contents |
|---|---|
| `wrappers.dfy` | `Option` and `Result` |
| `seqs.dfy` | list helpers (`removeAll`, `indexOf`, distinctness) |
| `linked_maps.dfy` | the `LinkedHashMap` model |
| `schema_graph.dfy` | vertices, edges, schema graphs, `Mapping`, edit operations |
| `schema_diffing.dfy` | the sort, the vertex orders, the edge rule, `diffImpl` and the `SchemaDiffing` class |
| `input_values.dfy` | types, literals, values, errors, `newValue`, `getVariables`, `isNullValue`, the decision table |
| `value_coercion.dfy` | `coerceValue`, `coerceValueForList`, `coerceValueForInputObjectType` and the `NameStack` deque |
| `literal_coercion.dfy` | `coerceAstValue`, `coerceAstValueAstForList`, `coerceAstValueForInputObject`, `mapObjectValueFieldsByName` |
| `definition_loop.dfy` | the loop shared by the three entry points: a fold over the definitions' outcomes, and what keys and entries it yields |
| `values_resolver.dfy` | `coerceVariableValuesImpl`, `getArgumentValuesImpl`, `argumentMap` |

The sort's comparator is `Integer.compare(v2Count, v1Count)`, so it puts the
vertices with the most possible mappings first: it orders by
**non-increasing** possible-mapping count.

## Model

| member | source | states |
|---|---|---|
| SchemaDiffing.SortListBasedOnPossibleMapping | src/main/java/graphql/schema/diffing/SchemaDiffing.java:103-109 | The result is a permutation of the input (same multiset). It is ordered by non-increasing possible-mapping count. For every count, the vertices with that count appear in their input order, which is the stability of `Collections.sort`. |
| SchemaDiffing.InsertLastKeepsOrder | src/main/java/graphql/schema/diffing/SchemaDiffing.java:104-109 | Inserting one more vertex into a sorted prefix keeps all of the following: the permutation, the non-increasing order and the per-count order. |
| SchemaDiffing.InsertByCountStable | src/main/java/graphql/schema/diffing/SchemaDiffing.java:104-109 | An inserted vertex goes after every vertex of equal count already present; no other vertex of that count moves. |
| SchemaDiffing.InsertByCountSorted | src/main/java/graphql/schema/diffing/SchemaDiffing.java:104-109 | Inserting into a non-increasing list by count keeps it non-increasing. |
| SchemaDiffing.InsertByCountPermutes | src/main/java/graphql/schema/diffing/SchemaDiffing.java:104-109 | Inserting adds exactly the inserted vertex to the multiset. |
| SchemaDiffing.VertexOrdersArePermutations | src/main/java/graphql/schema/diffing/SchemaDiffing.java:63-85 | Given a valid fixed mapping between vertices of the two graphs, each vertex order is a duplicate-free permutation of its graph's vertices. Each starts with the fixed sources or targets. The unmapped sources after the fixed part are in non-increasing count order. |
| Seqs.PrefixThenRest | src/main/java/graphql/schema/diffing/SchemaDiffing.java:79-85 | A fixed list followed by `removeAll` of it from a duplicate-free list holding it is a duplicate-free permutation of that list. |
| Seqs.RemoveAllMultiplicity | src/main/java/graphql/schema/diffing/SchemaDiffing.java:63-64 | `removeAll` drops every occurrence of the removed vertices and keeps the count of every other vertex. |
| SchemaDiffing.PaddingIsChecked | src/main/java/graphql/schema/diffing/SchemaDiffing.java:47-51 | The size check is not assumed. The diff fails with the size error exactly when the padded graphs differ in size, and that is the only error it can fail with. |
| SchemaDiffing.FullyFixedShortcut | src/main/java/graphql/schema/diffing/SchemaDiffing.java:57-61 | When the fixed mapping covers every source vertex, the result holds exactly one mapping (the fixed one) and one edit list (its editorial cost), and the cost equals that list's length. |
| SchemaDiffing.SearchReceivesPermutations | src/main/java/graphql/schema/diffing/SchemaDiffing.java:62-88 | Otherwise the result is the search's answer for the fixed mapping and two vertex orders. The orders are duplicate-free permutations of the padded graphs' vertices, each beginning with the fixed part. |
| SchemaDiffing.FirstEditList | src/main/java/graphql/schema/diffing/SchemaDiffing.java:26 | The selection succeeds exactly when the diff succeeded with at least one edit list, and then yields the first list. |
| SchemaDiffing.FirstEditListOfShortcut | src/main/java/graphql/schema/diffing/SchemaDiffing.java:23-27 | On the fully-fixed path, `diffGraphQLSchema` yields the editorial cost of the fixed mapping. |
| SchemaDiffing.SchemaDiffing.DiffImpl | src/main/java/graphql/schema/diffing/SchemaDiffing.java:44-101 | Returns what `DiffOutcome` says for the graphs in the fields. Afterwards the fields hold the padded graphs. |
| SchemaDiffing.SchemaDiffing.DiffGraphQLSchema | src/main/java/graphql/schema/diffing/SchemaDiffing.java:23-27 | Stores the two graphs and returns the first edit list of their diff. |
| SchemaDiffing.SchemaDiffing.DiffGraphQLSchemaAllEdits | src/main/java/graphql/schema/diffing/SchemaDiffing.java:37-41 | Stores the two graphs and returns their whole diff result. |
| SchemaDiffing.SchemaDiffing.CalcEdgeOperations | src/main/java/graphql/schema/diffing/SchemaDiffing.java:117-142 | Returns the source-edge pass over the current source graph followed by the target-edge pass over the current target graph. |
| SchemaDiffing.SchemaDiffing.SourceEdgeOperations | src/main/java/graphql/schema/diffing/SchemaDiffing.java:121-130 | The first loop yields, in edge order, each source edge's delete-edge or change-edge, if it has one. |
| SchemaDiffing.SchemaDiffing.AppendTargetEdgeOperations | src/main/java/graphql/schema/diffing/SchemaDiffing.java:133-140 | The second loop appends, in edge order, each target edge's insert-edge, if it has one. |
| SchemaDiffing.SchemaDiffing.AppendTargetEdgeOperation | src/main/java/graphql/schema/diffing/SchemaDiffing.java:134-139 | One pass of the second loop appends that target edge's insert-edge, if it has one. |
| SchemaDiffing.SchemaDiffing.TargetEdgeOf | src/main/java/graphql/schema/diffing/SchemaDiffing.java:122-124 | The lookup yields the target edge between the images of the edge's endpoints. It yields none when either endpoint is unmapped or there is no such edge. |
| SchemaDiffing.SchemaDiffing.SourceEdgeOf | src/main/java/graphql/schema/diffing/SchemaDiffing.java:135-137 | The lookup yields the source edge between the pre-images of the edge's endpoints. It yields none when either endpoint is unmapped or there is no such edge. |
| SchemaDiffing.ImageEdge | src/main/java/graphql/schema/diffing/SchemaDiffing.java:122-124 | The lookup finds a target edge whose endpoints are the images of the source edge's endpoints. It finds none only when an endpoint is unmapped or no target edge joins the images. |
| SchemaDiffing.PreImageEdge | src/main/java/graphql/schema/diffing/SchemaDiffing.java:135-137 | The lookup finds a source edge whose endpoints are the pre-images of the target edge's endpoints. It finds none only when an endpoint is unmapped or no source edge joins the pre-images. |
| SchemaDiffing.SourceEdgeClassification | src/main/java/graphql/schema/diffing/SchemaDiffing.java:121-130 | In a graph with one edge per ordered pair, the result holds exactly one delete-edge for a source edge without an image edge. It holds exactly one change-edge for a source edge whose image edge has a different label. Otherwise it holds neither. |
| SchemaDiffing.TargetEdgeClassification | src/main/java/graphql/schema/diffing/SchemaDiffing.java:133-140 | The result holds an insert-edge for a target edge if and only if no source edge joins its pre-images, and then exactly one. |
| SchemaDiffing.SourcePassCounts | src/main/java/graphql/schema/diffing/SchemaDiffing.java:121-130 | For any edge list, the source pass holds each delete-edge or change-edge as often as the edge occurs under its condition, and holds no insert-edge. |
| SchemaDiffing.TargetPassCounts | src/main/java/graphql/schema/diffing/SchemaDiffing.java:133-140 | The target pass holds each insert-edge as often as the edge occurs without a pre-image edge, and holds no delete-edge or change-edge. |
| SchemaDiffing.EdgeOperationsShape | src/main/java/graphql/schema/diffing/SchemaDiffing.java:118-141 | The output is at most as long as both edge lists together. All delete-edges and change-edges come before all insert-edges. |
| SchemaDiffing.SourcePassShape | src/main/java/graphql/schema/diffing/SchemaDiffing.java:121-130 | The source pass yields at most one operation per edge. Each operation is a delete-edge or change-edge of one of the edges. |
| SchemaDiffing.TargetPassShape | src/main/java/graphql/schema/diffing/SchemaDiffing.java:133-140 | The target pass yields at most one operation per edge. Each operation is an insert-edge of one of the edges. |
| SchemaDiffing.SourcePassFollowsEdgeOrder | src/main/java/graphql/schema/diffing/SchemaDiffing.java:121-130 | The source pass over two concatenated edge lists is the pass over the first list followed by the pass over the second. |
| SchemaDiffing.TargetPassFollowsEdgeOrder | src/main/java/graphql/schema/diffing/SchemaDiffing.java:133-140 | The same holds for the target pass. |
| SchemaDiffing.NoEdgeOperationsIffPreserved | src/main/java/graphql/schema/diffing/SchemaDiffing.java:118-141 | The result is empty if and only if the mapping preserves every edge and label in both directions. |
| SchemaDiffing.SourcePassEmptyIff | src/main/java/graphql/schema/diffing/SchemaDiffing.java:121-130 | The source pass is empty if and only if every source edge has an image edge with the same label. |
| SchemaDiffing.TargetPassEmptyIff | src/main/java/graphql/schema/diffing/SchemaDiffing.java:133-140 | The target pass is empty if and only if every target edge has a pre-image edge. |
| SchemaGraphs.MappingInverse | src/main/java/graphql/schema/diffing/SchemaDiffing.java:135-136 | For a valid mapping, `getSource` is the inverse of `getTarget`. |
| SchemaGraphs.GetEdgeExact | src/main/java/graphql/schema/diffing/SchemaDiffing.java:124 | In a graph with one edge per ordered pair, `getEdge` on an edge's endpoints finds that edge exactly when it belongs to the graph. |
| InputValues.NewValue | src/main/java/graphql/execution/ValuesResolver.java:217-225 | In COERCED mode the value is returned unchanged. In NORMALIZED mode it is wrapped together with its type. |
| InputValues.GetVariables | src/main/java/graphql/execution/ValuesResolver.java:227-237 | In COERCED mode this is the coerced variable map. In NORMALIZED mode it is the normalized map, which may be null. |
| InputValues.IsNullValueOfNewValue | src/main/java/graphql/execution/ValuesResolver.java:507-515 | A value stored by `newValue` counts as null exactly when the stored value is null. |
| InputValues.GetOrNull | src/main/java/graphql/execution/ValuesResolver.java:138-139 | A map read yields null for an absent key and the entry's value otherwise. |
| InputValues.Decide | src/main/java/graphql/execution/ValuesResolver.java:141-158 | This is the shared decision table, stated as six if-and-only-if conditions. The default is used exactly when there is no value and a default is set. The non-null error is raised exactly when a non-null definition has no value and no default, or has a null value. Null is stored exactly when a nullable definition has a null value. Non-null values are passed through or coerced according to whether they came from a variable. The key is omitted exactly when a nullable definition has neither value nor default. |
| LinkedMaps.Put | src/main/java/graphql/execution/ValuesResolver.java:242-243 | After `put`, the key maps to the new value and every other key is unchanged. A present key keeps its position; a new key is appended. |
| LinkedMaps.ByNameLookup | src/main/java/graphql/execution/ValuesResolver.java:240-245 | A name maps to the last item that carries it. A name is absent exactly when no item carries it. |
| ValuesResolver.ArgumentMap | src/main/java/graphql/execution/ValuesResolver.java:240-245 | The loop builds the arguments by name, the last one winning for a repeated name. A name is absent exactly when no argument has it. |
| LiteralCoercion.MapObjectValueFieldsByName | src/main/java/graphql/execution/ValuesResolver.java:517-523 | The loop builds the object literal's fields by name, with the same last-wins and absence facts. |
| ValuesResolver.VariableOutcome | src/main/java/graphql/execution/ValuesResolver.java:134-158 | When a variable is coerced, it gets an entry exactly when a value or a default was supplied. |
| ValuesResolver.VariableValuesKeys | src/main/java/graphql/execution/ValuesResolver.java:133-158 | For distinct variable names, the result's keys are exactly the variables that were supplied or have a default, in declaration order. An absent nullable variable without a default is left out. |
| ValuesResolver.VariableValuesEntries | src/main/java/graphql/execution/ValuesResolver.java:141-158 | Each variable's entry follows its own inputs. A supplied value always wins over the default, and a supplied null is stored as null only for a nullable type. A non-null supplied value is stored as its coercion. The default's coercion is used only for an absent key. |
| ValuesResolver.NonNullVariableOutcome | src/main/java/graphql/execution/ValuesResolver.java:143-144 | A non-null variable that is absent without a default, or present with null (even with a default), raises the non-null error. |
| ValuesResolver.NonNullVariableFails | src/main/java/graphql/execution/ValuesResolver.java:133-147 | Such a variable makes the whole coercion fail. When every earlier variable was coerced, the failure is that variable's own error. |
| DefinitionLoop.FillSucceedsIff | src/main/java/graphql/execution/ValuesResolver.java:133-158 | The definition loop succeeds if and only if every definition's outcome succeeds. |
| DefinitionLoop.FillFirstError | src/main/java/graphql/execution/ValuesResolver.java:133-158 | The first failing definition's exception ends the loop. |
| DefinitionLoop.FillErrorRaised | src/main/java/graphql/execution/ValuesResolver.java:133-158 | The exception that ends the loop is the one some definition raised. |
| DefinitionLoop.FillStep | src/main/java/graphql/execution/ValuesResolver.java:133-158 | After a run of successful passes, a pass that returns a map gives the next prefix of the loop, and a pass that raises gives the result of the whole loop. |
| DefinitionLoop.NextNameNotRecorded | src/main/java/graphql/execution/ValuesResolver.java:133-158 | With distinct definition names, the name of the next definition has not been recorded by the earlier passes, so its `put` adds a new key. |
| DefinitionLoop.FillKeys | src/main/java/graphql/execution/ValuesResolver.java:133-158 | For distinct names, the keys are the names of the definitions that contributed an entry, in declaration order. |
| DefinitionLoop.FillEntry | src/main/java/graphql/execution/ValuesResolver.java:133-158 | For distinct names, each definition's key holds exactly what its outcome contributed. |
| ValuesResolver.VariableStep | src/main/java/graphql/execution/ValuesResolver.java:133-158 | One pass of the variable loop after `n` successful ones: a map it returns is the result for the first `n + 1` variables, and an exception it raises is what `coerceVariableValuesImpl` throws. |
| ValuesResolver.CoerceVariableValuesImpl | src/main/java/graphql/execution/ValuesResolver.java:128-162 | The loop returns `VariableValues`, about which the lemmas above are proved. |
| ValuesResolver.CoerceVariable | src/main/java/graphql/execution/ValuesResolver.java:134-158 | One pass of the loop records that variable's outcome into the map. |
| ValuesResolver.ArgumentOutcome | src/main/java/graphql/execution/ValuesResolver.java:176-209 | An argument fails only with the non-null argument error or a literal coercion error. |
| ValuesResolver.NoArgumentDefinitions | src/main/java/graphql/execution/ValuesResolver.java:171-173 | With no argument definitions, the result is an empty map, whatever the arguments. |
| ValuesResolver.ArgumentValuesKeys | src/main/java/graphql/execution/ValuesResolver.java:176-209 | Only defined argument names become keys. |
| ValuesResolver.ArgumentValuesExactKeys | src/main/java/graphql/execution/ValuesResolver.java:176-209 | For distinct definition names, the keys are exactly the arguments that were given a literal (a variable reference only when the variable is present) or have a default, in definition order. |
| ValuesResolver.ArgumentValuesEntries | src/main/java/graphql/execution/ValuesResolver.java:176-209 | For distinct definitions, each argument's entry is determined as follows. An unset argument gets its default uncoerced, or no entry. A variable reference passes the variable's value through; that value is null only for a nullable argument, and an absent variable counts as unset. A literal is stored as its coercion. These are the same rules as for the fields of an object literal. |
| ValuesResolver.NullLiteralArgumentStoredAsNull | src/main/java/graphql/execution/ValuesResolver.java:189-199 | A `null` literal argument is stored as null even for a non-null type, because the wrapped literal is not Java null. |
| ValuesResolver.MissingNonNullArgumentFails | src/main/java/graphql/execution/ValuesResolver.java:197-198 | A missing non-null argument without a default makes the call fail. |
| ValuesResolver.GetArgumentValuesImpl | src/main/java/graphql/execution/ValuesResolver.java:165-215 | The loop returns `ArgumentValues`, about which the lemmas above are proved. |
| ValuesResolver.CoerceArgument | src/main/java/graphql/execution/ValuesResolver.java:176-209 | One pass of the loop records that argument's outcome into the map. |
| ValueCoercion.CoercedValue | src/main/java/graphql/execution/ValuesResolver.java:250-305 | Every error is raised at or below the input's own path. A success under `NonNull` is never null. |
| ValueCoercion.CoerceValue | src/main/java/graphql/execution/ValuesResolver.java:250-305 | Returns `CoercedValue`. The name stack is left exactly as found, except after a non-null field error anywhere below. In that case the input's own name (`inputName`) stays pushed: the field name pushed before the throw is popped by this call's `finally` in its place. For example, coercing variable `v` whose non-null field `f` is null leaves `["v"]`. |
| ValueCoercion.NullValueCoercion | src/main/java/graphql/execution/ValuesResolver.java:259-270 | A null value is null under a nullable type. Under `NonNull` it is the non-null error at the input's path. |
| ValueCoercion.CoercedList | src/main/java/graphql/execution/ValuesResolver.java:370-386 | Success is a list, and every error is raised below the list's path. |
| ValueCoercion.CoercedListShape | src/main/java/graphql/execution/ValuesResolver.java:377-385 | An iterable becomes a list of the same length, element by element. Any other value becomes a one-element list of its coercion. |
| ValueCoercion.CoercedItemsElementwise | src/main/java/graphql/execution/ValuesResolver.java:379-381 | The i-th item of a coerced list is the coercion of the i-th element. |
| ValueCoercion.CoerceValueForList | src/main/java/graphql/execution/ValuesResolver.java:370-386 | Returns `CoercedList`, with the same name-stack promise as `CoerceValue`. |
| ValueCoercion.NonMapInputObjectRejected | src/main/java/graphql/execution/ValuesResolver.java:278-287 | A non-null value that is not a map is invalid for an input object type. |
| ValueCoercion.UnknownFieldRejected | src/main/java/graphql/execution/ValuesResolver.java:315-319 | The first input-map key that names no field definition is rejected with the too-many-fields error, before any field is coerced. |
| ValueCoercion.FirstUnknownIndex | src/main/java/graphql/execution/ValuesResolver.java:315-319 | The result is the position of the first key that names no field, or none exactly when every key names a field. |
| ValueCoercion.FindUnknownField | src/main/java/graphql/execution/ValuesResolver.java:315-319 | The scan over the keys stops at the first unknown key. |
| ValueCoercion.CoercedInputObject | src/main/java/graphql/execution/ValuesResolver.java:308-359 | Success is a map, and every error is raised below the object's path. With every key known, the map is the definition loop over the fields' outcomes. |
| ValueCoercion.FieldOutcome | src/main/java/graphql/execution/ValuesResolver.java:325-357 | A field's pass fails only below the object's path. When it succeeds, it gives an entry exactly when the input map has the field's key or the field has a default. |
| ValueCoercion.InputObjectEntries | src/main/java/graphql/execution/ValuesResolver.java:323-358 | For distinct field names, each field's entry in a coerced input object is determined by its own key, default and type. A present key with null is stored as null, and only for a nullable field. A variable reference is stored uncoerced. Any other value is stored as its coercion. Without a key, the field gets its default, or no entry when it is nullable. |
| ValueCoercion.InputObjectKeys | src/main/java/graphql/execution/ValuesResolver.java:323-358 | For distinct field names, the keys of a coerced input object are exactly the fields whose key the input map has or that have a default, in definition order. A nullable field with neither is left out. |
| ValueCoercion.CoerceValueForInputObjectType | src/main/java/graphql/execution/ValuesResolver.java:308-359 | Returns `CoercedInputObject`, whose entries and keys the two lemmas above describe. The name stack is unchanged, except after a non-null field error, which leaves one of the type's field names pushed. |
| ValueCoercion.CoerceInputFields | src/main/java/graphql/execution/ValuesResolver.java:321-358 | The loop over the field definitions returns the definition loop over the fields' outcomes, stopping at the first failure. The name stack follows the same promise as for `CoerceValueForInputObjectType`. |
| ValueCoercion.CoerceInputField | src/main/java/graphql/execution/ValuesResolver.java:323-358 | One field pass records that field's outcome into the map. On a null non-null field it pushes the field name and fails. |
| ValueCoercion.ParsedOrInvalid | src/main/java/graphql/execution/ValuesResolver.java:362-368 | A parser that throws makes the value invalid at the current path; otherwise its answer is the result. |
| LiteralCoercion.CoerceAstValue | src/main/java/graphql/execution/ValuesResolver.java:388-426 | A `null` literal coerces to null. Errors are literal errors only, and the missing-variables error only arises when the mode's variable map is null. |
| LiteralCoercion.VariableValue | src/main/java/graphql/execution/ValuesResolver.java:396-406 | A variable reference reads the mode's map. It gives null when the variable is absent, and fails exactly when the map is null. |
| LiteralCoercion.VariableReferenceOutsideList | src/main/java/graphql/execution/ValuesResolver.java:396-405 | Outside a list, a variable reference gives the variable's value as the map holds it. A normalized value stays wrapped. An absent variable gives null. |
| LiteralCoercion.VariableReferenceInList | src/main/java/graphql/execution/ValuesResolver.java:396-405 | A variable reference that is an element of an array literal gives the variable's bare value. A normalized value is unwrapped, because the whole list is wrapped once. Any other value, or null for an absent variable, is taken as it is. |
| LiteralCoercion.NormalizedVariableInList | src/main/java/graphql/execution/ValuesResolver.java:399-402 | In NORMALIZED mode, an array element that names a variable holding a normalized `x` becomes `x` in the coerced list. |
| LiteralCoercion.ParsedLiteral | src/main/java/graphql/execution/ValuesResolver.java:428-431 | A literal parser that throws rejects the literal; otherwise its answer is the result. |
| LiteralCoercion.ProvidedValue | src/main/java/graphql/execution/ValuesResolver.java:475-484 | A given value counts as a variable exactly when the literal is a variable reference. A value is present exactly when a literal was given that is not a variable reference, or a reference to a variable the map holds. Failure is only the missing-variables error. |
| LiteralCoercion.ProvideFieldValue | src/main/java/graphql/execution/ValuesResolver.java:475-484 | The method computes `ProvidedValue`. |
| LiteralCoercion.AstListValue | src/main/java/graphql/execution/ValuesResolver.java:433-454 | Success is a list as long as the array literal, or of length one for any other literal. |
| LiteralCoercion.AstListShape | src/main/java/graphql/execution/ValuesResolver.java:439-453 | An array literal becomes the list of its elements' coercions in order. Any other literal becomes a one-element list of its coercion. |
| LiteralCoercion.AstItemsElementwise | src/main/java/graphql/execution/ValuesResolver.java:442-444 | The i-th item is the coercion of the i-th element. |
| LiteralCoercion.CoerceAstValueAstForList | src/main/java/graphql/execution/ValuesResolver.java:433-454 | The loop returns `AstListValue`. |
| LiteralCoercion.AstInputObjectValue | src/main/java/graphql/execution/ValuesResolver.java:456-505 | Success is a map, and failures are literal errors. The map is the definition loop over the fields' outcomes. |
| LiteralCoercion.AstFieldOutcome | src/main/java/graphql/execution/ValuesResolver.java:470-502 | A field's pass fails only with a literal error. When it succeeds, it gives an entry exactly when the literal supplies a value for the field or the field has a default. A value is supplied by a literal, or by a reference to a variable the map holds. |
| LiteralCoercion.AstInputObjectEntries | src/main/java/graphql/execution/ValuesResolver.java:469-503 | For distinct field names, each field's entry in a coerced object literal is determined by its literal, variable, default and type. A variable reference passes the variable's value through uncoerced, null only for a nullable field; an absent variable counts as unset. Any other literal is stored as its coercion. An unset field gets its default, or no entry when it is nullable. |
| LiteralCoercion.AstInputObjectKeys | src/main/java/graphql/execution/ValuesResolver.java:469-503 | For distinct field names, the keys of a coerced object literal are exactly the fields the literal supplies a value for or that have a default, in definition order. |
| LiteralCoercion.CoerceAstValueForInputObject | src/main/java/graphql/execution/ValuesResolver.java:456-505 | Returns `AstInputObjectValue`, whose entries and keys the two lemmas above describe. This is the coerced fields as a map value, or the first field's error. |
| LiteralCoercion.CoerceAstInputFields | src/main/java/graphql/execution/ValuesResolver.java:462-503 | The loop over the field definitions returns the definition loop over the fields' outcomes: every field pass in definition order, stopping at the first failure. |
| LiteralCoercion.CoerceAstInputField | src/main/java/graphql/execution/ValuesResolver.java:469-503 | One field pass records that field's outcome into the map. |

## Left out

- The collaborators of the diff are function-valued inputs: `FillupIsolatedVertices`, the search in `DiffImpl` and `EditorialCostForMapping`. Their code is not part of this model.
- `SchemaGraphFactory` is left out. The two schema graphs are inputs of the model, not built from schemas.
- `ensureGraphAreSameSize` pads the graph objects in place. The model returns the padded graphs from `fillup`, and `DiffImpl` stores them in the fields.
- Logging (`System.out.println`) and the commented-out debug code are left out. They have no effect on results.
- `diffAndAnalyze` is left out. It only hands the first edit list to `EditOperationAnalyzer`, which is not part of this model. Its passing of `graphQLSchema1` twice is not modelled.
- SchemaDiffing.SortListBasedOnPossibleMapping: `Collections.sort` sorts the list in place. The model returns the sorted list as a value built by a stable insertion sort. The proved properties (permutation, order, stability) are what any stable sort with this comparator yields. The model reads the count of a vertex without a possible-mappings entry as 0, the size of an empty collection. What `possibleMappings` returns for such a vertex is decided in `FillupIsolatedVertices`, which is not part of this model.
- Edit operation descriptions (the message strings) are left out.
- The legacy `valueToLiteralLegacy` family is left out. It relies on floating point, `BigDecimal`, regular expressions and reflection.
- `externalInputValueToLiteralImpl` is a stub that returns null; it is left out.
- The public wrappers `coerceVariableValues`, `getArgumentValues` and their normalized variants are left out. They only resolve the code registry and call the modelled `Impl` methods.
- Scalar and enum parsing and field visibility are uninterpreted functions of the `Schema` input: the four parsers and `fieldDefinitions`. A parser that throws is `None`.
- `TypeFromAST` is left out. A variable definition arrives with its type already resolved (`VariableDefinition.varType`).
- `simplePrint` is left out. A normalized value keeps its `InputType` itself (`NormalizedInput`), which stands in for the printed type name that `NormalizedInputValue` stores.
- Exception messages, source locations and extensions are left out. Each exception is an error variant, with the name path where the Java records one.
- ValueCoercion.CoerceValue: a parse exception without a location is rewrapped with the current path, and one with a location is rethrown unchanged. Whether a rewrapped exception carries a location depends on the variable definition, which is not modelled. The model keeps the innermost path, as if the first rewrap gave the exception a location.
- ValuesResolver.CoerceVariableValuesImpl: the per-definition outcome is a pure value, and the loop is proved to be a fold over those outcomes. The Java's `nameStack` for each variable is fresh and dropped afterwards, so it does not outlive the pass.
- `NullPointerException`s on a null variable map (NORMALIZED mode without normalized variables) are modelled as the `MissingVariables` error.
- The `assertTrue` on the variable type's kind and `assertShouldNeverHappen` for an unknown value mode are left out. The model's types rule them out.
