# JSOMap query and parse, in Dafny

JSOMap turns one JavaScript object into another. The caller gives an input
value and a *map*. The map is a value of the same shape whose leaves are
query strings. `JSOMap.query(input, q)` resolves one query string:

- A brace-wrapped string such as `{Name()}` calls a registered macro.
- A brace-wrapped pipeline such as `{[a]|Name()}` runs each stage on the
  previous stage's result.
- A string with brackets such as `[a][0][b]` walks a path through the input.
  It indexes arrays with numeric segments. A name segment on an array maps
  over the elements.
- Anything else is returned as it is.

`JSOMap.parse(input, map)` walks the map. Object entries become object
entries, and nested objects and arrays recurse. A map that is an array fans
its first item out into an array of objects: each array-valued query fills one
column of the rows, and scalar values are spread over the existing rows.

The model has four modules:

- `JsValue` (jsvalue.dfy) holds JavaScript values, the `Result` of a
  computation that may throw, and the property read `v[part]`.
- `PathQuery` (path.dfy) is the path branch of `query`. It holds the split
  on `/(?:\[|]\[|])/`, the filter of empty parts, numeric coercion, and the
  walk. The method `WalkPath` is proved equal to the function `Walk`.
- `MacroQuery` (query.dfy) is `query` itself: macro and pipeline dispatch
  and the literal fallback. The methods `Query`, `Pipeline` and `RunStage`
  are proved equal to the functions `Eval` and `RunPipe`.
- `TreeMap` (parse.dfy) is `parse`. The methods `Parse`, `ParseObject`,
  `ParseEntry`, `ParseFanOut` and `MergeColumn` mirror the source's
  `forEach` and `for` loops. They are proved equal to the functions
  `ParseTree`, `FillRecord`, `EntryResult`, `FillRows` and `Merged`.

The macro-syntax regular expressions, the pipe splitter and the macro
registry belong to `JSOMacro`, which is not part of this model. The regular
expressions `RX`, `MacroDefRX` and `MacroNameRX` are function parameters of
an `Env`. The registry is a map from names to macros. `pipeMacro` is taken
as a split on every `|`. It yields an array exactly when there are at least
two stages, and the body itself otherwise.

A name as the first segment is read from the input itself (lines 69-70 of
`src/JSOMap.ts`), so `query(array, "[k]")` does not broadcast. It answers
`array[k]`, which is `undefined` for a name other than `length` (inherited
properties aside); see `MacroQuery.ArrayInputKeyQuery`. A part is coerced
to a number before it is read (lines 62-67), so on an object `[01]` and
`[1a]` both read the property `"1"`, and a key spelled `01` or `1a` is never
found; see `MacroQuery.ObjectDigitKeyQuery` and `MacroQuery.DigitKeyMissed`.

## Model

| member | source | states |
|---|---|---|
| JsValue.OrSentinel | src/JSOMap.ts:75 | `undefined` becomes `''`, and any other value is kept |
| JsValue.NatToString | src/JSOMap.ts:64-70 | the property name of a number is a digit string with no leading zero, and it reads back as that number |
| JsValue.Get | src/JSOMap.ts:69-83 | `v[part]` throws exactly when `v` is `undefined` or `null`, and then the error is a TypeError |
| JsValue.PropertyName | src/JSOMap.ts:70-80 | no ensures of its own: the name a segment is read under, a number by its numeral; `PathQuery.CoerceNumeral` and `PathQuery.ObjectStep` state what reading by it gives |
| PathQuery.DelimiterAt | src/JSOMap.ts:30 | the match at the front of the text has a positive length exactly when the text starts with a bracket, and it is two characters long exactly when the text starts with `][` |
| PathQuery.HasBracket | src/JSOMap.ts:30 | no ensures of its own: `queryRx.test`; `Strip`, `Run`, `SplitPath` and `PathParts` promise bracket-free results in its terms, and `MacroQuery.LiteralIsVerbatim` uses it for the fallback |
| PathQuery.Strip | src/JSOMap.ts:57 | a reference definition: the text with every bracket removed, which has no bracket |
| PathQuery.SplitPath | src/JSOMap.ts:57 | the split returns at least one piece, no piece contains a bracket, and a leading bracket gives an empty first piece; `SplitPathJoins` and `SplitFilterIsWords` state its content |
| PathQuery.SplitPathJoins | src/JSOMap.ts:57 | the pieces of the split, written one after another, are the query without its brackets |
| PathQuery.StripDelimiter | src/JSOMap.ts:30-57 | a delimiter match, one or two brackets, contributes nothing to the query without its brackets |
| PathQuery.NonEmpty | src/JSOMap.ts:60 | the kept parts are non-empty and drawn from the pieces, and there are no more of them than pieces; `NonEmptyMembers` and `NonEmptyAppend` state which are kept and in what order |
| PathQuery.NonEmptyMembers | src/JSOMap.ts:60 | a piece is kept by the filter exactly when it is non-empty |
| PathQuery.Run | src/JSOMap.ts:57-60 | a reference definition: the longest bracket-free prefix of the text, followed by a bracket or by the end |
| PathQuery.Words | src/JSOMap.ts:57-60 | a reference tokenizer independent of the split: the maximal bracket-free runs of the text, in order, each non-empty |
| PathQuery.PathParts | src/JSOMap.ts:57-60 | every path part is non-empty and has no bracket, and the parts are exactly the maximal bracket-free runs of the query in order (`Words`), whichever of the three delimiters matched |
| PathQuery.SplitFilterIsWords | src/JSOMap.ts:57-60 | splitting on the delimiters and dropping the empty pieces yields exactly the maximal bracket-free runs |
| PathQuery.WordThenRest | src/JSOMap.ts:57-60 | a non-empty bracket-free word before a bracket or the end is one part of its own, followed by the parts of the rest |
| PathQuery.FilterAfterWord | src/JSOMap.ts:60 | a word put in place of an empty first piece is kept, followed by what the filter keeps of the other pieces |
| PathQuery.LeadingDigits | src/JSOMap.ts:64 | the digit prefix is an all-digit prefix of the part, and the character after it is not a digit |
| PathQuery.HasDigit | src/JSOMap.ts:62-63 | no ensures of its own: `numericRx.test`, unanchored; `Coerce` states that a part becomes a number exactly when it starts with a digit |
| PathQuery.ParseNumber | src/JSOMap.ts:64-66 | no ensures of its own: `parseFloat` on natural numbers; `Coerce` states its outcome, the value of the leading digits, and NaN when the part does not start with a digit |
| PathQuery.Coerce | src/JSOMap.ts:62-67 | a part becomes a number exactly when it starts with a digit, and then its value is that of its leading digits; any other part stays the same name |
| PathQuery.Broadcast | src/JSOMap.ts:77 | `map(res => res[k])` throws exactly when some element is `undefined` or `null`; otherwise it keeps the length and each slot is that element's property |
| PathQuery.Step | src/JSOMap.ts:71-83 | no ensures of its own: one later segment; `StepNeverUndefined`, `ArrayIndexStep`, `ArrayKeyStep`, `ObjectStep` and `StepOnNothingThrows` state its cases, and `Advance` implements it |
| PathQuery.WalkFrom | src/JSOMap.ts:71-84 | no ensures of its own: the later segments in order; `WalkFromUndefined` states its properties |
| PathQuery.Walk | src/JSOMap.ts:59-84 | no ensures of its own: the whole walk; `FirstSegmentReadsInput` and `UndefinedOnlyFromFirst` state its properties, and `WalkPath` implements it |
| PathQuery.WalkPath | src/JSOMap.ts:56-84 | the `forEach` over the parts returns what the walk of the coerced segments gives |
| PathQuery.Advance | src/JSOMap.ts:71-83 | one later segment does what a single walk step specifies |
| PathQuery.TokenizeRendered | src/JSOMap.ts:57-60 | splitting `[k0][k1]...` and dropping the empty parts gives back exactly the keys |
| PathQuery.BracketedKey | src/JSOMap.ts:57-60 | a leading `[k]` contributes exactly the part `k` |
| PathQuery.NonEmptyAppend | src/JSOMap.ts:60 | the empty-part filter distributes over concatenation |
| PathQuery.BracketPrefix | src/JSOMap.ts:57-60 | a leading bracket adds no path part |
| PathQuery.WordPrefix | src/JSOMap.ts:57 | bracket-free text in front joins the first piece of the split |
| PathQuery.OnlyBracketsNoParts | src/JSOMap.ts:57-60 | a query made only of brackets has no parts |
| PathQuery.StepNeverUndefined | src/JSOMap.ts:71-83 | a segment applied after the first never yields `undefined` |
| PathQuery.UndefinedOnlyFromFirst | src/JSOMap.ts:69-83 | a walk ends in `undefined` only when it has one segment and the input answers it with `undefined` |
| PathQuery.WalkFromUndefined | src/JSOMap.ts:71-83 | the later steps end in `undefined` only when there are none and the value was already `undefined` |
| PathQuery.FirstSegmentReadsInput | src/JSOMap.ts:69-70 | the first segment reads the input itself, with no sentinel substitution |
| PathQuery.ArrayIndexStep | src/JSOMap.ts:72-75 | a number on an array selects that element, and a missing or `undefined` element gives `''` |
| PathQuery.ArrayKeyStep | src/JSOMap.ts:76-77 | a name on an array of defined elements gives an array of the same length whose slot i is element i's property |
| PathQuery.ObjectStep | src/JSOMap.ts:79-82 | on an object a later segment reads the property by name, and a miss gives `''` |
| PathQuery.StepOnNothingThrows | src/JSOMap.ts:80 | a later segment on `undefined` or `null` throws a TypeError |
| PathQuery.CoerceNumeral | src/JSOMap.ts:62-70 | a number's numeral coerces back to that number, and on an object it reads the property the numeral spells |
| PathQuery.AllDigitsLeading | src/JSOMap.ts:64 | the digit prefix of an all-digit part is the whole part |
| MacroQuery.Clamp | src/JSOMap.ts:35 | a `substring` bound below 0 becomes 0, one above the length becomes the length, and one in range is kept |
| MacroQuery.Substring | src/JSOMap.ts:35 | `substring` returns only characters of the string; ordered in-range bounds give that slice, reversed ones are swapped, a negative start reads from 0, an end past the length reads to the end, and bounds covering the whole string in either order give the whole string |
| MacroQuery.SubstringSwap | src/JSOMap.ts:35 | `substring` gives the same result with its two bounds exchanged |
| MacroQuery.MacroBody | src/JSOMap.ts:35 | the macro body is the query without its first and last character; a one-character query gives itself and an empty one nothing, as `substring(1, length - 1)` swaps and clamps its bounds |
| MacroQuery.SplitOn | src/JSOMap.ts:36 | the split returns at least one piece, no piece holds the separator, and there are two or more pieces exactly when the separator occurs |
| MacroQuery.PipeMacro | src/JSOMap.ts:36-39 | the result is a pipeline exactly when the body holds a pipe character; then it has at least two stages, none holding a pipe, and they join back to the body |
| MacroQuery.Eval | src/JSOMap.ts:29-92 | no ensures of its own: the query semantics; `Query` implements it, and `LiteralIsVerbatim`, `PathQueryWalksKeys`, `MacroCallDispatch`, `PipelineRunsStages`, `ObjectKeyQuery`, `ObjectDigitKeyQuery` and `ArrayInputKeyQuery` state its branches |
| MacroQuery.RunPipe | src/JSOMap.ts:39-48 | no ensures of its own: the stages in order; `Pipeline` implements it, and `RunPipeSnoc` and `TwoStagePipeline` state its properties |
| MacroQuery.StageQuery | src/JSOMap.ts:41-47 | no ensures of its own: the query a stage stands for; `RunStage`, `PathStage` and `PathThenMacro` state what it gives |
| MacroQuery.CallMacro | src/JSOMap.ts:52 | no ensures of its own: the registry lookup and call; `MacroCallDispatch` states it |
| MacroQuery.Query | src/JSOMap.ts:29-92 | `query` returns or throws what the query semantics `Eval` specifies in each of its three branches |
| MacroQuery.Pipeline | src/JSOMap.ts:39-48 | the stage loop gives the left fold of the stages, the first stage on the input and each later stage on the running result |
| MacroQuery.RunStage | src/JSOMap.ts:41-47 | a stage whose name is a macro definition is re-queried wrapped in braces, and any other stage is queried as it is |
| MacroQuery.SplitJoin | src/JSOMap.ts:36 | joining the split pieces gives back the text |
| MacroQuery.JoinSplit | src/JSOMap.ts:36 | splitting joined separator-free pieces gives back the pieces |
| MacroQuery.NoSeparator | src/JSOMap.ts:36 | separator-free text splits into itself alone |
| MacroQuery.SeparatedWord | src/JSOMap.ts:36 | a leading word and separator split off as the first piece |
| MacroQuery.LiteralIsVerbatim | src/JSOMap.ts:87-88 | a query that is neither macro nor path is returned unchanged |
| MacroQuery.PathQueryWalksKeys | src/JSOMap.ts:56-84 | a query written `[k0][k1]...` walks exactly the coerced keys, in order |
| MacroQuery.BracketsOnlyIsSentinel | src/JSOMap.ts:56-84 | a query of brackets only, such as `[]`, yields `''` |
| MacroQuery.ObjectKeyQuery | src/JSOMap.ts:69-70 | `query(o, "[k]")` is `o[k]` for a key present in the object that is non-empty, has no bracket and does not start with a digit, when `[k]` is not macro syntax |
| MacroQuery.ObjectDigitKeyQuery | src/JSOMap.ts:62-70 | `query(o, "[k]")` for a digit-led key reads the property named by the numeral of its leading digits, not `k` itself |
| MacroQuery.DigitKeyMissed | src/JSOMap.ts:62-70 | a digit-led key that is not its own numeral, such as `01` or `1a`, is never found by `[k]`, even when the object has it |
| MacroQuery.LeadingZeroNumeral | src/JSOMap.ts:64-66 | the part `01` is read as the property `1` |
| MacroQuery.TwoKeyQuery | src/JSOMap.ts:56-84 | `query(v, "[k1][k2]")` reads `k1` of `v`, then `k2` of that result |
| MacroQuery.ArrayInputKeyQuery | src/JSOMap.ts:69-70 | `query(array, "[k]")` for a name other than `length` is `undefined`, with no broadcast on the first segment |
| MacroQuery.MacroCallDispatch | src/JSOMap.ts:51-52 | a single macro gets the input and the whole query string, and an unregistered name throws |
| MacroQuery.PipelineRunsStages | src/JSOMap.ts:39-48 | a brace-wrapped pipeline runs exactly its stages in order |
| MacroQuery.RunPipeSnoc | src/JSOMap.ts:40-48 | the last stage runs on what the earlier stages produced |
| MacroQuery.TwoStagePipeline | src/JSOMap.ts:40-48 | a two-stage pipeline is its second stage applied to its first stage's result on the input |
| MacroQuery.PathStage | src/JSOMap.ts:41-44 | a path stage `[key]` reads `key` of the object `{key: v}`, for a key that is non-empty, has no bracket and does not start with a digit or hold a pipe, when the stage is not macro syntax |
| MacroQuery.PathThenMacro | src/JSOMap.ts:39-52 | a path stage `[key]` piped into macro M, on the object `{key: v}`, calls M with `v` and the query `{M}`, not with the whole pipeline |
| TreeMap.ZipColumn | src/JSOMap.ts:129-137 | an array value grows the rows to the longer length; each row below the value's length gains the key, existing keys win, and later rows are unchanged |
| TreeMap.SpreadColumn | src/JSOMap.ts:138-152 | a scalar is added under the key to every existing row with existing keys winning, and it seeds one row when there are none |
| TreeMap.Merged | src/JSOMap.ts:129-152 | no ensures of its own: one column merged into the rows; `MergeColumn` implements it, and `MergeArrayIntoNone`, `MergeScalarIntoColumn` and `MergeArrayIntoSeed` state its cases |
| TreeMap.MergeColumn | src/JSOMap.ts:129-152 | the two `for` loops and the seeding produce exactly the specified merge |
| TreeMap.ParseTree | src/JSOMap.ts:119-160 | no ensures of its own: the tree semantics; `Parse` implements it, and `ArrayExactlyForList`, `OnlyFirstItemRead`, `EmptyListThrows`, `RecordResult`, `ItemsFanOut` and `TagBroadcast` state its properties |
| TreeMap.FillRecord | src/JSOMap.ts:123-154 | no ensures of its own: the key loop of an object map; `ParseObject` implements it, and `FillRecordStep` and `FillRecordResult` state its properties |
| TreeMap.FillRows | src/JSOMap.ts:123-152 | no ensures of its own: the key loop of an array map; `ParseFanOut` implements it, and `FillRowsStep` and `TwoColumnRows` state its properties |
| TreeMap.EntryResult | src/JSOMap.ts:124-127 | no ensures of its own: one entry of an object map; `ParseEntry` implements it and `RecordResult` states it for every entry |
| TreeMap.FillRecordStep | src/JSOMap.ts:123-127 | the object key loop handles entry `i`, then goes on with its result under its key, or stops at its throw |
| TreeMap.FillRowsStep | src/JSOMap.ts:123-152 | the array key loop queries entry `i`, then goes on with its value merged into the rows, or stops at its throw |
| TreeMap.Parse | src/JSOMap.ts:119-160 | `parse` returns or throws what the tree semantics `ParseTree` specifies |
| TreeMap.ParseObject | src/JSOMap.ts:123-154 | the key loop of an object map assigns each entry in order and stops at the first throw |
| TreeMap.ParseEntry | src/JSOMap.ts:124-127 | a nested object or array recurses, and a string leaf is queried |
| TreeMap.ParseFanOut | src/JSOMap.ts:120-152 | the key loop of an array map merges each column's result into the rows, and an empty array map throws |
| TreeMap.ArrayExactlyForList | src/JSOMap.ts:120 | the result is an array exactly when the map is an array, and then all its elements are objects |
| TreeMap.OnlyFirstItemRead | src/JSOMap.ts:121 | only the first item of an array map is read |
| TreeMap.EmptyListThrows | src/JSOMap.ts:121-123 | an empty array map throws a TypeError |
| TreeMap.MergeArrayIntoNone | src/JSOMap.ts:129-137 | an array merged into no rows gives one row per element |
| TreeMap.MergeScalarIntoColumn | src/JSOMap.ts:138-147 | a scalar merged into array rows lands in every row |
| TreeMap.MergeArrayIntoSeed | src/JSOMap.ts:129-152 | an array merged into one seeded row fills that row and adds rows without the seed's key |
| TreeMap.TwoColumnRows | src/JSOMap.ts:123-152 | a two-key template merges its first column, then its second |
| TreeMap.ColumnFanOut | src/JSOMap.ts:129-137 | a one-key template whose query gives an array becomes one object per element, in order |
| TreeMap.ArrayThenScalar | src/JSOMap.ts:129-147 | an array column followed by a scalar column puts the scalar in every row |
| TreeMap.ScalarThenArray | src/JSOMap.ts:129-152 | a scalar column followed by an array column puts the scalar in the first row only |
| TreeMap.ItemsWalk | src/JSOMap.ts:69-77 | walking `items`, then `n`, collects the `n` of every item |
| TreeMap.ItemsQuery | src/JSOMap.ts:56-84 | `[items][n]` walks the segments `items` and `n` |
| TreeMap.ItemsFanOut | src/JSOMap.ts:119-160 | `parse({items: [{n: a}, {n: b}]}, [{val: "[items][n]"}])` is `[{val: a}, {val: b}]` |
| TreeMap.TagQuery | src/JSOMap.ts:69-70 | `[tag]` reads the input's `tag` |
| TreeMap.TagBroadcast | src/JSOMap.ts:119-160 | `parse({items: [{n: a}, {n: b}], tag: c}, [{val: "[items][n]", t: "[tag]"}])` is `[{val: a, t: c}, {val: b, t: c}]` |
| TreeMap.RecordResult | src/JSOMap.ts:123-154 | with distinct keys, an object map gives an object with exactly the map's keys, each holding its own entry's result |
| TreeMap.FillRecordResult | src/JSOMap.ts:123-154 | the remaining entries add exactly their keys, each holding its entry's result |
| TreeMap.FillRecordKeySet | src/JSOMap.ts:123-154 | the filled object has the accumulated keys plus every remaining entry's key |
| TreeMap.FillRecordValues | src/JSOMap.ts:123-154 | with distinct keys, every remaining entry's key holds that entry's result |
| TreeMap.FillRecordAt | src/JSOMap.ts:123-154 | with distinct keys, one given entry ends up under its own key |
| TreeMap.FillRecordOkStep | src/JSOMap.ts:123-154 | an object fill that does not throw got its next entry without throwing and continued from that assignment |
| TreeMap.FillRecordKeeps | src/JSOMap.ts:154 | a key that no later entry names keeps its value |

## Left out

- `JSOMacro`'s regular expressions, its registry storage and its built-in macros are not part of this model. The regular expressions are function parameters, and the registry is a map parameter. Macros are arbitrary functions that may throw.
- `addMacro` only delegates to `JSOMacro.addMacro`. Adding macros changes global mutable state, which the registry parameter stands for, so its lifetime and sharing are not modelled.
- `constructor`, `mapped`, `toObject`, `valueOf` and `inspect` only store or forward the two arguments. They are not modelled.
- PathQuery.Coerce: `parseFloat` is modelled only on parts that start with a decimal digit, and it reads just the leading digits. Leading whitespace, a sign, a fraction, an exponent and `Infinity` are not modelled. So `"1.5"` is read as 1, which JavaScript reads as 1.5, and precision loss above 2^53 is not modelled.
- JsValue.Get: string indices and `length` count Dafny characters, which are Unicode scalar values, while JavaScript counts UTF-16 code units. A string with characters outside the Basic Multilingual Plane therefore has a different length and different elements in JavaScript.
- Inherited and prototype properties, such as `constructor` on objects or methods on strings and arrays, are not modelled. Only own properties, array elements, string characters and `length` are modelled, with strings counted as the line above says.
- PathQuery.SplitPath: the number and place of the empty pieces is not stated, because the filter that follows drops them. What the split and filter keep is stated in full by `SplitFilterIsWords`.
- Objects are maps, so key order inside a result object is not represented. The order in which a map's keys are visited is taken as given by the entry sequence of `Record`, which stands for `Object.keys` order.
- TreeMap.ValidTree excludes three kinds of map: nested objects or arrays inside an array map's template (the source sets named properties on the result array for them); templates that are not objects; and `null`, number or boolean leaves in a map. A map whose root is a string is excluded by `ParseTree`'s precondition.
- `parse` and `query` are idempotent only because they have no state. The model is made of functions and states no separate lemma for this.

