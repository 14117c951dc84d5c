# rheas validation — a Dafny model of the rule pipeline

This project models the core of the `@rheas/validation` library. The library
checks a data object field by field, against rules written either as a pipe
separated string (`"bail|required|min:10"`) or as an array of strings and
`Rule` objects. For every failing rule it collects a rendered English message.

The model follows the library's four classes, one Dafny module each, plus
three small modules for what they rely on:

- `RuleParser` (`src/ruleParser.ts`). It turns a rule string or array into
  descriptors: a rule name with its parameters, or a `Rule` object.
- `RuleValidator` (`src/ruleValidator.ts`). It dispatches a rule name to its
  built-in predicate: `bail`, `confirm`, `email`, `min`, `max` or `required`.
  It also holds the helpers behind those predicates: `getSize`,
  `meetsRequiredParameters` and `numericParameter`.
- `RuleError` (`src/ruleError.ts`). It holds the default message table,
  chooses a field's message template, replaces `:attribute` (case-insensitively)
  and fills the parameter placeholders from left to right.
- `Validator` (`src/validator.ts`). The class `Validator.Checker` holds the
  constructor's inputs and the error store. Its methods are `FieldValidate`,
  `Passes`, `Fails`, `GetErrors` and `HasErrors`. The pure functions `Walk`
  and `Pushes` describe the per-field loop with its `bail` short-circuit.
  `Run` and `Left` describe the whole run: the store left behind after
  `passes()` returns, and after it throws.
- `Text` covers the JavaScript string behaviour the library leans on:
  `trim`, `split` on a run-of-delimiters regex, `parseInt`, UTF-16 `length`,
  and the `\w` class.
- `Values` covers the data values, JavaScript `===`, `Rule` objects, the
  external helpers and the errors that can be thrown.
- `Wrappers` holds `Option` and `Result`.

Thrown errors are `Failure` results. The `Fault` datatype has one constructor
per error the code can raise: an unknown rule, missing or non-numeric
parameters, `.length` of `null`/`undefined`, and a message template that does
not exist. The two scenario modules, `ParserScenarios` and
`ValidatorScenarios`, state the library's own test cases as lemmas.

Two behaviours of the code are easy to misread:
- `getSize` returns `input.length` for every input (src/ruleValidator.ts:115-120).
  A number therefore has size `undefined`, and `min`/`max` on it are false. A
  number is never compared as its own value.
- `min` and `max` need at least one parameter (src/ruleValidator.ts:128-131).
  Extra parameters are ignored.

The constructor of `Validator.Checker` records the data, the rule map, the
message overrides and the aliases, and it starts with an empty store.
`GetErrors` returns that store.

## Model

| member | source | states |
|---|---|---|
| Text.Trim | src/ruleParser.ts:33 | the result has no whitespace at either end, is no longer than the input, and is empty exactly when the input is all whitespace |
| Text.TrimSurrounded | src/ruleParser.ts:20 | trimming text that is whitespace, then a trimmed core, then whitespace gives back exactly the core |
| Text.Split | src/ruleParser.ts:15 | splitting on a run-of-delimiters pattern gives at least one piece, and no piece contains a delimiter |
| Text.SplitWeave | src/ruleParser.ts:33 | splitting inverts joining: pieces woven together with non-empty delimiter runs split back into exactly those pieces |
| Text.Utf16Length | src/ruleValidator.ts:116-119 | a string's `.length` counts UTF-16 units: between its character count and twice that, and equal to the character count when every character is in the Basic Multilingual Plane |
| Text.ParseInt | src/ruleValidator.ts:139 | `parseInt`: leading whitespace, an optional sign, an optional `0x` prefix, then the longest digit run, or NaN when that run is empty; `ParseIntDecimal`, `ParseIntDecimalNegative` and `ParseIntRejects` state what it reads |
| Text.ParseIntDecimal | src/ruleValidator.ts:139 | `parseInt` reads back any integer written in decimal, whatever non-numeral text follows it |
| Text.ParseIntDecimalNegative | src/ruleValidator.ts:139 | `parseInt` reads back a negative decimal integer through its minus sign |
| Text.ParseIntRejects | src/ruleValidator.ts:139-141 | text that starts with neither whitespace, a sign nor a digit parses to NaN, which makes the caller throw |
| Values.Get | src/ruleValidator.ts:106 | reading a missing key gives `undefined`; otherwise it gives the stored value |
| Values.StrictEqualsMeaning | src/ruleValidator.ts:53 | `===` is value equality on primitives and identity on arrays and objects; an array never equals an object or a primitive |
| RuleParser.ParamTokens | src/ruleParser.ts:33 | an entry's tokens are its `:`/`,`-separated pieces, each trimmed; there is at least one, and none contains a separator |
| RuleParser.Describe | src/ruleParser.ts:29-35 | a `Rule` object becomes a one-element descriptor; a string becomes the name followed by its trimmed parameter tokens |
| RuleParser.Parse | src/ruleParser.ts:10-39 | every descriptor it produces is well formed: a `Rule` object, or a name with trimmed, separator-free parameters |
| RuleParser.ParseEntriesAppend | src/ruleParser.ts:19-36 | filtering and mapping work entry by entry: parsing two lists joined equals joining their parses |
| RuleParser.ParseEntriesLength | src/ruleParser.ts:19-21 | exactly the `Rule` objects and the non-blank strings survive the filter: one descriptor each |
| RuleParser.BlankPipedParsesEmpty | src/ruleParser.ts:15-21 | a rule string of only pipes and whitespace parses to no rules |
| RuleParser.EntriesMatchPiped | src/ruleParser.ts:11-16 | the array form and the pipe-joined string form of the same pipe-free entries parse to the same descriptors |
| RuleParser.TextsMatchSplit | src/ruleParser.ts:15 | joining entries with pipes and splitting on pipe runs leaves the parse unchanged |
| RuleParser.ParseFormatted | src/ruleParser.ts:23-36 | writing each canonical descriptor as `name:p1,p2` and parsing the array gives the descriptors back |
| RuleParser.PipedRoundTrip | src/ruleParser.ts:10-39 | round trip: canonical named descriptors written as one pipe-joined rule string parse back to themselves |
| RuleParser.ParseAvoids | src/ruleParser.ts:33 | no parameter or name contains a character that the rule text avoids |
| ParserScenarios.ParseRequiredEmail | tests/RuleParser.spec.ts:12-17 | the string of `required` and `email` joined by one pipe parses to `[required]`, `[email]` |
| ParserScenarios.ParseStrayPipes | tests/RuleParser.spec.ts:22-27 | the same two rules with stray leading, separating and trailing pipes and a blank entry parse to `[required]`, `[email]`: blank and empty entries are dropped |
| ParserScenarios.ParseDoublePipeParams | tests/RuleParser.spec.ts:37-42 | a string with a doubled leading pipe, a blank entry and `max_min:50,10` parses to `[required]`, `[email]`, `[max_min, 50, 10]` |
| ParserScenarios.ParseArray | tests/RuleParser.spec.ts:48-53 | the array form with an empty and a blank entry parses to the same three descriptors |
| ParserScenarios.ParseArrayWithRule | tests/RuleParser.spec.ts:57-75 | a trailing `Rule` object is kept, after the three string rules, as a one-element descriptor |
| ParserScenarios.ParseBlankParam | src/ruleParser.ts:33 | `min: ,5` parses to `[min, "", 5]`: a blank parameter survives as the empty string |
| RuleValidator.BuiltInTable | src/ruleValidator.ts:25-27 | each built-in rule answers to exactly one method suffix (`'validate' + studly(rule)`), and that suffix finds it again |
| RuleValidator.PassesRule | src/ruleValidator.ts:24-34 | it throws "unknown rule" exactly when `studly(rule)` names no built-in; its other errors are parameter errors or `.length` of null; `bail` always passes |
| RuleValidator.ValidateBail | src/ruleValidator.ts:41-43 | `bail` passes on every input |
| RuleValidator.ValidateConfirm | src/ruleValidator.ts:50-54 | passes exactly when `data[field] === data[field + '_confirm']`; two missing keys match; on primitives this is plain equality |
| RuleValidator.ValidateRequired | src/ruleValidator.ts:105-109 | fails exactly when the value is missing, `null` or the empty string |
| RuleValidator.RequiredAcceptsFalsy | src/ruleValidator.ts:108 | `0`, `false` and an empty array all satisfy `required` |
| RuleValidator.GetSize | src/ruleValidator.ts:115-120 | throws exactly on `null`/`undefined`; gives a length exactly for strings (UTF-16 units) and arrays (element count); `undefined` otherwise |
| RuleValidator.MeetsRequiredParameters | src/ruleValidator.ts:128-131 | succeeds exactly when there are at least as many parameters as needed, and otherwise throws naming the rule and the count |
| RuleValidator.NumericParameter | src/ruleValidator.ts:138-144 | succeeds exactly when `parseInt` gives a number, and returns that number; otherwise it throws naming the rule |
| RuleValidator.ValidateMin | src/ruleValidator.ts:74-80 | the whole case table, in evaluation order: no parameter throws; a null or missing value throws; a non-numeric parameter throws; a length is compared with `>=`; numbers, booleans and objects fail |
| RuleValidator.ValidateMax | src/ruleValidator.ts:91-97 | the same case table with `<=` |
| RuleValidator.SizeRulesNeedLength | src/ruleValidator.ts:74-97 | `min` or `max` can only pass on a string or an array |
| RuleError.Template | src/ruleError.ts:99-111 | a non-empty override wins; a string rule then falls back to the default table; a `Rule` object uses its non-empty override under `snake('custom' + name)` when there is one, and its own message otherwise |
| RuleError.AttributeName | src/ruleError.ts:127 | the alias when it is non-empty, the field name otherwise |
| RuleError.ReplaceAttribute | src/ruleError.ts:126-130 | replaces every `:attribute`, in any letter case, by the attribute name; `ReplaceAttributeSplice` and `ReplaceAttributeAbsent` characterise it |
| RuleError.ReplaceAttributeSplice | src/ruleError.ts:126-130 | every `:attribute` occurrence, in any letter case, is replaced by the name and the text around it is kept |
| RuleError.ReplaceAttributeAbsent | src/ruleError.ts:129 | a message with no `:attribute` is unchanged |
| RuleError.AttributeCaseInsensitive | src/ruleError.ts:129 | `:ATTRIBUTE` and `:Attribute` match, and a different word does not |
| RuleError.FirstPlaceholder | src/ruleError.ts:140 | finds the leftmost `:` followed by a word character, or reports that none exists |
| RuleError.ReplaceFirstShape | src/ruleError.ts:140 | one replacement swaps the leftmost `:word` (the whole word) for the parameter and keeps the rest |
| RuleError.ReplaceParams | src/ruleError.ts:138-143 | each parameter in turn replaces the leftmost `:word` still left; `FillTemplate`, `ReplaceParamsNoPlaceholder`, `ReplaceParamsKeepsPrefix` and `ParamPlaceholderReused` characterise it |
| RuleError.ReplaceParamsNoPlaceholder | src/ruleError.ts:138-143 | a message without placeholders is unchanged, whatever the parameters |
| RuleError.FillTemplate | src/ruleError.ts:138-143 | the parameters fill the placeholders in order; surplus parameters are dropped and unfilled placeholders stay as written |
| RuleError.ReplaceParamsKeepsPrefix | src/ruleError.ts:138-143 | text before the first `:` is never touched by parameter replacement |
| RuleError.ParamPlaceholderReused | src/ruleError.ts:139-141 | a parameter that itself contains `:word` has that word overwritten by the next parameter, not the template's next placeholder |
| RuleError.ParamPlaceholderExample | src/ruleError.ts:139-141 | `"x :a :b"` with parameters `"p:q"`, `"r"` renders `"x pr :b"` |
| RuleError.GetErrorMessage | src/ruleError.ts:92-118 | throws exactly when no template exists (`undefined.replace`), and then names the rule |
| RuleError.AttributeBeforeParams | src/ruleError.ts:113-115 | the attribute name is replaced before the parameters, so the rendered text starts with the template's prefix followed by the name |
| RuleError.RenderedMessage | src/ruleError.ts:92-118 | for a template `pre :attribute head` followed by placeholders, the message is `pre`, the name, `head`, and the placeholders filled with the parameters |
| ValidatorScenarios.RequiredExample | src/ruleError.ts:49 | the default `required` message for field `test` is "The test field is required." |
| ValidatorScenarios.MinExample | src/ruleError.ts:43 | the default `min:10` message for field `test` is "The test field must have at least 10 characters." |
| Validator.Verdict | src/validator.ts:99-110 | a `Rule` object answers through its own `check`; a named rule goes through `passesRule`, and only a named rule can throw |
| Validator.Message | src/validator.ts:132 | rendering a failed rule's message throws exactly when it has no template under the field's overrides |
| Validator.IsBailMarker | src/validator.ts:106 | a named rule whose trimmed name is `bail` raises the bail flag; `CheckRule` returns that flag, and `WalkBailStops` and `BailFirstAtMostOne` state its effect |
| Validator.Walk | src/validator.ts:95-118 | the field loop: at most one message per rule, and at most one once bailing; `WalkNoBail`, `WalkAppend`, `WalkBailStops` and `WalkFaultStops` characterise it |
| Validator.FieldErrors | src/validator.ts:89-119 | a field reports at most one message per rule, and at most one once it is already bailing |
| Validator.CheckRule | src/validator.ts:99-110 | one rule's verdict, and the bail flag raised by a `bail` rule |
| Validator.ValidateRules | src/validator.ts:95-118 | the loop returns the field's messages and records exactly the writes of `pushError`, including those made before a throw |
| Validator.ValidateField | src/validator.ts:89-119 | parse, then run the loop, with the same result |
| Validator.WalkNoBail | src/validator.ts:95-118 | without `bail` and without a throw, the messages are those of the failing rules, one each, in rule order |
| Validator.WalkAppend | src/validator.ts:95-118 | before any `bail`, failures never stop the loop: the messages of a prefix come first, then those of the rest |
| Validator.WalkBailStops | src/validator.ts:106-108 | once `bail` has been seen, the first failure is the last rule run: its message is the only one, and later rules (even throwing ones) never run |
| Validator.WalkFaultStops | src/validator.ts:109 | a rule that throws after passing rules aborts the field, whatever follows |
| Validator.BailFirstAtMostOne | src/validator.ts:106-117 | a field whose first rule is `bail` reports at most one message |
| Validator.PushesAgree | src/validator.ts:114-117 | when the loop ends normally, the pushed messages are exactly the reported ones, and the field's array exists exactly when it is non-empty |
| Validator.PushesBeforeFault | src/validator.ts:114-117 | a throw keeps every message pushed before it |
| Validator.FieldLocal | src/validator.ts:132 | a field's messages depend only on the data, the helpers and that field's own alias and overrides |
| Validator.Push | src/validator.ts:127-135 | the field's array is created on first push and the messages are appended; no other field changes |
| Validator.Record | src/validator.ts:127-135 | a field the loop reached gets its pushed messages appended (its array exists even if rendering then threw); no other field changes |
| Validator.RecordPush | src/validator.ts:127-135 | a loop that ends normally writes exactly what pushing its messages writes |
| Validator.Gather | src/validator.ts:75-78 | the fields already in the store stay in it |
| Validator.GatherFails | src/validator.ts:75-78 | the run throws exactly when some field's validation throws |
| Validator.GatherEmpty | src/validator.ts:79 | the store ends empty exactly when it started empty and no field produced a message |
| Validator.GatherContents | src/validator.ts:75-78 | each field's key is present exactly when it has messages, and then it holds exactly those messages; earlier keys are untouched |
| Validator.GatherThrow | src/validator.ts:75-78 | the run throws the first error thrown by any field |
| Validator.LeaveGather | src/validator.ts:73-78 | when nothing throws, the store left behind is the one the run computes |
| Validator.LeaveThrow | src/validator.ts:73-78 | when a field throws, the store holds the earlier fields' messages plus what that field pushed before the throw |
| Validator.Run | src/validator.ts:71-80 | the store a `passes()` that returns leaves behind; `GatherFails`, `GatherThrow` and `RunContents` characterise it |
| Validator.Left | src/validator.ts:71-80 | the store `getErrors()` returns after `passes()`, whether it returned or threw; `LeftAfterRun` and `LeftAfterThrow` characterise it |
| Validator.RunPasses | src/validator.ts:71-80 | `passes()` throws exactly when some field throws, and otherwise returns true exactly when no field produced a message |
| Validator.RunFails | src/validator.ts:142-144 | `fails()` throws when `passes()` does, and otherwise returns true exactly when some field produced a message |
| Validator.RunContents | src/validator.ts:71-80 | after a run that returns, each field holds exactly its own messages, and fields without messages have no key |
| Validator.LeftAfterRun | src/validator.ts:71-80 | `getErrors()` after a `passes()` that returned is that run's store |
| Validator.LeftAfterThrow | src/validator.ts:73-78 | `getErrors()` after a throw in field `j` is the store of fields before `j`, plus field `j`'s partial writes |
| Validator.DollarFreeSafe | src/validator.ts:132 | field names, aliases and rules free of `$` render every message literally |
| Validator.Checker.FieldValidate | src/validator.ts:89-119 | succeeds exactly when the field's loop ends normally, throws its error otherwise, and records the field's writes in the store either way |
| Validator.Checker.Passes | src/validator.ts:71-80 | resets the store, runs every field, and returns `passes()`; the store is what the loop leaves, whether it returned or threw |
| Validator.Checker.Fails | src/validator.ts:142-144 | the negation of `passes()`, with its throws; it leaves the same store as `passes()`, whether it returns or throws |
| Validator.Checker.HasErrors | src/validator.ts:161-163 | true exactly when the store has a key |
| ValidatorScenarios.UnknownRuleThrows | tests/Validator.spec.ts:10-18 | `required` then the unknown `abcdefghi:10` on `{}` throws "unknown rule", after the `required` message was stored |
| ValidatorScenarios.RequiredFails | tests/Validator.spec.ts:24-32 | `required` on `{}` fails with `{test: ["The test field is required."]}` |
| ValidatorScenarios.RequiredPasses | tests/Validator.spec.ts:36-45 | `required` on `{test: "hello"}` passes and leaves an empty store |
| ValidatorScenarios.FieldBails | tests/Validator.spec.ts:50-59 | `bail`, `required`, `min:10` on an empty string stores only the `required` message |
| ValidatorScenarios.FieldDoesNotBail | tests/Validator.spec.ts:63-71 | `required`, `min:10` (no `bail`) on an empty string stores both messages, in rule order |

## Left out

- RuleError.GetErrorMessage: requires the attribute name and every parameter to be free of `$`. JavaScript's `String.prototype.replace` expands `$&`, `$1` and similar patterns in the replacement, and that expansion is not modelled.
- Validator.SafeRules: `Passes` and `Fails` require every message to be renderable. This is the same `$`-free condition, and `Validator.DollarFreeSafe` derives it from `$`-free field names, aliases and rules.
- RuleParser.Parse: `null`, `undefined` and non-string, non-`Rule` array entries cannot be represented by `Entry`. The filter at src/ruleParser.ts:20 drops `null` and `undefined`; other values would make `trim` throw.
- Validator.AliasOf: a `null` alias is not represented. Aliases are a string map, and a missing key reads as `""`, which `AttributeName` treats like `null`: both fall back to the field name.
- RuleValidator.GetSize: every object is taken to have no `length` property. An object with its own `length` would be measured by it.
- Validator.OverridesOf: keys inherited through the prototype are not modelled. Examples are `custom_messages["constructor"]` and the inherited keys a `for…in` over the rules would visit. Maps hold only own keys.
- Text.ParseInt: covers a sign, decimal digits and the `0x` prefix, with leading whitespace. The value is an unbounded integer; `parseInt` results beyond 2^53 lose precision as JavaScript numbers, and that loss is not modelled.
- RuleError.FillTemplate: requires the parameters to be free of `:`. A parameter containing `:word` changes which placeholder the next parameter lands in; `RuleError.ParamPlaceholderReused` states that case separately.
- RuleError.AttributeBeforeParams: requires the attribute name to be free of `:`, for the same reason.
- RuleValidator.ValidateEmail: the address check belongs to the external `Str.isValidEmail`. It is a parameter of the model (`Support.isValidEmail`), so the rule only states that it defers to it.
- Values.Support: `Str.studly` and `Str.snake` come from `@rheas/support`, outside this library. They are parameters, and the scenario lemmas assume only the values they need on the test names.
- Validator.Rules: the rule object is an ordered list of (field, rule) pairs in `for…in` order, with integer-like keys not sorted first.
- Values.Value: numbers are unbounded integers; floating point values, `NaN` and `Infinity` are not modelled.
- `src/rule.ts` is modelled only as the `CustomRule` record (name, message, check); its construction and naming helpers are not part of this model.
- `src/exception.ts` (the validation exception) and `src/index.ts` (exports) are not part of this model.
