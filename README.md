# A Dafny model of the method-mocking engine

The repository is an IntelliJ plugin that mocks Java methods at run time.
The user writes method specs (`MockMethodConfig`: class, method, signature,
return value and type, an enabled flag, and an exception mode with type and
message). A rule store (`MockConfig`) keeps them and derives one `MockRule`
per key `className + "." + methodName`. A Java agent loads that store,
selects the methods of each loading class whose key it holds, and on every
call either calls the original method, throws the configured exception or
returns the configured value coerced by its type descriptor. Around this
core sit a generator of default mock values from IDE type descriptions, the
text helpers of the results-table renderer and cell editor, and the table
model and pagination of the tool window.

The repository has two generations of each part: the current one under
`io/github/lancelothuxi/idea/plugin/mock/` and an earlier one under
`com/example/plugin/`. Both are modelled, each in its own module:

| module (file) | what it models |
|---|---|
| `JavaText` (java_text.dfy) | Java `String` behaviour the code relies on: null text, `trim`, `split(":", 2)`, `lastIndexOf`, the `\s+` collapse, `Integer.parseInt`/`Long.parseLong`, `Boolean.parseBoolean`, the "..." truncation |
| `MethodSpec`, `LegacyMethodSpec` | the spec classes, their defaults, setters and `getFullMethodName` |
| `RuleStore`, `LegacyRuleStore` | `MockConfig` as a class holding a `map` of rules and a `seq` of specs |
| `Agent`, `LegacyAgent` | bootstrap, class-load selection, both interceptors, `parseMockValue`, `createException` |
| `Psi`, `JsonValue`, `ValueGenerator`, `LegacyValueGenerator` | IDE type descriptions, an insertion-ordered JSON value, and both default-value generators |
| `JsonFormat` | the character loops of `minifyJson` and `prettyPrintJson` |
| `JsonCellRenderer`, `LegacyCellRenderer` | display and tooltip text, HTML escaping and the bounded access-ordered cache |
| `CellEditor` | the legacy `JsonTableCellEditor`: button text, exception-value parse and compose, the OK handlers |
| `ToolWindow` | `MockRunnerToolWindowContent`: pagination, statistics, the global toggle and the table model |

Foreign code is a parameter. `Agent.Host` says which class names
`Class.forName` resolves (and whether each is an `Exception` with a working
`(String)` constructor), which texts Gson accepts for a target shape, and
which texts `Double.parseDouble`/`Float.parseFloat` accept. The IDE's type
descriptions are the datatypes of `Psi`, with a `Universe` map standing for
`resolve()`. A Java null string is `None` in `JStr = Option<string>`, and
concatenating it writes "null".

Mutable objects are classes: the spec objects, both `MockConfig`s, both
agents (the static `mockConfig` becomes a field), the generator with its
in-progress set, the renderer with its cache, the cell editor, the table
model and the tool-window content. Their methods are proved against
functions on values (`RulesFrom`, `WithoutKey`, `DefaultObject`, `Minify`,
`Pretty`, `Touch`, `EditedSpec`, `CountEnabled`), and the properties the
code promises are lemmas about those functions.

## Model

| member | source | states |
|---|---|---|
| JavaText.Show | src/main/java/io/github/lancelothuxi/idea/plugin/mock/mock/MockMethodConfig.java:90-92 | a null string concatenates as "null", any other string as itself |
| JavaText.SplitAtFirst | src/main/java/com/example/plugin/ui/JsonTableCellEditor.java:164-166 | `split(c, 2)` on text holding `c`: the text is the first part, `c`, then the second part, and the first part has no `c` |
| JavaText.SplitAtFirstOf | src/main/java/com/example/plugin/ui/JsonTableCellEditor.java:164-166 | text built around a first occurrence of the separator splits back into exactly its two parts |
| JavaText.IndexOf | src/main/java/com/example/plugin/ui/JsonTableCellEditor.java:164-166 | `indexOf` of a character that occurs is an index holding it with no occurrence before it |
| JavaText.LastIndexOf | src/main/java/io/github/lancelothuxi/idea/plugin/mock/ui/MockRunnerToolWindowContent.java:323 | -1 exactly when the character is absent; otherwise an index holding it with no occurrence after it |
| JavaText.Trim | src/main/java/com/example/plugin/ui/JsonTableCellEditor.java:166-167 | the result is empty or starts and ends with a character above U+0020 |
| JavaText.TrimStart | src/main/java/com/example/plugin/ui/JsonTableCellEditor.java:166-167 | the result is a suffix of the input; everything dropped is at most U+0020, and the result does not start with such a character |
| JavaText.TrimEnd | src/main/java/com/example/plugin/ui/JsonTableCellEditor.java:166-167 | the result is a prefix of the input; everything dropped is at most U+0020, and the result does not end with such a character |
| JavaText.TrimIsIdempotent | src/main/java/com/example/plugin/ui/JsonTableCellEditor.java:166-167 | trimming twice is trimming once |
| JavaText.TrimOfTrimmed | src/main/java/com/example/plugin/ui/JsonTableCellEditor.java:166-167 | text whose ends are not blank is left unchanged by `trim` |
| JavaText.TrimKeepsAbsent | src/main/java/com/example/plugin/ui/JsonTableCellEditor.java:166-167 | trimming only removes characters, so a character absent before is absent after |
| JavaText.TrimAfterBlanks | src/main/java/com/example/plugin/ui/JsonTableCellEditor.java:166-167 | trimmed text behind leading blanks is recovered by `trim` |
| JavaText.DropSpacesShape | src/main/java/io/github/lancelothuxi/idea/plugin/mock/ui/JsonTableCellRenderer.java:130 | what is left after dropping the leading `\s` run is a suffix of the text, and every dropped character is `\s` |
| JavaText.NonSpaceAppend | src/main/java/io/github/lancelothuxi/idea/plugin/mock/ui/JsonTableCellRenderer.java:130 | the characters outside `\s` of a concatenation are those of each part, in order |
| JavaText.CleanText | src/main/java/io/github/lancelothuxi/idea/plugin/mock/ui/JsonTableCellRenderer.java:130 | `replaceAll("\\s+", " ").trim()` leaves no two neighbouring `\s` characters, only plain spaces, and no blank ends; the result is the collapsed text with only characters up to U+0020 cut from its ends; when every such character of the input is `\s`, the non-`\s` characters are exactly the input's, in order |
| JavaText.ConsKeepsShape | src/main/java/io/github/lancelothuxi/idea/plugin/mock/ui/JsonTableCellRenderer.java:130 | a character put in front of cleaned text keeps it clean unless it starts a second `\s` run |
| JavaText.SliceKeepsShape | src/main/java/io/github/lancelothuxi/idea/plugin/mock/ui/JsonTableCellRenderer.java:138-140 | any slice of cleaned text is still free of `\s` runs and other whitespace |
| JavaText.CollapseShape | src/main/java/io/github/lancelothuxi/idea/plugin/mock/ui/JsonTableCellRenderer.java:130 | `replaceAll("\\s+", " ")` leaves no `\s` run and only plain spaces, keeps every other character in order, is empty exactly for empty text, and starts with a space exactly when the text starts with `\s` |
| JavaText.CollapseWord | src/main/java/io/github/lancelothuxi/idea/plugin/mock/ui/JsonTableCellRenderer.java:130 | text without `\s` is left as it is |
| JavaText.CollapseRun | src/main/java/io/github/lancelothuxi/idea/plugin/mock/ui/JsonTableCellRenderer.java:130 | a leading run of `\s` becomes one space |
| JavaText.CollapseAppend | src/main/java/io/github/lancelothuxi/idea/plugin/mock/ui/JsonTableCellRenderer.java:130 | the collapse works piecewise on a concatenation whose first part does not end in `\s` |
| JavaText.CollapseAround | src/main/java/io/github/lancelothuxi/idea/plugin/mock/ui/JsonTableCellRenderer.java:130 | a run of `\s` between two parts becomes exactly one space, and each part collapses on its own |
| JavaText.TrimSlice | src/main/java/io/github/lancelothuxi/idea/plugin/mock/ui/JsonTableCellRenderer.java:130 | `trim` leaves a slice of the text, and everything it cuts from the ends is at most U+0020 |
| JavaText.BlankCutKeepsWords | src/main/java/io/github/lancelothuxi/idea/plugin/mock/ui/JsonTableCellRenderer.java:130 | cutting only `\s` characters from the ends keeps every other character |
| JavaText.CleanTextKeepsWords | src/main/java/io/github/lancelothuxi/idea/plugin/mock/ui/JsonTableCellRenderer.java:130 | when every character up to U+0020 in the input is `\s`, cleaning keeps exactly the other characters, in order |
| JavaText.CleanTextJoinsWords | src/main/java/io/github/lancelothuxi/idea/plugin/mock/ui/JsonTableCellRenderer.java:130 | two words around a run of `\s` clean to the words joined by one space |
| JavaText.CleanTextOfClean | src/main/java/io/github/lancelothuxi/idea/plugin/mock/ui/JsonTableCellRenderer.java:130 | text already of the cleaned shape is left unchanged |
| JavaText.CleanTextIsIdempotent | src/main/java/io/github/lancelothuxi/idea/plugin/mock/ui/JsonTableCellRenderer.java:130 | cleaning twice is cleaning once |
| JavaText.Abbreviate | src/main/java/io/github/lancelothuxi/idea/plugin/mock/ui/JsonTableCellRenderer.java:138-140 | the result is at most the limit; short text is unchanged; long text is exactly its first limit-3 characters and "..." |
| JavaText.ParseDecimal | src/main/java/io/github/lancelothuxi/idea/plugin/mock/mock/MockConfig.java:98-103 | a parse succeeds only on non-null, non-empty text and only with a value inside the type's range; a text of decimal digits gives exactly its value when that is in range, and fails otherwise |
| JavaText.ParseInt | src/main/java/io/github/lancelothuxi/idea/plugin/mock/mock/MockConfig.java:98-103 | `Integer.parseInt` succeeds only with a 32-bit value |
| JavaText.ParseLong | src/main/java/io/github/lancelothuxi/idea/plugin/mock/agent/MockAgent.java:175-176 | `Long.parseLong` succeeds only with a 64-bit value |
| JavaText.ParseBoolean | src/main/java/com/example/plugin/agent/MockInterceptor.java:55-57 | `Boolean.parseBoolean` never fails and is true exactly for a four-letter text that reads "true" ignoring ASCII case; "TRUE" and "True" give true, "false" and null give false |
| JavaText.NatText | src/main/java/io/github/lancelothuxi/idea/plugin/mock/ui/MockRunnerToolWindowContent.java:240 | a number prints as a non-empty run of decimal digits |
| JavaText.NatTextValue | src/main/java/io/github/lancelothuxi/idea/plugin/mock/ui/MockRunnerToolWindowContent.java:240 | the printed digits read back as the number |
| JavaText.ParseIntOfDecimalText | src/main/java/io/github/lancelothuxi/idea/plugin/mock/mock/MockConfig.java:98-103 | `Integer.parseInt` of what `Integer.toString` wrote gives the number back, negatives included |
| JavaText.ParseDecimalOfDecimalText | src/main/java/io/github/lancelothuxi/idea/plugin/mock/mock/MockConfig.java:98-103 | the decimal text of any number in range, sign included, parses back to that number |
| JavaText.ParseLongOfDecimalText | src/main/java/io/github/lancelothuxi/idea/plugin/mock/agent/MockAgent.java:175-176 | `Long.parseLong` of what `Long.toString` wrote gives the number back |
| MethodSpec.MockMethodConfig.constructor | src/main/java/io/github/lancelothuxi/idea/plugin/mock/mock/MockMethodConfig.java:8-16 | a new spec has null strings, is enabled, is in value mode, and has exception type "java.lang.RuntimeException" and message "Mocked exception" |
| MethodSpec.MockMethodConfig.SetClassName | src/main/java/io/github/lancelothuxi/idea/plugin/mock/mock/MockMethodConfig.java:22-24 | sets the class name and no other field |
| MethodSpec.MockMethodConfig.SetMethodName | src/main/java/io/github/lancelothuxi/idea/plugin/mock/mock/MockMethodConfig.java:30-32 | sets the method name and no other field |
| MethodSpec.MockMethodConfig.SetSignature | src/main/java/io/github/lancelothuxi/idea/plugin/mock/mock/MockMethodConfig.java:38-40 | sets the signature and no other field |
| MethodSpec.MockMethodConfig.SetReturnValue | src/main/java/io/github/lancelothuxi/idea/plugin/mock/mock/MockMethodConfig.java:46-48 | sets the return value and no other field |
| MethodSpec.MockMethodConfig.SetReturnType | src/main/java/io/github/lancelothuxi/idea/plugin/mock/mock/MockMethodConfig.java:54-56 | sets the return type and no other field |
| MethodSpec.MockMethodConfig.SetEnabled | src/main/java/io/github/lancelothuxi/idea/plugin/mock/mock/MockMethodConfig.java:62-64 | sets the enabled flag and no other field |
| MethodSpec.MockMethodConfig.SetThrowException | src/main/java/io/github/lancelothuxi/idea/plugin/mock/mock/MockMethodConfig.java:70-72 | sets the mode and no other field |
| MethodSpec.MockMethodConfig.SetExceptionType | src/main/java/io/github/lancelothuxi/idea/plugin/mock/mock/MockMethodConfig.java:78-80 | sets the exception type and no other field |
| MethodSpec.MockMethodConfig.SetExceptionMessage | src/main/java/io/github/lancelothuxi/idea/plugin/mock/mock/MockMethodConfig.java:86-88 | sets the exception message and no other field |
| MethodSpec.MockMethodConfig.FullMethodName | src/main/java/io/github/lancelothuxi/idea/plugin/mock/mock/MockMethodConfig.java:90-92 | the full name starts with the class name and a dot, and the rest is method name then signature, null parts written as "null" |
| LegacyMethodSpec.MockMethodConfig.constructor | src/main/java/com/example/plugin/mock/MockMethodConfig.java:8-12 | a new legacy spec has null strings and is enabled |
| LegacyMethodSpec.MockMethodConfig.SetClassName | src/main/java/com/example/plugin/mock/MockMethodConfig.java:18-20 | sets the class name and no other field |
| LegacyMethodSpec.MockMethodConfig.SetMethodName | src/main/java/com/example/plugin/mock/MockMethodConfig.java:26-28 | sets the method name and no other field |
| LegacyMethodSpec.MockMethodConfig.SetSignature | src/main/java/com/example/plugin/mock/MockMethodConfig.java:34-36 | sets the signature and no other field |
| LegacyMethodSpec.MockMethodConfig.SetReturnValue | src/main/java/com/example/plugin/mock/MockMethodConfig.java:42-44 | sets the return value and no other field |
| LegacyMethodSpec.MockMethodConfig.SetEnabled | src/main/java/com/example/plugin/mock/MockMethodConfig.java:50-52 | sets the enabled flag and no other field |
| LegacyMethodSpec.MockMethodConfig.FullMethodName | src/main/java/com/example/plugin/mock/MockMethodConfig.java:54-56 | class name, a dot, method name and signature, null parts written as "null" |
| RuleStore.NewRule | src/main/java/io/github/lancelothuxi/idea/plugin/mock/mock/MockConfig.java:147-154 | a fresh rule has no value or type, is enabled, is in value mode, and has the default exception type and message |
| RuleStore.ValueRule | src/main/java/io/github/lancelothuxi/idea/plugin/mock/mock/MockConfig.java:156-159 | the two-argument constructor changes only value and type from the defaults |
| RuleStore.FullRule | src/main/java/io/github/lancelothuxi/idea/plugin/mock/mock/MockConfig.java:161-167 | the five-argument constructor sets value, type, mode, exception type and message, and keeps the rule enabled |
| RuleStore.InferReturnType | src/main/java/io/github/lancelothuxi/idea/plugin/mock/mock/MockConfig.java:88-105 | each of the five answers is given for exactly its class of values: null or empty gives Object, "[..." gives List, "true"/"false" give boolean, an `Integer.parseInt` success gives int, everything else gives String |
| RuleStore.ParsedIntShape | src/main/java/io/github/lancelothuxi/idea/plugin/mock/mock/MockConfig.java:92-100 | text `Integer.parseInt` accepts never opens with '[' and is never "true" or "false", so the int answer is reached |
| RuleStore.SpecKeyIsFullMethodName | src/main/java/io/github/lancelothuxi/idea/plugin/mock/mock/MockConfig.java:35-40 | the identity the store de-duplicates by is the spec's `getFullMethodName`, and it extends the spec's rule key |
| RuleStore.RuleKeyCollision | src/main/java/io/github/lancelothuxi/idea/plugin/mock/mock/MockConfig.java:19-27 | ("a.b", "c") and ("a", "b.c") share the rule key "a.b.c" |
| RuleStore.EffectiveReturnType | src/main/java/io/github/lancelothuxi/idea/plugin/mock/mock/MockConfig.java:48-51 | a rule's type is never null or empty: the spec's own type, else the one inferred from the value |
| RuleStore.RuleFromSpec | src/main/java/io/github/lancelothuxi/idea/plugin/mock/mock/MockConfig.java:48-59 | the derived rule copies value, mode, exception type, message and enabled flag, and has a non-empty type |
| RuleStore.WithoutKey | src/main/java/io/github/lancelothuxi/idea/plugin/mock/mock/MockConfig.java:38-41 | the `removeIf` result is no longer than the list |
| RuleStore.WithoutKeyMembers | src/main/java/io/github/lancelothuxi/idea/plugin/mock/mock/MockConfig.java:38-41 | the `removeIf` keeps exactly the specs whose identity differs from the key |
| RuleStore.WithoutKeyAppend | src/main/java/io/github/lancelothuxi/idea/plugin/mock/mock/MockConfig.java:38-41 | the `removeIf` keeps the list's order: removing from a concatenation is removing from each part, in sequence |
| RuleStore.AnyHasKey | src/main/java/io/github/lancelothuxi/idea/plugin/mock/mock/MockConfig.java:131-137 | true exactly when some spec has the identity |
| RuleStore.RulesFromCoversSpecs | src/main/java/io/github/lancelothuxi/idea/plugin/mock/mock/MockConfig.java:67-86 | every spec's rule key is in the rebuilt map |
| RuleStore.RulesFromOnlySpecKeys | src/main/java/io/github/lancelothuxi/idea/plugin/mock/mock/MockConfig.java:67-86 | the rebuilt map holds no key that is not some spec's rule key |
| RuleStore.RulesFromLastWins | src/main/java/io/github/lancelothuxi/idea/plugin/mock/mock/MockConfig.java:67-86 | the rebuilt rule for a key comes from the last spec with that key, so overloads collapse |
| RuleStore.AppendAfterRemove | src/main/java/io/github/lancelothuxi/idea/plugin/mock/mock/MockConfig.java:38-44 | after the removal and the append, only the appended spec has the identity |
| RuleStore.KeptSpecs | src/main/java/io/github/lancelothuxi/idea/plugin/mock/mock/MockConfig.java:108-112 | the scan computes the `removeIf` result |
| RuleStore.MockConfig.constructor | src/main/java/io/github/lancelothuxi/idea/plugin/mock/mock/MockConfig.java:16-17 | a new store has no rules and no specs |
| RuleStore.MockConfig.GetMockRule | src/main/java/io/github/lancelothuxi/idea/plugin/mock/mock/MockConfig.java:24-27 | a rule is found exactly when the map holds `className + "." + methodName`, a null class name reading as "null"; a found rule is one the map holds |
| RuleStore.MockConfig.AddMockRule | src/main/java/io/github/lancelothuxi/idea/plugin/mock/mock/MockConfig.java:19-27 | the rule under `className.methodName` is replaced, every other key keeps its rule, and a lookup then finds the new rule |
| RuleStore.MockConfig.AddMockMethod | src/main/java/io/github/lancelothuxi/idea/plugin/mock/mock/MockConfig.java:33-61 | earlier specs with the same identity go and the new one is appended, so it is the only one with that identity; the rule map gets the spec's derived rule |
| RuleStore.MockConfig.RebuildMockRules | src/main/java/io/github/lancelothuxi/idea/plugin/mock/mock/MockConfig.java:67-86 | the map becomes exactly the one derived from the spec list in order, and the list is unchanged |
| RuleStore.MockConfig.RemoveMockMethod | src/main/java/io/github/lancelothuxi/idea/plugin/mock/mock/MockConfig.java:107-117 | the specs with the identity go, and the rule `className.methodName` is always deleted |
| RuleStore.MockConfig.RemoveMockMethodNoSignature | src/main/java/io/github/lancelothuxi/idea/plugin/mock/mock/MockConfig.java:120-122 | with the signature "", the rule goes but specs of that method with a non-empty signature stay |
| RuleStore.MockConfig.HasMockMethod | src/main/java/io/github/lancelothuxi/idea/plugin/mock/mock/MockConfig.java:131-137 | true exactly when some spec has an equal identity |
| RuleStore.MockConfig.ClearAll | src/main/java/io/github/lancelothuxi/idea/plugin/mock/mock/MockConfig.java:139-142 | both collections are empty |
| RuleStore.NewServiceSpec | src/test/java/test/ConfigSwitchingTest.java:108-116 | builds a spec for `test.Service.testMethod` with exactly the given settings |
| RuleStore.UpdateSameMethodMultipleTimes | src/test/java/test/ConfigSwitchingTest.java:104-154 | re-adding a spec for the same method switches the stored rule to exception, then to value "value2", then to the new exception settings |
| LegacyRuleStore.NewRule | src/main/java/com/example/plugin/mock/MockConfig.java:55-59 | a new legacy rule has no value or type and is enabled |
| LegacyRuleStore.ValueRule | src/main/java/com/example/plugin/mock/MockConfig.java:61-64 | the two-argument constructor sets value and type only |
| LegacyRuleStore.AnyThrows | src/main/java/com/example/plugin/mock/MockConfig.java:37-41 | true exactly when some spec makes the removal's filter throw a NullPointerException |
| LegacyRuleStore.Unmatched | src/main/java/com/example/plugin/mock/MockConfig.java:37-41 | the removal result is no longer than the list |
| LegacyRuleStore.UnmatchedMembers | src/main/java/com/example/plugin/mock/MockConfig.java:37-41 | the removal keeps exactly the specs the filter does not select |
| LegacyRuleStore.UnmatchedAppend | src/main/java/com/example/plugin/mock/MockConfig.java:37-41 | the removal keeps the list's order: removing from a concatenation is removing from each part, in sequence |
| LegacyRuleStore.MockConfig.constructor | src/main/java/com/example/plugin/mock/MockConfig.java:16-17 | a new legacy store is empty |
| LegacyRuleStore.MockConfig.GetMockRule | src/main/java/com/example/plugin/mock/MockConfig.java:24-27 | a rule is found exactly when the map holds `className + "." + methodName`, a null class name reading as "null"; a found rule is one the map holds |
| LegacyRuleStore.MockConfig.AddMockRule | src/main/java/com/example/plugin/mock/MockConfig.java:19-27 | a put under `className.methodName` that a lookup then finds |
| LegacyRuleStore.MockConfig.AddMockMethod | src/main/java/com/example/plugin/mock/MockConfig.java:33-35 | appends with duplicates and leaves the rules alone |
| LegacyRuleStore.MockConfig.RemoveMockMethod | src/main/java/com/example/plugin/mock/MockConfig.java:37-41 | it throws exactly when some spec makes the filter throw, and then nothing changes; otherwise every spec of that class and method goes, whatever its signature; the rules are untouched |
| LegacyRuleStore.MockConfig.ClearAll | src/main/java/com/example/plugin/mock/MockConfig.java:47-50 | both collections are empty |
| Agent.GsonParse | src/main/java/io/github/lancelothuxi/idea/plugin/mock/agent/MockAgent.java:193-236 | Gson yields the requested shape of the text, or its exception becomes null |
| Agent.ElementType | src/main/java/io/github/lancelothuxi/idea/plugin/mock/agent/MockAgent.java:196-200 | X sits between the first '<' and the final '>' of the descriptor |
| Agent.ParseMockValue | src/main/java/io/github/lancelothuxi/idea/plugin/mock/agent/MockAgent.java:165-245 | a null value or descriptor gives null; "java.lang.String" gives the text itself; a structured value comes only from text opening with '[' or '{', parsed as it is |
| Agent.ParseScalarKinds | src/main/java/io/github/lancelothuxi/idea/plugin/mock/agent/MockAgent.java:168-191 | int and long descriptors give their parsed number or null on failure; boolean descriptors give exactly `Boolean.parseBoolean` of the text, "true" true and "false" false; "java.lang.String" returns the text |
| Agent.PlainTextPassesThrough | src/main/java/io/github/lancelothuxi/idea/plugin/mock/agent/MockAgent.java:239-244 | text not opening with '[' or '{' comes back unchanged for every non-scalar descriptor |
| Agent.GenericListElement | src/main/java/io/github/lancelothuxi/idea/plugin/mock/agent/MockAgent.java:193-205 | for `List<X>`, an X that `Class.forName` finds gives a typed list, otherwise an untyped list |
| Agent.StructuredTextShapes | src/main/java/io/github/lancelothuxi/idea/plugin/mock/agent/MockAgent.java:206-236 | a descriptor naming List gives a list, else one naming Map a map; only a resolvable class is built by name; an unknown name falls back to list or map by the opening bracket |
| Agent.ContainsAt | src/main/java/io/github/lancelothuxi/idea/plugin/mock/agent/MockAgent.java:206-212 | `contains` holds for a part found at a known position |
| Agent.InferredTypeCoercion | src/main/java/io/github/lancelothuxi/idea/plugin/mock/mock/MockConfig.java:88-105 | a value typed by inference is coerced as intended: int text to its number, "true"/"false" to booleans, plain text to itself, "[..." to a list |
| Agent.CreateException | src/main/java/io/github/lancelothuxi/idea/plugin/mock/agent/MockAgent.java:247-257 | the message is always kept; the class is the named one only when it resolves, is an Exception and has a working (String) constructor, otherwise RuntimeException |
| Agent.InterceptConcrete | src/main/java/io/github/lancelothuxi/idea/plugin/mock/agent/MockAgent.java:124-162 | a throw carries the message of an exception-mode rule; a returned value comes only from a value-mode rule |
| Agent.InterceptInterface | src/main/java/io/github/lancelothuxi/idea/plugin/mock/agent/MockAgent.java:266-303 | the interface interceptor never falls through to an original, and what it returns is what the concrete one returns |
| Agent.ConcreteDispatch | src/main/java/io/github/lancelothuxi/idea/plugin/mock/agent/MockAgent.java:124-162 | the original is called exactly for a null config, no rule or a disabled rule; the call throws exactly for an enabled exception-mode rule; otherwise it returns the parsed value |
| Agent.InterfaceNeverFallsThrough | src/main/java/io/github/lancelothuxi/idea/plugin/mock/agent/MockAgent.java:266-303 | the interface interceptor never calls an original; with an enabled rule it agrees with the concrete one; a null config is an IllegalStateException; otherwise it is an UnsupportedOperationException naming `class.method` |
| Agent.SpecDrivesCall | src/main/java/io/github/lancelothuxi/idea/plugin/mock/agent/MockAgent.java:130-157 | a spec stored through the rule store drives the call: exception mode throws its exception, and value mode without a type returns the value coerced by the inferred type |
| Agent.MethodNameOf | src/main/java/io/github/lancelothuxi/idea/plugin/mock/agent/MockAgent.java:63-69 | a method name is found exactly when the key starts with `className + "."`, and then class, dot and name rebuild the key |
| Agent.DottedKeys | src/main/java/io/github/lancelothuxi/idea/plugin/mock/agent/MockAgent.java:63-69 | method names may hold dots: "a.B.c.d" binds "c.d" in "a.B" and "B.c.d" in "a", but nothing in "a.Bc" |
| Agent.MockAgent.constructor | src/main/java/io/github/lancelothuxi/idea/plugin/mock/agent/MockAgent.java:22-26 | the agent starts with no config and no transformer |
| Agent.MockAgent.LoadMockConfig | src/main/java/io/github/lancelothuxi/idea/plugin/mock/agent/MockAgent.java:94-115 | a failed read keeps the old config; a null read clears it; a loaded config keeps its specs and has its rules rebuilt exactly when its map is empty and its spec list is not |
| Agent.MockAgent.Premain | src/main/java/io/github/lancelothuxi/idea/plugin/mock/agent/MockAgent.java:28-49 | the config is loaded only for a non-empty argument, and the transformer is installed exactly when a config with a non-empty rule map is then present |
| Agent.MockAgent.Transform | src/main/java/io/github/lancelothuxi/idea/plugin/mock/agent/MockAgent.java:60-85 | a method is bound exactly when `className.method` holds an enabled rule, to the interface interceptor for an interface and the concrete one otherwise |
| Agent.MockAgent.Intercept | src/main/java/io/github/lancelothuxi/idea/plugin/mock/agent/MockAgent.java:124-162 | with no config, or no rule under `className.methodName`, the original is called |
| Agent.MockAgent.InterceptForInterface | src/main/java/io/github/lancelothuxi/idea/plugin/mock/agent/MockAgent.java:266-303 | never calls an original; with no config it throws an IllegalStateException |
| LegacyAgent.LegacyParseComparedToCurrent | src/main/java/com/example/plugin/agent/MockInterceptor.java:36-66 | the legacy parser never builds a structured value, agrees with the current one on scalar descriptors, and returns the text itself for every other descriptor |
| LegacyAgent.LegacyParseMockValue | src/main/java/com/example/plugin/agent/MockInterceptor.java:36-66 | a null value or descriptor gives null; no structured value is ever built; text comes back as it was written |
| LegacyAgent.OnMethodExit | src/main/java/com/example/plugin/agent/MockInterceptor.java:14-34 | the returned value changes only to a non-null value, and only under an enabled rule |
| LegacyAgent.ExitAdviceKeepsOrReplaces | src/main/java/com/example/plugin/agent/MockInterceptor.java:14-34 | the original result is kept for a null config, a missing or disabled rule or a value that parses to null, and is otherwise replaced by the parsed value |
| LegacyAgent.UnparsableIntKeepsOriginal | src/main/java/com/example/plugin/agent/MockInterceptor.java:41-48 | an int rule whose text does not parse keeps the original result |
| LegacyAgent.LegacyMockAgent.constructor | src/main/java/com/example/plugin/agent/MockAgent.java:18 | the agent starts with no config and no transformer |
| LegacyAgent.LegacyMockAgent.LoadMockConfig | src/main/java/com/example/plugin/agent/MockAgent.java:63-72 | the loaded config is kept as it is and its rules are never rebuilt; a failed read changes nothing |
| LegacyAgent.LegacyMockAgent.Premain | src/main/java/com/example/plugin/agent/MockAgent.java:20-31 | the transformer is installed exactly when a config with a non-empty rule map is present after loading |
| LegacyAgent.LegacyMockAgent.Transform | src/main/java/com/example/plugin/agent/MockAgent.java:40-56 | a method gets the exit advice exactly when `className.method` holds an enabled rule |
| LegacyAgent.LegacyMockAgent.AfterCall | src/main/java/com/example/plugin/agent/MockInterceptor.java:14-34 | with no config the original result is kept; a replaced result is never null |
| Psi.Resolve | src/main/java/io/github/lancelothuxi/idea/plugin/mock/util/MockValueGenerator.java:54-58 | `resolve()` finds a class exactly for a class type the IDE knows |
| Psi.EnteringUsesBudget | src/main/java/io/github/lancelothuxi/idea/plugin/mock/util/MockValueGenerator.java:140-144 | entering a named class not in progress strictly shrinks the names left to enter, which bounds the recursion |
| JsonValue.Put | src/main/java/io/github/lancelothuxi/idea/plugin/mock/util/MockValueGenerator.java:162 | `LinkedHashMap.put`: a present key keeps its position, an absent one is appended, and a lookup finds the new value |
| JsonValue.PutOthers | src/main/java/io/github/lancelothuxi/idea/plugin/mock/util/MockValueGenerator.java:162 | a put leaves every other key's value alone |
| ValueGenerator.GetterField | src/main/java/io/github/lancelothuxi/idea/plugin/mock/util/MockValueGenerator.java:173-178 | `getX` and `isX` both give the property x with its first letter lowered |
| ValueGenerator.ObjectJson | src/main/java/io/github/lancelothuxi/idea/plugin/mock/util/MockValueGenerator.java:138-142 | "null" exactly for a class without a name or one already in progress; otherwise the object of its kept fields, and the object of its getters exactly when no field is kept |
| ValueGenerator.ListValue | src/main/java/io/github/lancelothuxi/idea/plugin/mock/util/MockValueGenerator.java:102-119 | "[]" exactly without a type argument; otherwise one sample element, repeated once more exactly when it is an object map |
| ValueGenerator.MapValue | src/main/java/io/github/lancelothuxi/idea/plugin/mock/util/MockValueGenerator.java:121-136 | "{}" exactly with fewer than two type arguments; otherwise one entry from the key and value samples |
| ValueGenerator.FixedLiterals | src/main/java/io/github/lancelothuxi/idea/plugin/mock/util/MockValueGenerator.java:27-51 | the primitive and boxed names give "1", "1L", "1.0", "1.0f", "true", "\"sample_string\"", and void gives "void" |
| ValueGenerator.TopLevelExpandsProjectClass | src/main/java/io/github/lancelothuxi/idea/plugin/mock/util/MockValueGenerator.java:18-25 | a top-level call starts with nothing in progress, so a named project class is always expanded to its object, never "null" |
| ValueGenerator.Generate | src/main/java/io/github/lancelothuxi/idea/plugin/mock/util/MockValueGenerator.java:18-25 | a null type gives "null"; "void" comes out exactly for the void type |
| ValueGenerator.GenerateInternal | src/main/java/io/github/lancelothuxi/idea/plugin/mock/util/MockValueGenerator.java:27-100 | "void" comes out exactly for the void type, and serialized JSON is always an array or an object |
| ValueGenerator.DefaultObject | src/main/java/io/github/lancelothuxi/idea/plugin/mock/util/MockValueGenerator.java:194-287 | a string sample comes out exactly for the `String` type |
| ValueGenerator.InProgressClassIsNull | src/main/java/io/github/lancelothuxi/idea/plugin/mock/util/MockValueGenerator.java:240-243 | a project class already in progress is not expanded again: its sample is null |
| ValueGenerator.KeptFieldPresent | src/main/java/io/github/lancelothuxi/idea/plugin/mock/util/MockValueGenerator.java:150-163 | every field that is neither static nor final is a key of the object map |
| ValueGenerator.SkippedFieldAbsent | src/main/java/io/github/lancelothuxi/idea/plugin/mock/util/MockValueGenerator.java:150-163 | a name only static or final fields carry is not a key |
| ValueGenerator.GetterPresent | src/main/java/io/github/lancelothuxi/idea/plugin/mock/util/MockValueGenerator.java:166-186 | every usable getter's property is a key of the getter map |
| ValueGenerator.NoGetterAbsent | src/main/java/io/github/lancelothuxi/idea/plugin/mock/util/MockValueGenerator.java:166-186 | a property no usable getter reads is not a key |
| ValueGenerator.NoKeptFieldIsEmpty | src/main/java/io/github/lancelothuxi/idea/plugin/mock/util/MockValueGenerator.java:150-163 | without a kept field the field map is empty |
| ValueGenerator.FieldsHideGetters | src/main/java/io/github/lancelothuxi/idea/plugin/mock/util/MockValueGenerator.java:138-192 | a class with a kept field is shown by its fields only: a property that only a getter reads is absent |
| ValueGenerator.GettersWhenNoField | src/main/java/io/github/lancelothuxi/idea/plugin/mock/util/MockValueGenerator.java:138-192 | a class without a kept field is shown by its getters: every usable getter's property is present |
| ValueGenerator.FirstGetterWins | src/main/java/io/github/lancelothuxi/idea/plugin/mock/util/MockValueGenerator.java:166-186 | a property's value comes from the first usable getter naming it |
| ValueGenerator.NestedObjectFieldIsNull | src/main/java/io/github/lancelothuxi/idea/plugin/mock/util/MockValueGenerator.java:256-267 | inside a nested object, a field of a named project-class type is null, which caps the depth |
| ValueGenerator.MockValueGenerator.constructor | src/main/java/io/github/lancelothuxi/idea/plugin/mock/util/MockValueGenerator.java:16 | the generator starts with nothing in progress |
| ValueGenerator.MockValueGenerator.GenerateMockValue | src/main/java/io/github/lancelothuxi/idea/plugin/mock/util/MockValueGenerator.java:18-25 | computes the specified value, clearing the in-progress set for a non-null type |
| ValueGenerator.MockValueGenerator.GenerateMockValueInternal | src/main/java/io/github/lancelothuxi/idea/plugin/mock/util/MockValueGenerator.java:27-100 | computes the specified value and leaves the in-progress set as it found it |
| ValueGenerator.MockValueGenerator.GenerateListMockValue | src/main/java/io/github/lancelothuxi/idea/plugin/mock/util/MockValueGenerator.java:102-119 | computes the list sample and restores the in-progress set |
| ValueGenerator.MockValueGenerator.GenerateMapMockValue | src/main/java/io/github/lancelothuxi/idea/plugin/mock/util/MockValueGenerator.java:121-136 | computes the map sample and restores the in-progress set |
| ValueGenerator.MockValueGenerator.GenerateObjectJson | src/main/java/io/github/lancelothuxi/idea/plugin/mock/util/MockValueGenerator.java:138-191 | computes the object sample; the class's removal in `finally` restores the in-progress set |
| ValueGenerator.MockValueGenerator.ObjectFieldsLoop | src/main/java/io/github/lancelothuxi/idea/plugin/mock/util/MockValueGenerator.java:147-163 | the field loop computes the field map and restores the in-progress set |
| ValueGenerator.MockValueGenerator.GetterLoop | src/main/java/io/github/lancelothuxi/idea/plugin/mock/util/MockValueGenerator.java:166-186 | the getter loop computes the getter map and restores the in-progress set |
| ValueGenerator.MockValueGenerator.GetDefaultValueObject | src/main/java/io/github/lancelothuxi/idea/plugin/mock/util/MockValueGenerator.java:194-287 | computes the field sample and restores the in-progress set |
| ValueGenerator.MockValueGenerator.NestedFieldsLoop | src/main/java/io/github/lancelothuxi/idea/plugin/mock/util/MockValueGenerator.java:249-269 | the nested field loop computes the nested map with project-class fields set to null |
| LegacyValueGenerator.DefaultValue | src/main/java/com/example/plugin/util/MockValueGenerator.java:109-151 | the corrected `getDefaultValue` agrees with the written one wherever that one does not throw |
| LegacyValueGenerator.AsWrittenThrowsOnlyOnUnnamedClass | src/main/java/com/example/plugin/util/MockValueGenerator.java:141-148 | the written version throws exactly on a resolvable class without a qualified name that the name tests above do not catch |
| LegacyValueGenerator.DefaultValueAsWritten | src/main/java/com/example/plugin/util/MockValueGenerator.java:109-151 | the written version throws only on a resolvable class type without a qualified name |
| LegacyValueGenerator.TypeParameterFieldThrows | src/main/java/com/example/plugin/util/MockValueGenerator.java:144 | a field typed by a type parameter `T` makes the written version throw |
| LegacyValueGenerator.NestedObjectsAreNull | src/main/java/com/example/plugin/util/MockValueGenerator.java:141-150 | every class type the names do not catch is null: nested objects are never expanded |
| LegacyValueGenerator.LongIsIntegerZero | src/main/java/com/example/plugin/util/MockValueGenerator.java:115-117 | long types get the integer 0, the same value as int types |
| LegacyValueGenerator.ObjectJson | src/main/java/com/example/plugin/util/MockValueGenerator.java:73-107 | the object sample is always a JSON object: the field map when some field is not static, otherwise the getter map |
| LegacyValueGenerator.NumberLiterals | src/main/java/com/example/plugin/util/MockValueGenerator.java:21-35 | the primitive and boxed numeric names give "0", "0L", "0.0" and "0.0f" |
| LegacyValueGenerator.WordLiterals | src/main/java/com/example/plugin/util/MockValueGenerator.java:16-44 | boolean and Boolean give "false", String gives "\"mock_string\"", and void gives "void" |
| LegacyValueGenerator.Generate | src/main/java/com/example/plugin/util/MockValueGenerator.java:16-71 | a null type gives "null"; serialized JSON comes only from a class type that resolves, and is an object |
| LegacyValueGenerator.FixedNamesHaveNoBrackets | src/main/java/com/example/plugin/util/MockValueGenerator.java:24-44 | a name with '<' or ']' is none of the fixed names, so collections and arrays reach their own tests |
| LegacyValueGenerator.CollectionsAreEmptyArrays | src/main/java/com/example/plugin/util/MockValueGenerator.java:47-51 | `List<`, `ArrayList<`, `Set<` and `HashSet<` names give "[]" |
| LegacyValueGenerator.MapsAreEmptyObjects | src/main/java/com/example/plugin/util/MockValueGenerator.java:52-55 | `Map<` and `HashMap<` names give "{}" |
| LegacyValueGenerator.ArraysAreEmptyArrays | src/main/java/com/example/plugin/util/MockValueGenerator.java:56-60 | arrays give "[]" unless their name reads as a map |
| LegacyValueGenerator.ArrayOfMapsReadsAsMap | src/main/java/com/example/plugin/util/MockValueGenerator.java:52-60 | an array of maps is shown as `Map<..>[]`, which the map test sees first: it gives "{}" |
| LegacyValueGenerator.ResolvedClassGivesObject | src/main/java/com/example/plugin/util/MockValueGenerator.java:21-67 | a class type that resolves and that none of the fixed-name, collection or map tests catches generates its `ObjectJson`, a JSON object |
| LegacyValueGenerator.UnresolvedGivesNull | src/main/java/com/example/plugin/util/MockValueGenerator.java:63-70 | a class type that does not resolve gives "null", as a missing type does |
| LegacyValueGenerator.NonStaticFieldPresent | src/main/java/com/example/plugin/util/MockValueGenerator.java:77-89 | every non-static field, final ones included, is a key of the field map |
| LegacyValueGenerator.StaticFieldAbsent | src/main/java/com/example/plugin/util/MockValueGenerator.java:77-89 | a name only static fields carry is not a key |
| LegacyValueGenerator.LastGetterWins | src/main/java/com/example/plugin/util/MockValueGenerator.java:92-104 | a property's value comes from the last usable getter naming it |
| LegacyValueGenerator.GetterPresent | src/main/java/com/example/plugin/util/MockValueGenerator.java:92-104 | every usable getter's property is a key of the getter map |
| LegacyValueGenerator.AllStaticIsEmpty | src/main/java/com/example/plugin/util/MockValueGenerator.java:77-89 | when every field is static the field map is empty |
| LegacyValueGenerator.FieldsHideGetters | src/main/java/com/example/plugin/util/MockValueGenerator.java:73-107 | a class with a non-static field is shown by its fields only: a property that only a getter reads is absent |
| LegacyValueGenerator.GettersWhenAllStatic | src/main/java/com/example/plugin/util/MockValueGenerator.java:73-107 | a class whose fields are all static is shown by its getters: every usable getter's property is present |
| LegacyValueGenerator.GenerateObjectJson | src/main/java/com/example/plugin/util/MockValueGenerator.java:73-107 | the two loops compute the specified object sample |
| LegacyValueGenerator.ObjectFieldsStep | src/main/java/com/example/plugin/util/MockValueGenerator.java:78-89 | one more field extends the field map by at most one put |
| LegacyValueGenerator.GetterEntriesStep | src/main/java/com/example/plugin/util/MockValueGenerator.java:94-103 | one more method extends the getter map by at most one put |
| LegacyValueGenerator.FieldLoop | src/main/java/com/example/plugin/util/MockValueGenerator.java:77-89 | the loop computes the field map |
| LegacyValueGenerator.GetterLoop | src/main/java/com/example/plugin/util/MockValueGenerator.java:92-104 | the loop computes the getter map |
| JsonFormat.Next | src/main/java/io/github/lancelothuxi/idea/plugin/mock/ui/JsonTableCellRenderer.java:223-240 | an unescaped quote toggles the in-string flag; a backslash escapes exactly the next character |
| JsonFormat.Indent | src/main/java/io/github/lancelothuxi/idea/plugin/mock/ui/JsonTableCellRenderer.java:322-326 | the indent is spaces only |
| JsonFormat.VisibleAppend | src/main/java/io/github/lancelothuxi/idea/plugin/mock/ui/JsonTableCellRenderer.java:218-257 | the visible characters of a concatenation are those of each part |
| JsonFormat.MinifyIsSubsequence | src/main/java/io/github/lancelothuxi/idea/plugin/mock/ui/JsonTableCellRenderer.java:218-257 | minified text is a subsequence of the input |
| JsonFormat.MinifyKeepsVisible | src/main/java/io/github/lancelothuxi/idea/plugin/mock/ui/JsonTableCellRenderer.java:218-257 | every non-whitespace character survives, so only whitespace is dropped |
| JsonFormat.MinifyKeepsStringBody | src/main/java/io/github/lancelothuxi/idea/plugin/mock/ui/JsonTableCellRenderer.java:228-240 | inside a string, text without quotes or backslashes is kept verbatim, whitespace included |
| JsonFormat.MinifyKeepsStringLiteral | src/main/java/io/github/lancelothuxi/idea/plugin/mock/ui/JsonTableCellRenderer.java:228-240 | a quoted literal without quotes or backslashes comes out unchanged |
| JsonFormat.MinifyKeepsEscape | src/main/java/io/github/lancelothuxi/idea/plugin/mock/ui/JsonTableCellRenderer.java:223-232 | a backslash and the character after it are both kept, whatever that character is |
| JsonFormat.MinifyAppend | src/main/java/io/github/lancelothuxi/idea/plugin/mock/ui/JsonTableCellRenderer.java:218-257 | the minifier reads a concatenation's second part in the state the first leaves |
| JsonFormat.MinifyOfLayout | src/main/java/io/github/lancelothuxi/idea/plugin/mock/ui/JsonTableCellRenderer.java:241-248 | spaces and newlines outside strings leave no trace and no change of state |
| JsonFormat.ChunkMinifies | src/main/java/io/github/lancelothuxi/idea/plugin/mock/ui/JsonTableCellRenderer.java:259-320 | what the pretty-printer emits for one character minifies to what the minifier keeps of it, and ends in the same state |
| JsonFormat.PrettyThenMinify | src/main/java/io/github/lancelothuxi/idea/plugin/mock/ui/JsonTableCellRenderer.java:259-320 | pretty-printing changes layout only: minifying its output gives the minified input, from any state and at any indent |
| JsonFormat.PrettyPreservesMinified | src/main/java/io/github/lancelothuxi/idea/plugin/mock/ui/JsonTableCellRenderer.java:259-320 | `minify(prettyPrint(s)) == minify(s)` |
| JsonFormat.PrettyKeepsStringBody | src/main/java/io/github/lancelothuxi/idea/plugin/mock/ui/JsonTableCellRenderer.java:264-280 | inside a string, the pretty-printer copies text without quotes or backslashes verbatim |
| JsonFormat.PrettyLayout | src/main/java/io/github/lancelothuxi/idea/plugin/mock/ui/JsonTableCellRenderer.java:282-316 | a newline and one more level after `{` and `[`, a newline and one level less before `}` and `]`, a newline after `,`, and ": " for `:` |
| JsonFormat.MinifyStep | src/main/java/io/github/lancelothuxi/idea/plugin/mock/ui/JsonTableCellRenderer.java:222-256 | one loop iteration of the minifier appends the chunk for the current character |
| JsonFormat.PrettyStep | src/main/java/io/github/lancelothuxi/idea/plugin/mock/ui/JsonTableCellRenderer.java:263-318 | one loop iteration of the pretty-printer appends the chunk for the current character |
| JsonFormat.MinifyJson | src/main/java/io/github/lancelothuxi/idea/plugin/mock/ui/JsonTableCellRenderer.java:218-257 | the character loop computes the minified text |
| JsonFormat.AddIndent | src/main/java/io/github/lancelothuxi/idea/plugin/mock/ui/JsonTableCellRenderer.java:322-326 | appends two spaces per level |
| JsonFormat.AppendStructural | src/main/java/io/github/lancelothuxi/idea/plugin/mock/ui/JsonTableCellRenderer.java:282-316 | the structural branch appends the layout for its character and moves the indent |
| JsonFormat.PrettyPrintJson | src/main/java/io/github/lancelothuxi/idea/plugin/mock/ui/JsonTableCellRenderer.java:259-320 | the character loop computes the pretty-printed text |
| JsonCellRenderer.IsJson | src/main/java/io/github/lancelothuxi/idea/plugin/mock/ui/JsonTableCellRenderer.java:208-216 | true exactly for text whose trimmed form is non-empty and wrapped in `{}` or `[]` |
| JsonCellRenderer.DisplayText | src/main/java/io/github/lancelothuxi/idea/plugin/mock/ui/JsonTableCellRenderer.java:112-146 | display text is at most 200 characters, and "<empty>" for null or blank text; short JSON shows as its minified form, short plain text as its cleaned form |
| JsonCellRenderer.TooltipText | src/main/java/io/github/lancelothuxi/idea/plugin/mock/ui/JsonTableCellRenderer.java:148-171 | tooltip text is at most 1000 characters, and "<empty>" for null or blank text; short JSON shows pretty-printed; plain text is its own text cut to 1000 characters with "...", short plain text shown whole |
| JsonCellRenderer.DisplayTruncates | src/main/java/io/github/lancelothuxi/idea/plugin/mock/ui/JsonTableCellRenderer.java:138-140 | long display text is its first 197 characters and "..."; short text is shown whole |
| JsonCellRenderer.DisplayOfJson | src/main/java/io/github/lancelothuxi/idea/plugin/mock/ui/JsonTableCellRenderer.java:126-127 | short JSON shows as a subsequence of the input that keeps every visible character |
| JsonCellRenderer.DotsKeepShape | src/main/java/io/github/lancelothuxi/idea/plugin/mock/ui/JsonTableCellRenderer.java:138-140 | appending "..." to cleaned text keeps it clean |
| JsonCellRenderer.DisplayOfPlainText | src/main/java/io/github/lancelothuxi/idea/plugin/mock/ui/JsonTableCellRenderer.java:128-140 | displayed plain text has no whitespace runs and only plain spaces, and is the cleaned text, whole or cut with "..."; a short cleaned text keeps every non-`\s` character of the input when the input has no other control characters |
| JsonCellRenderer.TooltipAgreesWithDisplay | src/main/java/io/github/lancelothuxi/idea/plugin/mock/ui/JsonTableCellRenderer.java:126-157 | minifying the tooltip of short JSON gives its display text |
| JsonCellRenderer.ReplaceChar | src/main/java/io/github/lancelothuxi/idea/plugin/mock/ui/JsonTableCellRenderer.java:331-338 | a character replaced by text without it is gone |
| JsonCellRenderer.ReplaceAppend | src/main/java/io/github/lancelothuxi/idea/plugin/mock/ui/JsonTableCellRenderer.java:331-338 | `replace` works piecewise on a concatenation |
| JsonCellRenderer.ReplaceAbsent | src/main/java/io/github/lancelothuxi/idea/plugin/mock/ui/JsonTableCellRenderer.java:331-338 | replacing an absent character changes nothing |
| JsonCellRenderer.EscapeHtml | src/main/java/io/github/lancelothuxi/idea/plugin/mock/ui/JsonTableCellRenderer.java:328-329 | null escapes to the empty text |
| JsonCellRenderer.ReplaceAllAppend | src/main/java/io/github/lancelothuxi/idea/plugin/mock/ui/JsonTableCellRenderer.java:331-338 | a chain of replacements works piecewise on a concatenation |
| JsonCellRenderer.ReplaceAllAbsent | src/main/java/io/github/lancelothuxi/idea/plugin/mock/ui/JsonTableCellRenderer.java:331-338 | text no step touches comes through unchanged |
| JsonCellRenderer.ReplaceAllOne | src/main/java/io/github/lancelothuxi/idea/plugin/mock/ui/JsonTableCellRenderer.java:331-338 | a character first replaced by step j ends as that step's text when no later step touches it |
| JsonCellRenderer.ReplaceAllNone | src/main/java/io/github/lancelothuxi/idea/plugin/mock/ui/JsonTableCellRenderer.java:331-338 | a character no step replaces comes through unchanged |
| JsonCellRenderer.EscapeOneChar | src/main/java/io/github/lancelothuxi/idea/plugin/mock/ui/JsonTableCellRenderer.java:331-338 | one character goes through the whole chain to exactly its own escape |
| JsonCellRenderer.EscapeMarkupChar | src/main/java/io/github/lancelothuxi/idea/plugin/mock/ui/JsonTableCellRenderer.java:331-333 | `&`, `<` and `>` each become exactly their entity |
| JsonCellRenderer.EscapeQuoteChar | src/main/java/io/github/lancelothuxi/idea/plugin/mock/ui/JsonTableCellRenderer.java:334-335 | `"` and `'` each become exactly their entity |
| JsonCellRenderer.EscapeLayoutChar | src/main/java/io/github/lancelothuxi/idea/plugin/mock/ui/JsonTableCellRenderer.java:336-338 | space, newline and tab become "&nbsp;", "<br>" and four "&nbsp;" |
| JsonCellRenderer.EscapeIsPerChar | src/main/java/io/github/lancelothuxi/idea/plugin/mock/ui/JsonTableCellRenderer.java:328-339 | the chain escapes each character on its own: no step rewrites another's output |
| JsonCellRenderer.EscapeCharIsSafe | src/main/java/io/github/lancelothuxi/idea/plugin/mock/ui/JsonTableCellRenderer.java:331-338 | no escape holds a quote, apostrophe, space, tab or newline, and only the newline's holds angle brackets |
| JsonCellRenderer.EachIsSafe | src/main/java/io/github/lancelothuxi/idea/plugin/mock/ui/JsonTableCellRenderer.java:328-339 | the same holds for a whole escaped text |
| JsonCellRenderer.EscapedHasNoRawSpecials | src/main/java/io/github/lancelothuxi/idea/plugin/mock/ui/JsonTableCellRenderer.java:328-339 | no quote, apostrophe, space, tab or newline is left in escaped text |
| JsonCellRenderer.EscapedHasNoTags | src/main/java/io/github/lancelothuxi/idea/plugin/mock/ui/JsonTableCellRenderer.java:328-339 | without newlines in the input, no `<` or `>` is left |
| JsonCellRenderer.AmpersandFirst | src/main/java/io/github/lancelothuxi/idea/plugin/mock/ui/JsonTableCellRenderer.java:331-332 | "<" escapes once to "&lt;", and an existing "&lt;" becomes "&amp;lt;" |
| JsonCellRenderer.TabLooksLikeFourSpaces | src/main/java/io/github/lancelothuxi/idea/plugin/mock/ui/JsonTableCellRenderer.java:336-338 | a tab and four spaces escape to the same text |
| JsonCellRenderer.FindKey | src/main/java/io/github/lancelothuxi/idea/plugin/mock/ui/JsonTableCellRenderer.java:118-119 | a found index holds the key, and not finding it means no entry holds it |
| JsonCellRenderer.TouchKeepsShape | src/main/java/io/github/lancelothuxi/idea/plugin/mock/ui/JsonTableCellRenderer.java:64-70 | after an access the cache has at most 100 entries with distinct keys, ends with the accessed key, and holds only old entries and the new one |
| JsonCellRenderer.TouchHitKeepsEntries | src/main/java/io/github/lancelothuxi/idea/plugin/mock/ui/JsonTableCellRenderer.java:118-119 | a hit only reorders: the same entries as before |
| JsonCellRenderer.TouchEvictsEldest | src/main/java/io/github/lancelothuxi/idea/plugin/mock/ui/JsonTableCellRenderer.java:64-70 | a miss on a full cache evicts exactly the least recently used entry and keeps every other one |
| JsonCellRenderer.TouchMissWithRoom | src/main/java/io/github/lancelothuxi/idea/plugin/mock/ui/JsonTableCellRenderer.java:143 | a miss with room keeps every entry and appends the new one |
| JsonCellRenderer.JsonTableCellRenderer.constructor | src/main/java/io/github/lancelothuxi/idea/plugin/mock/ui/JsonTableCellRenderer.java:65 | the cache starts empty |
| JsonCellRenderer.JsonTableCellRenderer.FormatJsonForDisplay | src/main/java/io/github/lancelothuxi/idea/plugin/mock/ui/JsonTableCellRenderer.java:112-146 | the answer is the display text whatever is cached; blank text leaves the cache alone, other text is accessed in it, and the cache invariant holds |
| JsonCellRenderer.JsonTableCellRenderer.FreshDisplayText | src/main/java/io/github/lancelothuxi/idea/plugin/mock/ui/JsonTableCellRenderer.java:122-140 | the uncached path computes the display text |
| JsonCellRenderer.JsonTableCellRenderer.FormatJsonForTooltip | src/main/java/io/github/lancelothuxi/idea/plugin/mock/ui/JsonTableCellRenderer.java:148-171 | computes the tooltip text |
| JsonCellRenderer.JsonTableCellRenderer.DisplayTwice | src/test/java/io/github/lancelothuxi/idea/plugin/mock/ui/JsonTableCellRendererTest.java:268-293 | the same input displayed twice gives the same answer, the second time from the cache |
| LegacyCellRenderer.DisplayText | src/main/java/com/example/plugin/ui/JsonTableCellRenderer.java:54-68 | display text is at most 60 characters, and "<empty>" for null or blank text; short cleaned text is shown whole |
| LegacyCellRenderer.DisplayTruncates | src/main/java/com/example/plugin/ui/JsonTableCellRenderer.java:63-67 | long text becomes its first 57 cleaned characters and "..." |
| LegacyCellRenderer.DisplayHasCleanShape | src/main/java/com/example/plugin/ui/JsonTableCellRenderer.java:60-67 | displayed text has no whitespace runs and only plain spaces, truncated or not; shown whole, it keeps every non-`\s` character of the cell when the cell has no other control characters |
| LegacyCellRenderer.EscapeHtml | src/main/java/com/example/plugin/ui/JsonTableCellRenderer.java:70-71 | null escapes to the empty text |
| LegacyCellRenderer.EscapeOneChar | src/main/java/com/example/plugin/ui/JsonTableCellRenderer.java:72-77 | one character goes through the chain to exactly its own escape |
| LegacyCellRenderer.EscapeIsPerChar | src/main/java/com/example/plugin/ui/JsonTableCellRenderer.java:70-78 | the chain escapes each character on its own, ampersand first |
| LegacyCellRenderer.UnescapeOne | src/main/java/com/example/plugin/ui/JsonTableCellRenderer.java:72-77 | reading back one escape gives its character |
| LegacyCellRenderer.UnescapeMarkup | src/main/java/com/example/plugin/ui/JsonTableCellRenderer.java:72-74 | the `&`, `<` and `>` entities read back as their characters |
| LegacyCellRenderer.UnescapeQuote | src/main/java/com/example/plugin/ui/JsonTableCellRenderer.java:75-77 | the quote entities read back as their characters |
| LegacyCellRenderer.UnescapeEach | src/main/java/com/example/plugin/ui/JsonTableCellRenderer.java:70-78 | per-character escaping is undone by reading the entities back |
| LegacyCellRenderer.EscapeRoundTrip | src/main/java/com/example/plugin/ui/JsonTableCellRenderer.java:70-78 | escaping loses nothing: unescaping gives any text back |
| LegacyCellRenderer.EscapeCharHasNoMarkup | src/main/java/com/example/plugin/ui/JsonTableCellRenderer.java:72-77 | no escape holds `<`, `>`, `"` or `'` |
| LegacyCellRenderer.EachHasNoMarkup | src/main/java/com/example/plugin/ui/JsonTableCellRenderer.java:70-78 | the same holds for a whole escaped text |
| LegacyCellRenderer.EscapedHasNoMarkup | src/main/java/com/example/plugin/ui/JsonTableCellRenderer.java:70-78 | no raw `<`, `>`, `"` or `'` is left in escaped text |
| LegacyCellRenderer.Render | src/main/java/com/example/plugin/ui/JsonTableCellRenderer.java:26-52 | a null cell shows "<empty>" |
| LegacyCellRenderer.TooltipKeepsWholeText | src/main/java/com/example/plugin/ui/JsonTableCellRenderer.java:38 | the tooltip wraps the escaped untruncated text, which reads back as the whole cell text |
| CellEditor.TruncateValue | src/main/java/com/example/plugin/ui/JsonTableCellEditor.java:263-275 | at most 50 characters; null gives ""; short cleaned text is shown whole; long cleaned text becomes its first 47 characters and "..." |
| CellEditor.TruncatedHasCleanShape | src/main/java/com/example/plugin/ui/JsonTableCellEditor.java:263-275 | the button text has no whitespace runs and only plain spaces; shown whole, it keeps every non-`\s` character of the value when the value has no other control characters |
| CellEditor.ParseException | src/main/java/com/example/plugin/ui/JsonTableCellEditor.java:159-168 | the defaults for null or colon-free text; otherwise a colon-free trimmed type and a trimmed message, colons in the message kept |
| CellEditor.ExceptionRoundTrip | src/main/java/com/example/plugin/ui/JsonTableCellEditor.java:159-168 | a trimmed colon-free type and a trimmed message, composed as "type: message", parse back to themselves |
| CellEditor.ComposeException | src/main/java/com/example/plugin/ui/JsonTableCellEditor.java:238 | in "type: message" the first colon is the one right after a colon-free type, and the message follows the ": " intact |
| CellEditor.ParseOfSplit | src/main/java/com/example/plugin/ui/JsonTableCellEditor.java:164-168 | text with a colon parses to the trimmed parts around its first colon |
| CellEditor.ConfirmedFieldsReadBack | src/main/java/com/example/plugin/ui/JsonTableCellEditor.java:224-243 | what the exception editor commits for a colon-free type is read back as the trimmed fields |
| CellEditor.ColonInTypeMovesIntoMessage | src/main/java/com/example/plugin/ui/JsonTableCellEditor.java:164-168 | a colon in the type moves the rest of the type into the message |
| CellEditor.JsonTableCellEditor.constructor | src/main/java/com/example/plugin/ui/JsonTableCellEditor.java:28-47 | the editor starts with no value and no table |
| CellEditor.JsonTableCellEditor.GetTableCellEditorComponent | src/main/java/com/example/plugin/ui/JsonTableCellEditor.java:49-60 | remembers row and value, a null value as "{}", and shows the truncated value and an edit tooltip |
| CellEditor.JsonTableCellEditor.ShowJsonEditor | src/main/java/com/example/plugin/ui/JsonTableCellEditor.java:75-91 | the exception editor opens exactly when a table and row exist and the mode cell reads "Exception", starting from the parsed fields |
| CellEditor.JsonTableCellEditor.ConfirmJson | src/main/java/com/example/plugin/ui/JsonTableCellEditor.java:124-138 | the edited text is committed only when the editor reports valid JSON; nothing else changes |
| CellEditor.JsonTableCellEditor.ConfirmException | src/main/java/com/example/plugin/ui/JsonTableCellEditor.java:224-243 | an empty trimmed type is refused and nothing changes; otherwise "type: message" of the trimmed fields is committed |
| ToolWindow.SimpleClassName | src/main/java/io/github/lancelothuxi/idea/plugin/mock/ui/MockRunnerToolWindowContent.java:323 | the shown name is a dot-free suffix of the class name, preceded by a dot whenever it is shorter |
| ToolWindow.CellAt | src/main/java/io/github/lancelothuxi/idea/plugin/mock/ui/MockRunnerToolWindowContent.java:320-334 | column 0 is the enabled flag; column 1 dereferences null exactly when the class name is null and is otherwise its `SimpleClassName`; columns 2 and 3 are the method name and signature; column 4 reads "Exception" exactly in exception mode; column 5 is the `ComposeException` text of type and message (null written "null") in exception mode and the return value otherwise; other columns are null |
| ToolWindow.EditedSpec | src/main/java/io/github/lancelothuxi/idea/plugin/mock/ui/MockRunnerToolWindowContent.java:343-369 | a non-editable column changes nothing; class name, method name, signature and return type never change; column 0 sets only the enabled flag; column 4 sets exception mode exactly for "Exception"; column 5 sets only the return value in value mode, and in exception mode sets type and message to the trimmed `ParseException` split when the text has a colon (leaving a colon-free type) and only the untrimmed message otherwise |
| ToolWindow.ShownValueEditsBack | src/main/java/io/github/lancelothuxi/idea/plugin/mock/ui/MockRunnerToolWindowContent.java:315-369 | writing back what an editable cell shows changes nothing, given a trimmed colon-free type and trimmed message |
| ToolWindow.ColonInTypeIsSplit | src/main/java/io/github/lancelothuxi/idea/plugin/mock/ui/MockRunnerToolWindowContent.java:359-363 | a type holding a colon does not survive writing back its own cell |
| ToolWindow.EditableColumnsTakeEdits | src/main/java/io/github/lancelothuxi/idea/plugin/mock/ui/MockRunnerToolWindowContent.java:310-312 | the Enabled, Mode and Value columns each take some edit that changes the row; every other column leaves the row as it was whatever is written |
| ToolWindow.MockTableModel.constructor | src/main/java/io/github/lancelothuxi/idea/plugin/mock/ui/MockRunnerToolWindowContent.java:279 | the table starts empty |
| ToolWindow.MockTableModel.SetMockMethods | src/main/java/io/github/lancelothuxi/idea/plugin/mock/ui/MockRunnerToolWindowContent.java:281-284 | the table shows the given specs |
| ToolWindow.MockTableModel.ValueAt | src/main/java/io/github/lancelothuxi/idea/plugin/mock/ui/MockRunnerToolWindowContent.java:315-335 | null past the last row; otherwise the cell of that row's spec |
| ToolWindow.MockTableModel.SetValueAt | src/main/java/io/github/lancelothuxi/idea/plugin/mock/ui/MockRunnerToolWindowContent.java:338-376 | the row's spec takes the edit; every other spec, and every spec when the row does not exist, is unchanged |
| ToolWindow.EditSpec | src/main/java/io/github/lancelothuxi/idea/plugin/mock/ui/MockRunnerToolWindowContent.java:343-369 | the spec becomes its edited form and nothing else |
| ToolWindow.EditExceptionValue | src/main/java/io/github/lancelothuxi/idea/plugin/mock/ui/MockRunnerToolWindowContent.java:357-366 | the Value column in exception mode becomes its edited form |
| ToolWindow.ReenterCell | src/main/java/io/github/lancelothuxi/idea/plugin/mock/ui/MockRunnerToolWindowContent.java:315-369 | re-entering a cell's shown value leaves every spec as it was |
| ToolWindow.PageCount | src/main/java/io/github/lancelothuxi/idea/plugin/mock/ui/MockRunnerToolWindowContent.java:216-219 | the smallest number of 20-row pages that holds every row |
| ToolWindow.CountEnabled | src/main/java/io/github/lancelothuxi/idea/plugin/mock/ui/MockRunnerToolWindowContent.java:234-238 | the enabled count is at most the number of specs |
| ToolWindow.CountUniform | src/main/java/io/github/lancelothuxi/idea/plugin/mock/ui/MockRunnerToolWindowContent.java:234-238 | when every spec has the same flag, the count is all or none |
| ToolWindow.MockRunnerToolWindowContent.constructor | src/main/java/io/github/lancelothuxi/idea/plugin/mock/ui/MockRunnerToolWindowContent.java:22-40 | the window starts on page 0, globally enabled, showing the stored specs |
| ToolWindow.MockRunnerToolWindowContent.TotalPages | src/main/java/io/github/lancelothuxi/idea/plugin/mock/ui/MockRunnerToolWindowContent.java:216-219 | the fewest 20-row pages that hold every table row; none exactly for an empty table |
| ToolWindow.MockRunnerToolWindowContent.PreviousPage | src/main/java/io/github/lancelothuxi/idea/plugin/mock/ui/MockRunnerToolWindowContent.java:199-205 | one page back only when the page is above 0, so the page never goes negative and stays in range |
| ToolWindow.MockRunnerToolWindowContent.NextPage | src/main/java/io/github/lancelothuxi/idea/plugin/mock/ui/MockRunnerToolWindowContent.java:207-214 | one page on only before the last page, so a page in range stays in range |
| ToolWindow.MockRunnerToolWindowContent.UpdatePaginationControls | src/main/java/io/github/lancelothuxi/idea/plugin/mock/ui/MockRunnerToolWindowContent.java:221-226 | Previous is enabled exactly above page 0, Next exactly before the last page, and the label shows at least one page |
| ToolWindow.MockRunnerToolWindowContent.UpdateStats | src/main/java/io/github/lancelothuxi/idea/plugin/mock/ui/MockRunnerToolWindowContent.java:228-241 | the row count and the number of enabled stored specs, as the stats line prints them |
| ToolWindow.MockRunnerToolWindowContent.ToggleGlobalEnabled | src/main/java/io/github/lancelothuxi/idea/plugin/mock/ui/MockRunnerToolWindowContent.java:170-184 | the flag flips, every stored spec takes it and nothing else in a spec changes, and the count becomes all or none |
| ToolWindow.MockRunnerToolWindowContent.Refresh | src/main/java/io/github/lancelothuxi/idea/plugin/mock/ui/MockRunnerToolWindowContent.java:153-158 | the table shows the stored list again |

## Left out

- Bytecode instrumentation (ByteBuddy's `AgentBuilder`, `Advice`, the `@SuperCall` callable) is not modelled; the model keeps the strategy chosen per method and the outcome `CallOriginal`.
- Gson, `Class.forName`, reflection and `Double.parseDouble`/`Float.parseFloat` are oracles in `Agent.Host`; Gson's field-by-field mapping into a class is not modelled.
- Agent.ConcreteDispatch: a coercion failure in value mode returns null rather than calling the original method; the model follows the code, which returns what `parseMockValue` gives.
- Agent.InterceptConcrete looks rules up by the name of the class being loaded; the real method's declaring class can differ for inherited methods, which is not modelled.
- The agent's static config read by many threads is one object here; concurrency and logging are out.
- `Character.toLowerCase` is modelled on ASCII letters only, and text is a sequence of UTF-16 code units without surrogate handling.
- `Integer.parseInt` and `Long.parseLong` accept ASCII digits only here; Java also accepts other Unicode digits.
- The persistence services (`MockConfigService`), IDE run wiring, dialogs, the JSON editor dialog, popups, fonts, colours and Swing events are out; the JSON editor's validity check becomes the parameter of `ConfirmJson`.
- `applyJsonSyntaxHighlighting` (regex colouring) and the current renderer's `getTableCellRendererComponent` (HTML wrapping and layout) are out.
- The `catch` blocks around `isJson`, `minifyJson` and `prettyPrintJson` in the renderer cannot be reached, so they are not modelled.
- JsonCellRenderer.JsonTableCellRenderer.FormatJsonForDisplay: the cache is a sequence of key/value pairs in access order, not a hash table.
- The tool window's `filterTable` (regex row filter), `clearAllWithConfirm` and `clearResults` are out; they delegate to the filter and the persistence service.
- Pagination only moves `currentPage`; the table model shows every row whatever the page, as the code does.
- ToolWindow.MockTableModel.SetValueAt: requires a value whose cast or `toString` succeeds for its column; other values throw in Java and are not modelled. Rows are natural numbers, so a negative row's exception is not modelled either.
- The `parts.length > 1 ? ... : "Mocked exception"` fallback in `setValueAt` is dead code, since `split(":", 2)` on text with a colon always gives two parts; the model has the reachable branch only.
- Refresh does not reset `currentPage`, as in the code.
- The JSON value datatype keeps object maps in insertion order and does not model Gson's printing of them. Both generators build Gson without `serializeNulls()`, so Gson drops a map entry whose value is null: the `JNull` entries that `ValueGenerator.KeptFieldPresent`, `ValueGenerator.NestedObjectFieldIsNull` and `LegacyValueGenerator.NestedObjectsAreNull` speak of are absent from the generated text.
- LegacyValueGenerator.Generate: the top-level legacy generator and its `ObjectJson` are built on the corrected `DefaultValue`, so they never raise the NullPointerException that the code as written raises for a field or a getter return type that resolves to a class without a qualified name; `DefaultValueAsWritten` models that throw (see Findings).
- LegacyValueGenerator.ObjectJson: the field map and the getter map are both built with the corrected `DefaultValue`, so a field or a getter (such as `T getValue()`) whose type resolves to a class without a qualified name (a type parameter) gives null instead of the NullPointerException the code as written raises; `DefaultValueAsWritten` and `TypeParameterFieldThrows` model that throw.
- LegacyValueGenerator.FieldLoop: computes the field map with the corrected `DefaultValue`, so it has no NullPointerException path for a field typed by a type parameter.
- LegacyValueGenerator.GetterLoop: computes the getter map with the corrected `DefaultValue`, so it has no NullPointerException path for a getter whose return type is a type parameter, where `getDefaultValue(returnType)` throws in the code as written.
- LegacyValueGenerator.GenerateObjectJson: runs the two loops above, so it inherits their missing NullPointerException path.
- JavaText.CleanText: the non-`\s` characters are stated to survive cleaning only when every character up to U+0020 in the input is `\s`, because Java's `trim` also strips the other control characters (U+0000 to U+001F outside `\s`) from the ends; with such a character at an end, cleaning drops it.
- RuleStore.RulesFrom: the rebuilt map is stated by the lemmas beside it (every spec's key is present, no other key is, the last spec of a key wins), not on the function itself.
- Floating-point values are texts: the `double`/`float` parses, `1.0`/`1.0f` samples and the legacy `0.0` are kept as their literal text.

## Findings

| source | as written | input that shows it | evidently intended | confidence | as-written member | corrected member |
|---|---|---|---|---|---|---|
| src/main/java/com/example/plugin/util/MockValueGenerator.java:144 | `psiClass.getQualifiedName().startsWith("java.")` is called on a resolved class without a null check | a field of type `T` in a generic class: `T` resolves to a type parameter, whose qualified name is null, so a NullPointerException escapes `generateMockValue` | both branches return null, so every class type not caught earlier should give null | not executed | LegacyValueGenerator.DefaultValueAsWritten (shown by LegacyValueGenerator.TypeParameterFieldThrows) | LegacyValueGenerator.DefaultValue (with LegacyValueGenerator.NestedObjectsAreNull) |
