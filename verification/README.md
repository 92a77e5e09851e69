# WIQL symbol model and field lookup, in Dafny

This project models two pieces of the WIQL query editor's front end.

- **The symbol model** (`extension/scripts/compiler/wiqlSymbols.ts`) has two parts.
  - The token classes the lexer produces (keywords, operators, literals, `EOF`) with their source positions.
  - The composite `SymbolTree` classes, one per grammar production. Each keeps its ordered `inputs` and binds its named roles with one generic routine, `getInput`.

  `getInput` scans the inputs left to right, and within each input it scans the requested classes. It counts one hit per matching (input, class) pair and returns the input at the occurrence-th hit, or `null`.
- **The field lookup table** (`extension/scripts/cachedData/fields.ts`, class `FieldLookup`).
  - It indexes work-item fields under their lower-cased reference name and display name.
  - It answers `getField` and `equalFields`.
  - A static counter gives every table a `lookupId`.

## Files and modules

| file | module | content |
|---|---|---|
| `wrappers.dfy` | `Wrappers` | `Option`. `None` stands for the source's `null`/`undefined`. |
| `symbols.dfy` | `Symbols` | The class taxonomy:<br>- the `TokenKind` and `TreeKind` tags;<br>- `Class` and the `Parent` map;<br>- `Extends`, the prototype chain that `instanceof` walks;<br>- `IsTokenClass`.<br>Tokens and symbols as values, and the token constructors. |
| `extraction.dfy` | `Extraction` | `getInput`:<br>- the reference functions `Hits`/`Lookup`;<br>- the method `GetInput`, with its nested loops proved against `Lookup`;<br>- lemmas on counting, first match and absence. |
| `nodes.dfy` | `Nodes` | One record datatype and one constructor function per `SymbolTree` class. Also the right-recursive chains (`Rest`, `Chain`) and role-binding lemmas on particular inputs. |
| `fields.dfy` | `Fields` | The `FieldLookup` class:<br>- a `map` field filled by the constructor's loop;<br>- the `LookupCounter` object that stands for the static counter;<br>- the reference functions `BuildLookup`/`Resolve`/`SameField` and lemmas on them;<br>- the as-written model behind the finding below. |

Modelling decisions:

- **Symbols are immutable values.** Node constructors only assign read-only fields once, so each constructor is a function from `inputs` to a record. A role is "the same object as one of the inputs" in the sense that `Lookup` returns `inputs[h]` for an index `h` that `Hits` computes. The node contracts state it as membership in `inputs`.
- **Node contracts state which input each role binds.** Every constructor calls `getInput` with occurrence 1 and concrete classes only. Each contract therefore equates every role with `Extraction.FirstOf(inputs, kinds)`. That is a reference binding defined by a plain scan from the front: the first input whose class is requested, or nothing (`Extraction.FirstOfIsFirst`). `Extraction.LookupFirst` proves that `getInput`'s counting scan agrees with it.
- **`instanceof` walks `Parent`.** For a concrete class it reduces to equality of the runtime class, because no concrete class extends another (`Symbols.InstanceOfConcrete`).
- **`getInput`'s first argument is a class or an array of classes.** It becomes `Request = One | Many`. `GetInput` treats `One(c)` exactly as `Many([c])`.
- **Two behaviours of the code that a reader might not expect:**
  - `isTokenClass(EOF)` is true, because `EOF` extends `Token` directly (wiqlSymbols.ts:64 and 338-340).
  - The nested-expression and leaf-comparison shapes of `ConditionalExpression`/`LinkCondition` are not mutually exclusive. Each role is bound on its own (`Nodes.ConditionalExpressionShapesCoexist`).

  A missing required role yields `None`, as in the code.
- **Columns count UTF-16 code units.** `text.length` in JavaScript counts UTF-16 code units, so a character outside the Basic Multilingual Plane counts twice. `Symbols.Utf16Length` models that count, and token end columns use it.
- **Lower-casing is ASCII.** `toLocaleLowerCase` is modelled as ASCII lower-casing (`Fields.Lower`), an idempotent function.
- **The static `FieldLookup._counter` is an object.** It becomes a `LookupCounter`, which the constructor reads and increments. A program starts with one counter at 0.

## Model

| member | source | states |
|---|---|---|
| Symbols.Parent | extension/scripts/compiler/wiqlSymbols.ts:12-70 | Every concrete class has an immediate superclass, and that superclass is abstract (Token or SymbolTree): no token or node class extends another. Only Symbol has no superclass in the hierarchy. |
| Symbols.IsTokenClass | extension/scripts/compiler/wiqlSymbols.ts:338-340 | True exactly for the concrete token classes, EOF included. False for Token itself, Symbol, SymbolTree and every node class. |
| Symbols.NewToken | extension/scripts/compiler/wiqlSymbols.ts:6-9 | Keeps kind, line, start column and text unchanged. The end column is the start column plus the text's length in UTF-16 code units, as JavaScript's `length` counts it. No `prev`. |
| Symbols.NewEof | extension/scripts/compiler/wiqlSymbols.ts:64-68 | EOF has empty text, so its end column equals its start column. It stores `prev` unchanged. |
| Symbols.Utf16Length | extension/scripts/compiler/wiqlSymbols.ts:8 | The `length` the end column adds: between one and two units per character, and equal to the number of characters iff every character is below U+10000. |
| Symbols.AstralEndColumn | extension/scripts/compiler/wiqlSymbols.ts:8 | The text "a" followed by U+1F600 at start column 10 ends at column 13, not 12. |
| Symbols.InstanceOfConcrete | extension/scripts/compiler/wiqlSymbols.ts:89 | `instanceof` a concrete class holds iff the symbol's runtime class is that class. Every symbol is a Symbol, and it is a Token iff it is a token and a SymbolTree iff it is a node. |
| Extraction.MatchCount | extension/scripts/compiler/wiqlSymbols.ts:88-89 | The number of hits the inner loop counts on one input. It is positive iff the input is an instance of some requested class, and at most the number of requested classes. |
| Extraction.Hits | extension/scripts/compiler/wiqlSymbols.ts:87-93 | The hits in counting order. Each is the index of an input that is an instance of a requested class, and the indices never decrease along the scan. |
| Extraction.Lookup | extension/scripts/compiler/wiqlSymbols.ts:82-95 | The input at the occurrence-th hit, else absent. With concrete classes requested, a present result is one of the inputs and its class is among them. An occurrence below 1 always gives absent. |
| Extraction.MatchesConcrete | extension/scripts/compiler/wiqlSymbols.ts:89 | With only concrete classes requested, matching any of them is membership of the runtime class in the list. |
| Extraction.LookupMatches | extension/scripts/compiler/wiqlSymbols.ts:87-90 | For any requested classes, abstract ones included, a present result is one of the inputs and an instance of a requested class. |
| Extraction.FirstOf | extension/scripts/compiler/wiqlSymbols.ts:82-95 | The reference binding of a role, scanning from the front. A present result is one of the inputs and its class is requested. |
| Extraction.FirstOfIsFirst | extension/scripts/compiler/wiqlSymbols.ts:82-95 | `FirstOf` is absent iff no input's class is requested. Otherwise it is the input at the first index whose class is requested. |
| Extraction.LookupFirst | extension/scripts/compiler/wiqlSymbols.ts:82-95 | At occurrence 1 with concrete classes requested, `getInput` returns exactly the reference binding `FirstOf`. |
| Extraction.GetInput | extension/scripts/compiler/wiqlSymbols.ts:82-95 | The nested loop with its counter and early return computes exactly `Lookup`. A single class gives the same result as the one-element list of it. |
| Extraction.HitsCount | extension/scripts/compiler/wiqlSymbols.ts:88-89 | The counting rule: each input is counted once per requested class it is an instance of. |
| Extraction.FirstMatch | extension/scripts/compiler/wiqlSymbols.ts:84-90 | With occurrence 1, the result is the first input that matches any requested class. |
| Extraction.NoMatch | extension/scripts/compiler/wiqlSymbols.ts:87-94 | With occurrence 1, the result is absent iff no input matches any requested class. |
| Extraction.FirstHit | extension/scripts/compiler/wiqlSymbols.ts:87-90 | A present result with occurrence 1 is at an index where the input matches, with no matching input before it. |
| Extraction.OccurrenceIndexing | extension/scripts/compiler/wiqlSymbols.ts:82-94 | Take inputs [a, b, c, d] where only b and d are of the requested class. Occurrence 1 gives b, occurrence 2 gives d, occurrence 3 gives absent. |
| Nodes.NumberOf | extension/scripts/compiler/wiqlSymbols.ts:98-107 | Keeps the inputs. `digits` is the first Digits input and `minus` the first Minus input; each is absent exactly when the inputs hold none. Each role equals `Extraction.FirstOf` of its classes. |
| Nodes.FieldOf | extension/scripts/compiler/wiqlSymbols.ts:108-114 | Keeps the inputs. `identifier` is the first Identifier input, absent exactly when there is none. Each role equals `Extraction.FirstOf` of its classes. |
| Nodes.ContainsWordsOf | extension/scripts/compiler/wiqlSymbols.ts:115-123 | Keeps the inputs. `contains` is the first Contains input and `words` the first Words input; each is absent exactly when there is none. Each role equals `Extraction.FirstOf` of its classes. |
| Nodes.DateTimeOf | extension/scripts/compiler/wiqlSymbols.ts:125-131 | Keeps the inputs. `dateString` is the first String token input, absent exactly when there is none. Each role equals `Extraction.FirstOf` of its classes. |
| Nodes.OrderByFieldListOf | extension/scripts/compiler/wiqlSymbols.ts:132-142 | Keeps the inputs. `field` is the first Field input, `ascDesc` the first Asc or Desc input, `restOfList` the first OrderByFieldList input; each is absent exactly when there is none. Each role equals `Extraction.FirstOf` of its classes. |
| Nodes.FieldListOf | extension/scripts/compiler/wiqlSymbols.ts:143-151 | Keeps the inputs. `field` is the first Field input and `restOfList` the first FieldList input; each is absent exactly when there is none. Each role equals `Extraction.FirstOf` of its classes. |
| Nodes.ConditionalOperatorOf | extension/scripts/compiler/wiqlSymbols.ts:152-162 | Keeps the inputs. `conditionToken` is the first input of any of its twelve classes, `ever` the first Ever input, `not` the first Not input; each is absent exactly when there is none. Each role equals `Extraction.FirstOf` of its classes. |
| Nodes.ValueOf | extension/scripts/compiler/wiqlSymbols.ts:163-173 | Keeps the inputs. `value` is the first input of any of its seven classes, `operator` the first Plus or Minus input, `num` the first Number input; each is absent exactly when there is none. Each role equals `Extraction.FirstOf` of its classes. |
| Nodes.ValueListOf | extension/scripts/compiler/wiqlSymbols.ts:174-182 | Keeps the inputs. `value` is the first Value input and `restOfList` the first ValueList input; each is absent exactly when there is none. Each role equals `Extraction.FirstOf` of its classes. |
| Nodes.LogicalExpressionOf | extension/scripts/compiler/wiqlSymbols.ts:183-196 | Keeps the inputs. `condition` is the first ConditionalExpression input, `everNot` the first Ever or Not input, `orAnd` the first And or Or input, `expression` the first LogicalExpression input; each is absent exactly when there is none. Each role equals `Extraction.FirstOf` of its classes. |
| Nodes.ConditionalExpressionOf | extension/scripts/compiler/wiqlSymbols.ts:197-218 | Keeps the inputs. Each of its seven roles is bound on its own to the first input of its class(es), and is absent exactly when there is none. Each role equals `Extraction.FirstOf` of its classes. |
| Nodes.FlatSelectOf | extension/scripts/compiler/wiqlSymbols.ts:219-231 | Keeps the inputs. `fieldList` is the first FieldList input, `whereExp` the first LogicalExpression input, `orderBy` the first OrderByFieldList input, `asOf` the first DateTime input; each is absent exactly when there is none. Each role equals `Extraction.FirstOf` of its classes. |
| Nodes.SourcePrefixOf | extension/scripts/compiler/wiqlSymbols.ts:232-238 | Keeps the inputs. `source` is the first Source input, absent exactly when there is none. Each role equals `Extraction.FirstOf` of its classes. |
| Nodes.TargetPrefixOf | extension/scripts/compiler/wiqlSymbols.ts:239-245 | Keeps the inputs. `target` is the first Target input, absent exactly when there is none. Each role equals `Extraction.FirstOf` of its classes. |
| Nodes.LinkConditionOf | extension/scripts/compiler/wiqlSymbols.ts:246-269 | Keeps the inputs. Each of its eight roles is bound on its own to the first input of its class(es), and is absent exactly when there is none. `prefix` is the first SourcePrefix or TargetPrefix input. Each role equals `Extraction.FirstOf` of its classes. |
| Nodes.LinkExpressionOf | extension/scripts/compiler/wiqlSymbols.ts:270-282 | Keeps the inputs. `condition` is the first LinkCondition input, `everNot` the first Ever or Not input, `orAnd` the first And or Or input, `expression` the first LinkExpression input; each is absent exactly when there is none. Each role equals `Extraction.FirstOf` of its classes. |
| Nodes.LinkOrderByFieldListOf | extension/scripts/compiler/wiqlSymbols.ts:283-295 | Keeps the inputs. `prefix` is the first SourcePrefix or TargetPrefix input, `field` the first Field input, `ascDesc` the first Asc or Desc input, `restOfList` the first LinkOrderByFieldList input; each is absent exactly when there is none. Each role equals `Extraction.FirstOf` of its classes. |
| Nodes.OneHopSelectOf | extension/scripts/compiler/wiqlSymbols.ts:296-310 | Keeps the inputs. `mode` is the first MustContain, MayContain or DoesNotContain input. `fieldList`, `whereExp`, `orderBy` and `asOf` are the first FieldList, LinkExpression, LinkOrderByFieldList and DateTime inputs. Each role is absent exactly when there is none. Each role equals `Extraction.FirstOf` of its classes. |
| Nodes.RecursiveSelectOf | extension/scripts/compiler/wiqlSymbols.ts:311-327 | Keeps the inputs. `recursive` is the first Recursive input and `matchingChildren` the first ReturnMatchingChildren input. The other four roles are bound as in OneHopSelect. Each role is absent exactly when there is none. There is no mode role. Each role equals `Extraction.FirstOf` of its classes. |
| Nodes.Rest | extension/scripts/compiler/wiqlSymbols.ts:140 | The first input of the node's own kind is a direct child of the node, of the same kind, and strictly smaller than the node. |
| Nodes.RestIsChainRole | extension/scripts/compiler/wiqlSymbols.ts:132-295 | On FieldList, OrderByFieldList, LinkOrderByFieldList, ValueList, LogicalExpression and LinkExpression, the "rest" role (`restOfList`/`expression`) is `Rest`. |
| Nodes.Chain | extension/scripts/compiler/wiqlSymbols.ts:143-151 | Following the rest role from a node terminates. The walk starts at the node, and every step goes to the rest role's child of the same kind. Nodes strictly decrease, so none repeats. The last node has no rest. |
| Nodes.FirstOfClass | extension/scripts/compiler/wiqlSymbols.ts:87-90 | With concrete classes requested, the role is the first input whose class is requested. |
| Nodes.AbsentOfClass | extension/scripts/compiler/wiqlSymbols.ts:94 | With concrete classes requested, the role is absent iff no input has a requested class. |
| Nodes.ConditionalOperatorNotUnder | extension/scripts/compiler/wiqlSymbols.ts:158-160 | Inputs [Not, Under] give `not` = the Not token, `conditionToken` = the Under token, and `ever` absent. |
| Nodes.ConditionalOperatorEverAlone | extension/scripts/compiler/wiqlSymbols.ts:158-160 | Inputs [Ever] make `conditionToken` and `ever` the same input, with `not` absent. |
| Nodes.ValueNumIsValue | extension/scripts/compiler/wiqlSymbols.ts:169-171 | When the first value-kind input is a Number, `num` is that same input, not a later Number. |
| Nodes.RecursiveSelectFlags | extension/scripts/compiler/wiqlSymbols.ts:324-325 | With a Recursive token among the inputs and no ReturnMatchingChildren token, `recursive` is present and is a Recursive token, and `matchingChildren` is absent. |
| Nodes.FlatSelectWhereField | extension/scripts/compiler/wiqlSymbols.ts:219-231 | Inputs [SELECT, field list, WHERE, `[System.State] = 'Active'`] bind `fieldList` and `whereExp`. The where expression's condition has `field` bound, and its `identifier` has the text "[System.State]". |
| Nodes.ConditionalExpressionShapesCoexist | extension/scripts/compiler/wiqlSymbols.ts:208-217 | Inputs holding a nested LogicalExpression and a Field bind both `expression` and `field`: the two shapes are not exclusive. |
| Fields.LowerIdempotent | extension/scripts/cachedData/fields.ts:35 | Lower-casing twice equals lower-casing once. |
| Fields.Keys | extension/scripts/cachedData/fields.ts:29-32 | A string is a key iff some field is written under it, that is, it is the field's lower-cased reference name or lower-cased name. |
| Fields.BuildLookupKeys | extension/scripts/cachedData/fields.ts:29-32 | After the loop, the dictionary's key set is exactly the lower-cased reference names and names of the fields. |
| Fields.LastWriteWins | extension/scripts/cachedData/fields.ts:29-32 | A key holds the last field in list order that is written under it. |
| Fields.ResolveIgnoresCase | extension/scripts/cachedData/fields.ts:34-36 | `getField(s)` equals `getField(lower(s))`. |
| Fields.ResolveBuilt | extension/scripts/cachedData/fields.ts:34-37 | On a table built from a field list, `getField(s)` is present iff `lower(s)` is a lower-cased reference name or name of some field. Otherwise it is absent. |
| Fields.SameFieldProperties | extension/scripts/cachedData/fields.ts:38-42 | `equalFields` is false when either side is absent, symmetric, and `equalFields(x, x)` holds iff `getField(x)` is present. |
| Fields.LookupCounter.constructor | extension/scripts/cachedData/fields.ts:25 | The counter starts at 0. |
| Fields.FieldLookup.constructor | extension/scripts/cachedData/fields.ts:27-33 | Takes the counter's value as `lookupId` and increments the counter. Stores `values` unchanged. Its loop leaves the dictionary equal to `BuildLookup(values)`. |
| Fields.FieldLookup.GetField | extension/scripts/cachedData/fields.ts:34-37 | On a table built from `values`: the field `BuildLookup(values)` holds under the lower-cased argument, present iff that key is a lower-cased name or reference name of some field. This is the own-keys lookup, so "constructor" resolves to nothing unless a field has that name; the code as written is `Fields.GetFieldAsWritten`. It changes nothing. |
| Fields.FieldLookup.EqualFields | extension/scripts/cachedData/fields.ts:38-42 | On a table built from `values`: true iff both arguments resolve in `BuildLookup(values)` to fields with the same `name`. True implies both lower-cased arguments are keys. This is the own-keys lookup; the code as written is `Fields.EqualFieldsAsWritten`. It changes nothing. |
| Fields.ConsecutiveIds | extension/scripts/cachedData/fields.ts:25-27 | Three successive constructions from a counter at its initial 0 get the ids 0, 1 and 2, and keep their field lists. |
| Fields.AsWrittenAgreesOnOwnKeys | extension/scripts/cachedData/fields.ts:26-37 | Except for the key "constructor", a read from the object literal agrees with a read from an own-keys map. |
| Fields.ConstructorKeyResolvesAsWritten | extension/scripts/cachedData/fields.ts:34-42 | When no field writes the key "constructor", the code as written has `getField("Constructor")` return the inherited `Object` constructor and `equalFields("constructor", "CONSTRUCTOR")` return true. The corrected lookup gives absent and false. |

## Left out

- `getSymbolName` (wiqlSymbols.ts:330-337) is left out. It parses a function's source text at run time, and its output depends on the compilation target.
- `getFields`, `getFieldLookup` and the exported `fields` cache (fields.ts:1-22) are left out. They are REST calls, promises, an arity test on a client function, and the `CachedValue` wrapper. `CachedValue` is not part of this model.
- `InGroup` (wiqlSymbols.ts:124) has no roles and no constructor of its own. It appears only as the kind tag of a `Tree` symbol.
- `WorkItemField` is reduced to `name` and `referenceName`. The other attributes of a field play no part in the lookup.
- `toLocaleLowerCase` depends on the locale. The model lower-cases ASCII letters only.
- Fields.ReadProperty: models only the inherited key `constructor`. The other inherited property that a lower-cased key can reach, `__proto__`, is not modelled. Neither is what a write under `__proto__` does to the object.
- Line and column numbers are JavaScript numbers in the source. The model uses unbounded integers and does not model fractional or non-finite values.
- Reference identity is not modelled. A role is shown to be `inputs[i]` for the index the scan stops at, not the same heap object. A static `FieldLookup` counter shared by the whole program is modelled as one `LookupCounter` object passed to each construction.

## Findings

| source | as written | input that shows it | evidently intended | confidence | as-written member | corrected member |
|---|---|---|---|---|---|---|
| extension/scripts/cachedData/fields.ts:26-42 | The dictionary is a plain object literal. A key that was never written still reads the property inherited from `Object.prototype`. | `getField("Constructor")` on any table without a field named or referenced "constructor" returns the `Object` function, and `equalFields("constructor", "CONSTRUCTOR")` is true. | Only written keys resolve. Unknown names give `undefined` and `equalFields` gives false. | high (not executed) | Fields.ConstructorKeyResolvesAsWritten | Fields.ResolveBuilt |
