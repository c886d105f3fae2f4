# Figma variable audit scripts, modelled in Dafny

Two browser-console scripts read the local variables of a Figma file and
print a report.

- **Dependency audit** (`consoleLogAllVarPaths.js`): for every variable of
  every non-primitive collection it follows the first-mode alias chain down
  to a literal. The cycle guard is a set of visited ids. A missing target is
  marked `[MISSING]` and a cycle `[CIRCULAR]`. The audit classifies each
  chain with more than one element into path group 1 to 8 or "Other". It
  does so by its steps (`<layer>-<topGroup>` tokens) and a first-match
  decision list. It sorts each bucket and renders a titled section per
  non-empty bucket, with a running total.
- **Name listing** (`FigmaJSLeoHacks/consoleLogAllVarNames.js`): lists
  `<collection>/<variable>` for every listed id that names a stored
  variable, in file order, joined by newlines, with the line count as its total.

The variable store is an immutable `Snapshot`. It holds the ordered
collections and an id-to-variable map, and a variable's `Value` is the value
of its first mode (`Literal` or `Alias(target)`). The pure helpers are
functions:

- `getLayer`, `getTopGroup` (module `Layers`);
- `resolveChain` (module `Chain`);
- `classify` (module `Patterns`).

The loops of the two scripts are methods over local state. Each method is
proved equal to a specification function over the snapshot:

- `AllEntries`, `Table` and `SortTable` for the audit;
- `ReportText` and `ReportTotal` for its rendering;
- `AllNameLines` for the listing.

Lemmas then state what those functions promise:

- every bucket is sorted and a permutation of what it held;
- the total counts every chain exactly once;
- path group 5 is always empty;
- the report is never empty;
- it is the bare header exactly when no chain was found;
- when no name holds a line break and there is at least one line,
  splitting the listing back at line breaks gives its lines.

Some of what the code does differs from what it appears to intend; the
model follows the code:

- `getTopGroup` of a name without "/" is the whole lower-cased name, not "".
- `resolveChain` of an absent variable returns `[]` even when the lookup
  happened after a visit. `visited.has(variable?.id)` tests `undefined`, so
  `[CIRCULAR]` appears only when an existing variable is visited twice.
- Line 65 compares a number with an array using `===`, which is never true.
  Path group 5 is therefore never chosen (`Audit.EntryFor`,
  `Report.GroupFiveAlwaysEmpty`).
- A collection named "Global" is in layer 3, not layer 2. It contains none
  of "primitive", "brand" or "map", so a primitive → Global → semantic chain
  is "Other", not path group 3.

## Model

| member | source | states |
|---|---|---|
| Strings.Lower | consoleLogAllVarPaths.js:15 | `toLowerCase` keeps the length and lower-cases each character in place |
| Strings.Contains | consoleLogAllVarPaths.js:16-17 | `includes` holds exactly when the text occurs at some index |
| Strings.Split | consoleLogAllVarPaths.js:51 | `split("/")` gives at least one piece and no piece holds the separator |
| Strings.SplitNoSeparator | consoleLogAllVarPaths.js:22 | a text without the separator splits into itself alone |
| Strings.SplitAtFirst | consoleLogAllVarPaths.js:51 | the first piece is the text before the first separator, the rest is the split of what follows |
| Strings.JoinSplit | consoleLogAllVarPaths.js:51-52 | `Join` (`join`, used on lines 52, 85, 102 and 109) after `split("/")` gives the text back |
| Strings.SplitJoin | FigmaJSLeoHacks/consoleLogAllVarNames.js:36 | one or more lines without the separator, joined by it with `Join` (`join("\n")`) and split at it, come back unchanged |
| Strings.NatToString | consoleLogAllVarPaths.js:101 | a number in a template string is never empty |
| Strings.NatToStringDecimal | consoleLogAllVarPaths.js:101 | that text is all decimal digits, has no leading zero and reads back as the number |
| LexOrder.LessEqReflexive | consoleLogAllVarPaths.js:93 | the character order of `sort()` is reflexive |
| LexOrder.LessEqTotal | consoleLogAllVarPaths.js:93 | any two lines are comparable |
| LexOrder.LessEqAntisymmetric | consoleLogAllVarPaths.js:93 | two lines each no later than the other are equal |
| LexOrder.LessEqTransitive | consoleLogAllVarPaths.js:93 | the order is transitive |
| LexOrder.Insert | consoleLogAllVarPaths.js:93 | inserting into an ascending sequence keeps it ascending and adds exactly the new line |
| LexOrder.SortLines | consoleLogAllVarPaths.js:93 | a bucket after `sort()` is ascending, a permutation of its lines, of the same length |
| LexOrder.HeadIsLeast | consoleLogAllVarPaths.js:93 | the first line of an ascending bucket is no later than any of its lines |
| LexOrder.SortedTail | consoleLogAllVarPaths.js:93 | what follows the first line of an ascending bucket is ascending |
| LexOrder.SameHeads | consoleLogAllVarPaths.js:93 | two ascending permutations of the same lines start alike and continue as permutations |
| LexOrder.SortedUnique | consoleLogAllVarPaths.js:93 | two ascending permutations of the same lines are equal, so the sorted bucket does not depend on the algorithm |
| Store.GetVariableById | consoleLogAllVarPaths.js:41 | the lookup finds a variable exactly when its id is in the store, and then it is the variable stored under that id |
| Store.CollectionName | consoleLogAllVarPaths.js:26-27 | `collectionById[id].name` is the name of the last collection with that id, "Unknown" when none has it |
| Store.FullPath | consoleLogAllVarPaths.js:36-37 | a full path always holds a "/" |
| Layers.NotMentionedWithoutInitial | consoleLogAllVarPaths.js:15-16 | a name none of whose characters lower-cases to the first letter of a word does not contain that word |
| Layers.MappingMentionsMap | consoleLogAllVarPaths.js:17 | a name containing "mapping" contains "map", so the third test never decides |
| Layers.GetLayer | consoleLogAllVarPaths.js:14-19 | layer 1 exactly for "primitive" names, 2 exactly for non-primitive "brand" or "map" names, else 3 |
| Layers.FirstPieceAt | consoleLogAllVarPaths.js:22 | the first piece of `split("/")` is the text before the first "/" |
| Layers.FirstPiece | consoleLogAllVarPaths.js:22 | that first piece is the whole name when there is no "/", and empty exactly when the name is empty or starts with "/" |
| Layers.GetTopGroup | consoleLogAllVarPaths.js:21-24 | the top group is the lower-cased text before the first "/" (the whole name when there is none), empty exactly when that text is |
| Chain.VisitShrinks | consoleLogAllVarPaths.js:34 | visiting a new stored id leaves one unvisited id fewer |
| Chain.ResolveChain | consoleLogAllVarPaths.js:30-46 | absent gives `[]`; visited gives `[CIRCULAR]`; otherwise the chain ends with the variable's own path, bare or marked missing; later elements hold a "/" and are not the marker; the length is at most the unvisited ids of the store plus one |
| Chain.ChainLongIffAliasFound | consoleLogAllVarPaths.js:39-45 | for a stored variable not yet visited, the chain has more than one element exactly when the variable aliases a stored variable |
| Chain.LiteralChain | consoleLogAllVarPaths.js:45 | a literal not yet visited resolves to its own full path alone, at any depth |
| Chain.MissingTargetChain | consoleLogAllVarPaths.js:40-43 | an alias not yet visited whose target is absent resolves to one line marked `[MISSING]`, at any depth |
| Chain.FoundTargetChain | consoleLogAllVarPaths.js:40-43 | an alias not yet visited whose target is stored resolves to the target's chain followed by its own bare path, two elements or more |
| Chain.LaterElementsArePaths | consoleLogAllVarPaths.js:42-45 | every element after the first is the bare full path of a stored variable |
| Chain.ChainWithinClosedSet | consoleLogAllVarPaths.js:31-43 | for any set of ids holding the start and closed under alias targets, the chain is at most its unvisited ids plus one |
| Chain.SelfAliasChain | consoleLogAllVarPaths.js:31-43 | a variable aliasing itself resolves to `[CIRCULAR]` then its path |
| Chain.MutualAliasChain | consoleLogAllVarPaths.js:31-43 | two variables aliasing each other resolve to `[CIRCULAR]`, the other's path, then the start's path |
| Patterns.SplitHeadTail | consoleLogAllVarPaths.js:51-52 | `coll` is the text before the first "/" and `rest.join("/")` the text after it (the whole text and "" when there is none) |
| Patterns.SplitAtFirstSlash | consoleLogAllVarPaths.js:51-52 | the same, at a given first "/" |
| Patterns.StepOf | consoleLogAllVarPaths.js:50-57 | a step's layer is in 1..3 and is the layer of the collection part; its top group is that of the variable part |
| Patterns.Steps | consoleLogAllVarPaths.js:50 | one step per chain element |
| Patterns.Tokens | consoleLogAllVarPaths.js:59 | one `Token` per step, each `<layer>-<topGroup>` as on line 59 |
| Patterns.MatchesDisjoint | consoleLogAllVarPaths.js:61-68 | no token sequence satisfies two lines of the decision list |
| Patterns.Classify | consoleLogAllVarPaths.js:49-71 | a group result is one of 1-4, 6-8 and its line holds; "Other" exactly when no line holds |
| Patterns.ClassifyIsTheMatchingGroup | consoleLogAllVarPaths.js:61-70 | the bucket is group k exactly when line k holds |
| Patterns.DashedCompare | consoleLogAllVarPaths.js:59-68 | comparing `<digit>-<group>` tokens compares digits and groups |
| Patterns.TokenFacts | consoleLogAllVarPaths.js:59-68 | each test of the decision list on a `Token` (a `StartsWith` for `startsWith`, or `===`) is a test on the step's layer and top group |
| Patterns.StepsLayersInRange | consoleLogAllVarPaths.js:54 | every step's layer is one `getLayer` returns |
| Patterns.MatchesIffStepShape | consoleLogAllVarPaths.js:61-68 | `Matches(k, t)`, the condition of line k of the decision list, holds exactly when the steps have shape k (lengths, layers, top groups); line 5's condition `NumberStrictEqualsArray` (`number === array`, line 65) never holds |
| Patterns.ClassifyByShape | consoleLogAllVarPaths.js:49-71 | the bucket is group k exactly for shape k and "Other" exactly for no shape |
| Patterns.ClassifyOtherUnlessPrimitiveHead | consoleLogAllVarPaths.js:61-70 | a chain of fewer than 2 or more than 4 elements, or not starting in a primitive collection, is "Other" |
| Patterns.CircularChainIsOther | consoleLogAllVarPaths.js:32 | a chain headed by `[CIRCULAR]` is "Other" |
| Audit.EntryFor | consoleLogAllVarPaths.js:80-88 | a variable id adds at most one line, and adds one exactly when it names an alias of a stored variable; its bucket is a key and never group 5 |
| Audit.BucketLinesAppend | consoleLogAllVarPaths.js:87 | scanning one more entry appends its line to its own bucket only |
| Audit.Table | consoleLogAllVarPaths.js:74 | the table has exactly the keys 1-8 and "Other" |
| Audit.EmptyTable | consoleLogAllVarPaths.js:74 | before the scan every bucket is present and empty |
| Audit.TablePushed | consoleLogAllVarPaths.js:87 | `Pushed`, the table after `groups[bucket].push(line)`, equals the table of the scanned entries plus the new one |
| Audit.ScanVariable | consoleLogAllVarPaths.js:80-88 | one id pushes exactly its entry |
| Audit.IdTableStep | consoleLogAllVarPaths.js:79-89 | each step of the id loop pushes the next id's entry |
| Audit.ScanCollection | consoleLogAllVarPaths.js:79-89 | the id loop extends the table by the entries of the collection's ids, in id order |
| Audit.ScanIfNotPrimitive | consoleLogAllVarPaths.js:77-89 | a primitive collection adds nothing; any other adds its entries |
| Audit.CollectChains | consoleLogAllVarPaths.js:74-90 | the scan builds the table of every entry, in collection then id order |
| Report.SortTable | consoleLogAllVarPaths.js:93 | after the sort every bucket keeps its key and length and is an ascending permutation of its lines |
| Report.SortedBelowKeys | consoleLogAllVarPaths.js:93 | sorting one key at a time keeps the keys |
| Report.SortedBelowAt | consoleLogAllVarPaths.js:93 | after sorting keys 1 to i-1, exactly those buckets are sorted |
| Report.SortedBelowDone | consoleLogAllVarPaths.js:93 | sorting 1 to 8 and then "Other" sorts every bucket |
| Report.SortBuckets | consoleLogAllVarPaths.js:93 | the `forEach` over the keys puts every bucket through the sort |
| Report.Section | consoleLogAllVarPaths.js:100-102 | a section is empty exactly when its bucket is |
| Report.AppendSection | consoleLogAllVarPaths.js:100-104 | a bucket adds its section, and adds text exactly when it has lines |
| Report.RenderGroups | consoleLogAllVarPaths.js:99-105 | the loop over groups 1-8 builds their sections in order and counts their lines |
| Report.Render | consoleLogAllVarPaths.js:96-111 | the output is the header, then the sections of 1-8 under `GroupTitle` (line 101) and of "Other" under `OtherTitle` (line 108); the total is the number of lines in all buckets |
| Report.AuditPaths | consoleLogAllVarPaths.js:7-111 | no collections stops the run; otherwise the output is the report of the sorted table of all entries and the total is their number |
| Report.TotalCountsEveryChain | consoleLogAllVarPaths.js:103-110 | the printed total is the number of chains scanned |
| Report.IdEntriesValid | consoleLogAllVarPaths.js:83-87 | every entry of an id list has a key bucket other than group 5 |
| Report.EntriesValid | consoleLogAllVarPaths.js:76-89 | the same for every scanned collection |
| Report.AllEntriesValid | consoleLogAllVarPaths.js:76-90 | the same for the whole scan |
| Report.GroupTotalPushed | consoleLogAllVarPaths.js:87 | a push into group b (1 ≤ b ≤ i) raises the count of groups 1..i by one, a push elsewhere leaves it |
| Report.EmptyGroupTotal | consoleLogAllVarPaths.js:74 | empty buckets count nothing |
| Report.TableTotal | consoleLogAllVarPaths.js:97-110 | the lines of a table of valid entries (each in bucket 1-8 other than 5, or "Other") number exactly the entries |
| Report.GroupTotalSameLengths | consoleLogAllVarPaths.js:103 | tables with equal bucket lengths count the same |
| Report.SortKeepsTotal | consoleLogAllVarPaths.js:93 | sorting does not change the total |
| Report.NoGroupFiveLines | consoleLogAllVarPaths.js:65 | no entry is in group 5 |
| Report.GroupFiveAlwaysEmpty | consoleLogAllVarPaths.js:65 | path group 5 is empty in every report |
| Report.ReportStartsWithHeader | consoleLogAllVarPaths.js:96-114 | the report starts with the header, so `Displayed`, the "No aliased variables found" fallback of line 114, never replaces it |
| Report.GroupSectionsEmpty | consoleLogAllVarPaths.js:99-105 | the sections of groups 1..i are empty exactly when those groups hold no line |
| Report.ReportIsHeaderIffNoLines | consoleLogAllVarPaths.js:96-111 | the report is the bare header exactly when the total is 0 |
| Report.EmptyReportIffNoChains | consoleLogAllVarPaths.js:76-111 | the report is the bare header exactly when no chain was scanned |
| Report.IdEntriesCount | consoleLogAllVarPaths.js:79-88 | an id list yields one entry per resolvable alias |
| Report.EntriesCount | consoleLogAllVarPaths.js:76-90 | the collections yield one entry per resolvable alias in a non-primitive collection |
| Report.TotalIsAliasCount | consoleLogAllVarPaths.js:76-115 | the printed total is the number of listings of resolvable aliases in non-primitive collections |
| VarNames.ListVariableNames | FigmaJSLeoHacks/consoleLogAllVarNames.js:11-40 | no collections stops the run; otherwise the output is every name line joined by newlines and the total is their number |
| VarNames.ListCollection | FigmaJSLeoHacks/consoleLogAllVarNames.js:21-33 | one collection appends the lines of its ids in id order, skipping absent variables |
| VarNames.IdNameLinesCount | FigmaJSLeoHacks/consoleLogAllVarNames.js:26-32 | a collection gives one line per id present in the store, never more than its ids |
| VarNames.NameLinesCount | FigmaJSLeoHacks/consoleLogAllVarNames.js:21-34 | the collections give one line per listed id present in the store |
| VarNames.TotalCountsPresentVariables | FigmaJSLeoHacks/consoleLogAllVarNames.js:40 | the printed total is the number of listed ids present in the store, at most the number of listed ids |
| VarNames.IdNameLinesListed | FigmaJSLeoHacks/consoleLogAllVarNames.js:26-32 | every line of a collection names a stored variable it lists |
| VarNames.NameLinesListed | FigmaJSLeoHacks/consoleLogAllVarNames.js:21-34 | the same for the lines of the collections |
| VarNames.EveryLineIsListed | FigmaJSLeoHacks/consoleLogAllVarNames.js:21-34 | every line of the listing is a `NameLine`, `<collection>/<variable>` (lines 23 and 30), for a stored variable its collection lists |
| VarNames.IdNameLinesUnbroken | FigmaJSLeoHacks/consoleLogAllVarNames.js:30 | without line breaks in names, no line of a collection holds one |
| VarNames.NameLinesUnbroken | FigmaJSLeoHacks/consoleLogAllVarNames.js:21-34 | the same for all lines |
| VarNames.ListingSplitsBack | FigmaJSLeoHacks/consoleLogAllVarNames.js:36-40 | without line breaks in names and with at least one line, the copied output splits back into exactly the lines, as many as the total |
| VarNames.NameLineIsFullPath | FigmaJSLeoHacks/consoleLogAllVarNames.js:30 | when a collection is the last with its id, a listing line is the variable's full path in the audit |

## Left out

- The Figma plugin API, `console`, `navigator.clipboard` and the `async`
  wrapper are left out. The store is a `Snapshot` parameter, and the output
  and total are returned rather than printed or copied.
- The `typeof figma.variables === "undefined"` checks (line 2 of the audit,
  line 6 of the listing) are left out, because the snapshot always exists.
- Only the first mode's value is modelled. `valuesByMode[Object.keys(...)[0]]`
  is read as the variable's `Value`, and a falsy or non-alias value is a
  `Literal`.
- LexOrder.SortLines: compares whole characters (code points). JavaScript's
  default `sort()` compares UTF-16 code units, so lines with characters
  outside the Basic Multilingual Plane may order differently.
- Strings.Lower: lower-cases ASCII letters only. `toLowerCase` also maps
  other Unicode letters.
- Store.CollectionName: `collectionById` is a plain object. Ids that collide
  with `Object.prototype` keys are not modelled.
- Report.SortBuckets: the host's `Array.prototype.sort()` is a parameter of
  the method. The run passes `SortLines`, the reference sort.
- Report.Render and VarNames.ListVariableNames: only the `output` string and
  the `total` are modelled. The fixed texts of the console lines around them
  are not.
- Every other file of the repository is not part of this model. This
  includes the context-aware audit script and the design-token files.
