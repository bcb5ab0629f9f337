# droid-graph core, modelled in Dafny

droid-graph draws a DROID patch as a node-and-link diagram. A DROID patch is
the text configuration of a modular-synthesizer controller: a list of
`[header]` lines. Some headers name controllers (`[p2b8]`). The others name
circuits, each followed by `name=value` parameter lines. The core has three
parts:

- **Patch parser** (`lib/graph/patch-parser.ts`).
  - It normalises the text: strips `#` comments, carriage returns, blank lines and whitespace.
  - It groups the lines under their headers.
  - It shifts the leading one-line groups off as controllers, numbered 1, 2, 3, ...
  - It parses each remaining group as a circuit.
  - It classifies every parameter value as one of: pot `P<c>.<i>`, button `B<c>.<i>`, LED `L<c>.<i>`, output `O<n>`, input `I<n>`, normalled input `N<n>`, voltage `<d>[.<d>]V`, number, variable, or an arithmetic expression of such operands.
- **Node types** (`lib/graph/graph.ts`).
  - The master node has 40 ports: `N<k>-in`, `N<k>-out`, `I<k>`, `O<k>` and `R<k>`.
  - Controller, circuit, expression, variable and literal nodes, with the ports each one builds.
  - The port lookups of the controller node.
  - The expansion of a circuit's catalogue descriptors into ports.
  - The list of catalogue circuits (`getCircuitNodes`).
- **Diagram builder** (`lib/graph/graph-model.ts`, `createDroidModel`).
  - It parses the patch.
  - It adds the master node, then one node per controller, then one node per circuit.
  - It then wires every parameter of every circuit to the master, a controller, a variable node (one per name, shared), a literal node, or an expression node whose operands are wired recursively.

The files are:

- `common.dfy`: `Option` and `Result`.
- `js_string.dfy`: the JavaScript string built-ins the source relies on, with their laws. These are `parseInt`, `split`, first-occurrence `replace`, `toUpperCase`, `String(n)` and the `\s` class. The file also defines `Join`, the inverse of `split`. The source never calls it; the model uses it only to state that splitting into lines is undone by joining (`SplitJoin`, `JoinSplit`, `PatchParser.LinesOfJoin`).
- `patch_parser.dfy`: the parser.
- `graph.dfy`: the node types.
- `graph_model.dfy`: the builder.
  - The diagram object is a class `DiagramModel` whose `nodes` and `links` sequences its methods append to.
  - Each step of `createDroidModel` is a method proved equal to a specification function over a `Build` state (nodes, links, and the memo of variable nodes).
- `diagram_facts.dfy`: invariants of the built diagram. Every link end is missing or an existing port. Variable nodes are unique per name. The layout is master, then controllers, then circuits.
- `wiring_facts.dfy`: for each kind of parameter value, exactly which link the builder adds.

A node reference is modelled as a `Handle`: the node's position in the diagram plus the node itself. A port is a (node position, port position) pair. A link end the source sets to `undefined` is recorded as `None`. When the source throws, the model returns `Err`:

- `TextBeforeHeader`: a line comes before the first header.
- `ParamWithoutValue`: a parameter line has no `=`, so `split('=')[1]` is `undefined` and `.replace` throws on it.
- `UndefinedPort`: the builder hands `undefined` to a link's `setSourcePort`/`setTargetPort`, which calls `addLink` on it. This happens at three places:
  - graph-model.ts:75, an expression without a non-primitive operand on a parent Out port;
  - graph-model.ts:110, a number or voltage on a parent Out port;
  - graph-model.ts:187, an `O<k>` token that names no master port (`O9`, say), when the parent has the port.

  The model builds the whole diagram and then reports the first link with a `None` end. The source throws while wiring that link. Either way the call throws, and nothing built survives it.

### Behaviour worth knowing

- The builder never gives a controller node any ports.
  - The parser records a controller as `{type, value: name, index, count}`, with no `pots` or `buttons` fields.
  - `GraphNodeDroidControllerButton` loops over `controller.value.buttons` and `controller.value.pots`. Both are `undefined`, so it creates no ports.
  - So pot, button and LED parameters are never wired to a controller.
  - The model builds controller nodes with zero pots and zero buttons, and proves that this is so (`DiagramFacts.BuildSpecShape`, `WiringFacts.ControlUnwired`, `DiagramFacts.BuiltLinkEnds`).
  - It also models the node type for arbitrary counts (`Graph.PotLookup` and the two lemmas after it, `WiringFacts.PotWiring` and the two lemmas after it), which states the wiring that such counts would give.
- There is no `R<n>` register value kind: a token that starts with `R` is a variable.
- Only `#` starts a comment; `//` is ordinary text.
- There are no expander kinds.
- A counted catalogue descriptor expands to the numbers `start_at` through `count` inclusive.

## Model

| member | source | states |
|---|---|---|
| JsString.Filter | lib/graph/patch-parser.ts:93 | every kept character satisfies the predicate and comes from the input; every input character that satisfies it is kept; text whose every character satisfies it is unchanged |
| JsString.FilterAppend | lib/graph/patch-parser.ts:93 | the filter of a concatenation is the concatenation of the filters, so the kept characters stay in order |
| JsString.FilterOne | lib/graph/patch-parser.ts:93 | one character is kept exactly when it satisfies the predicate |
| JsString.ReplaceFirstPrefix | lib/graph/patch-parser.ts:4-28 | `replace(p, '')` on text that starts with `p` removes exactly that prefix |
| JsString.ReplaceFirstAbsent | lib/graph/patch-parser.ts:80 | replacing a pattern that does not occur leaves the text unchanged |
| JsString.ReplaceFirstSplits | lib/graph/patch-parser.ts:80 | only the first occurrence is removed: the text before it, then the text after it |
| JsString.ToUpper | lib/graph/patch-parser.ts:42 | same length; each lower-case ASCII letter becomes its own capital (its code minus `'a'` plus `'A'`); every other character kept in place |
| JsString.ToUpperAppend | lib/graph/patch-parser.ts:42 | upper-casing works character by character: it distributes over concatenation |
| JsString.NatStr | lib/graph/graph.ts:75 | the decimal numeral of `n` is all digits, non-empty, with no leading zero |
| JsString.NatStrValue | lib/graph/graph.ts:75 | the numeral reads back as `n` |
| JsString.NatStrInjective | lib/graph/graph.ts:74-98 | distinct numbers have distinct numerals |
| JsString.RadixPrefix | lib/graph/patch-parser.ts:4 | the digits `parseInt` reads: the longest leading run of digits of the radix |
| JsString.TrimStart | lib/graph/patch-parser.ts:4 | `parseInt` first skips leading whitespace: the result is the suffix after the leading run of whitespace |
| JsString.ParseIntNatStr | lib/graph/patch-parser.ts:4 | `parseInt` of a numeral followed by text that is not a digit or `x` is the numeral's value |
| JsString.ParseIntOfNatStr | lib/graph/patch-parser.ts:16 | `parseInt(String(n)) == n` for every natural `n` |
| JsString.ParseIntIntStr | lib/graph/patch-parser.ts:4 | `parseInt(String(n)) == n` for every integer, negatives included |
| JsString.ParseIntNumberStr | lib/graph/graph.ts:126-137 | `parseInt` of the template text of a parsed number (or `NaN`) gives it back |
| JsString.NumberStrInjective | lib/graph/graph.ts:126-137 | distinct parsed numbers, `NaN` included, give distinct template texts |
| JsString.SplitOn | lib/graph/patch-parser.ts:44 | at least one piece, no piece holds a separator, every character comes from the input |
| JsString.SplitOnLength | lib/graph/patch-parser.ts:44 | there is one more piece than there are separators in the text |
| JsString.CountInPositive | lib/graph/patch-parser.ts:82 | the separator count is positive exactly when the text contains a separator |
| JsString.SplitOnNone | lib/graph/patch-parser.ts:82 | text without separators splits into itself alone |
| JsString.SplitOnFirst | lib/graph/patch-parser.ts:82 | the first piece is the text up to the first separator, the rest is the split of the remainder |
| JsString.SplitJoin | lib/graph/patch-parser.ts:93 | splitting the join of separator-free pieces gives the pieces back |
| JsString.JoinSplit | lib/graph/patch-parser.ts:93 | joining the split of a text gives the text back |
| PatchParser.StripComments | lib/graph/patch-parser.ts:90 | no `#` is left and every kept character comes from the input |
| PatchParser.StripCommentsNoHash | lib/graph/patch-parser.ts:90 | text without `#` is unchanged |
| PatchParser.StripCommentsKeepsPrefix | lib/graph/patch-parser.ts:90 | the text before the first `#` is kept as it is |
| PatchParser.StripCommentsLine | lib/graph/patch-parser.ts:90 | a `#` removes itself and the rest of its line up to the line terminator; the text before it and from the terminator on is kept |
| PatchParser.CollapseNewlines | lib/graph/patch-parser.ts:92 | no two newlines in a row remain; the first character is kept; every character comes from the input |
| PatchParser.CollapseNewlinesKeepsText | lib/graph/patch-parser.ts:92 | every character other than a newline is kept, in order |
| PatchParser.CollapseNewlinesKeeps | lib/graph/patch-parser.ts:92 | text without two newlines in a row is unchanged |
| PatchParser.StripAll | lib/graph/patch-parser.ts:93 | one line per piece; no line holds whitespace; every character comes from its piece, and every non-whitespace character of the piece is kept; a piece without whitespace comes back unchanged |
| PatchParser.StripAllAppend | lib/graph/patch-parser.ts:93 | over a piece cut in two, the result is the two halves' results joined, so the kept characters stay in order |
| PatchParser.StripAllOne | lib/graph/patch-parser.ts:93 | one character is kept exactly when it is not whitespace |
| PatchParser.NonEmpty | lib/graph/patch-parser.ts:93 | the kept lines are non-empty lines of the input, and every non-empty input line is kept |
| PatchParser.NonEmptyAppend | lib/graph/patch-parser.ts:93 | filtering distributes over concatenation, so the kept lines stay in order |
| PatchParser.LinesAreNormal | lib/graph/patch-parser.ts:90-93 | every normalised line is non-empty and holds no whitespace, `#`, carriage return or newline |
| PatchParser.LinesOfJoin | lib/graph/patch-parser.ts:90-93 | normalising the newline-join of normal lines gives those lines back, so normalising is idempotent |
| PatchParser.GroupLines | lib/graph/patch-parser.ts:95-105 | fails with `TextBeforeHeader` exactly when the first line is not a header; otherwise the groups are the lines in order, each opened by its one header |
| PatchParser.GroupingUnique | lib/graph/patch-parser.ts:95-105 | the lines have only one such grouping |
| PatchParser.HeaderNameOf | lib/graph/patch-parser.ts:80 | the name of `[name]` is `name` |
| PatchParser.ControllerOfP2b | lib/graph/patch-parser.ts:111-113 | header `[p2b<n>]` gives a controller named `p2b<n>` with count `n` |
| PatchParser.ControllersStep | lib/graph/patch-parser.ts:109-113 | taking the next one-line group as controller `buttons` keeps the controllers numbered 1, 2, 3, ... |
| PatchParser.TakeControllers | lib/graph/patch-parser.ts:107-114 | the controllers are the leading run of one-line groups, numbered from 1; the rest is what follows, and it does not start with a one-line group |
| PatchParser.ParseValue | lib/graph/patch-parser.ts:64-76 | the value keeps the token as its text, and its kind partitions the tokens: pot, button, LED, output, input and normalled input exactly when the first character is `P`, `B`, `L`, `O`, `I` and `N`; voltage exactly for a voltage text; number exactly when it starts with a digit and is no voltage; variable exactly when it is empty or starts with none of `PBLOIN` and no digit |
| PatchParser.ParseValueVoltage | lib/graph/patch-parser.ts:27-30 | a voltage's number is `parseInt` of the token |
| PatchParser.AddressRoundTrip | lib/graph/patch-parser.ts:3-14 | `P<c>.<i>`, `B<c>.<i>` and `L<c>.<i>` read back controller `c` and index `i` |
| PatchParser.IndexRoundTrip | lib/graph/patch-parser.ts:15-26 | `O<n>`, `I<n>` and `N<n>` read back `n` |
| PatchParser.VoltageRoundTrip | lib/graph/patch-parser.ts:27-30 | `<n>V` and `<n>.<m>V` are voltages with number `n` |
| PatchParser.NumberRoundTrip | lib/graph/patch-parser.ts:34-36 | a numeral is a number |
| PatchParser.VariableFallback | lib/graph/patch-parser.ts:31-33 | a token that starts with none of `PBLOIN` and no digit is a variable |
| PatchParser.ParseValueNumber | lib/graph/patch-parser.ts:34-36 | a token that starts with a digit and is not a voltage is a number |
| PatchParser.PrimitiveIffDigit | lib/graph/patch-parser.ts:2-37 | a value is primitive (number or voltage) exactly when its token starts with a digit |
| PatchParser.Clean | lib/graph/patch-parser.ts:41-42 | no parentheses and no lower-case ASCII letter are left, and the text gets no longer |
| PatchParser.CleanAppend | lib/graph/patch-parser.ts:41-42 | the clean-up distributes over concatenation, so the other characters stay in order |
| PatchParser.CleanOne | lib/graph/patch-parser.ts:41-42 | a parenthesis is dropped; any other character is kept, a lower-case ASCII letter as its capital |
| PatchParser.ParseParamValue | lib/graph/patch-parser.ts:40-50 | an expression whose operand count is one more than its operator count, or a leaf with no operator; both keep the cleaned text |
| PatchParser.ParseParamValueOfClean | lib/graph/patch-parser.ts:43-48 | a cleaned text is an expression of its operator-split tokens exactly when it holds an operator, else a single value |
| PatchParser.ExpressionOfTwo | lib/graph/patch-parser.ts:43-46 | `a<op>b` is the expression of `a` and `b` |
| PatchParser.LeadingMinus | lib/graph/patch-parser.ts:44 | a leading minus makes an expression whose first operand is the empty variable |
| PatchParser.ParseParamLine | lib/graph/patch-parser.ts:81-84 | a parameter line parses exactly when it holds `=` |
| PatchParser.ParamLineOf | lib/graph/patch-parser.ts:82-83 | `name=value` gives parameter `name` with the parsed `value` |
| PatchParser.ParamLineDropsExtra | lib/graph/patch-parser.ts:82 | text after a second `=` is dropped |
| PatchParser.ParseParams | lib/graph/patch-parser.ts:81-84 | succeeds exactly when every line holds `=`, with one parameter per line; otherwise `ParamWithoutValue` |
| PatchParser.ParseCircuit | lib/graph/patch-parser.ts:78-86 | succeeds exactly when every parameter line holds `=`; the circuit has the header's name and one parameter per line |
| PatchParser.ParseCircuits | lib/graph/patch-parser.ts:78-87 | one circuit per group, in order, or the first failure |
| PatchParser.OutcomeOfGroups | lib/graph/patch-parser.ts:95-116 | parsing fails exactly when a circuit line lacks `=`; every header is a controller or a circuit |
| PatchParser.PatchOfLinesUnique | lib/graph/patch-parser.ts:95-117 | a set of lines has at most one reading as a patch |
| PatchParser.ParseLines | lib/graph/patch-parser.ts:95-117 | the error cases as thrown; on success the patch is the reading of the lines, with controllers numbered 1, 2, 3, ... and one controller or circuit per header |
| PatchParser.ParseDroidPatch | lib/graph/patch-parser.ts:89-118 | the same, for the normalised lines of the text: `TextBeforeHeader` exactly when the first line is not a header, any other failure `ParamWithoutValue`; on success the one reading of those lines |
| Graph.FindPort | lib/graph/graph-model.ts:64-65 | the first port of that direction and name, or none when there is none |
| Graph.PortNamed | lib/graph/graph-model.ts:150 | `getPorts()[name]`: the last port added with that name, or none |
| Graph.FirstOfDirection | lib/graph/graph-model.ts:69 | `getOutPorts()[0]` / `getInPorts()[0]`: the first port of that direction, or none |
| Graph.NewMasterNode | lib/graph/graph.ts:71-100 | the five loops build exactly the master node's 40 ports |
| Graph.MasterNamesDistinct | lib/graph/graph.ts:71-100 | the master's port names are pairwise distinct |
| Graph.MasterLookups | lib/graph/graph.ts:71-100 | `N<k>-in` is In at `k-1`, `N<k>-out` is Out at `7+k`, `I<k>` is Out at `15+k`, `O<k>` is In at `23+k`, `R<k>` is In at `31+k` |
| Graph.NewControllerNode | lib/graph/graph.ts:101-125 | the three loops build LED In ports, then button Out ports, then pot Out ports |
| Graph.PotLookup | lib/graph/graph.ts:130-133 | `getPotPort(i)` finds a port exactly when `1 <= i <= pots`, at `2*buttons+i-1` |
| Graph.ButtonLookup | lib/graph/graph.ts:126-129 | `getButtonPort(i)` finds a port exactly when `1 <= i <= buttons`, at `buttons+i-1` |
| Graph.LedLookup | lib/graph/graph.ts:134-137 | `getLedPort(i)` finds a port exactly when `1 <= i <= buttons`, at `i-1` |
| Graph.VisitDescriptor | lib/graph/graph.ts:17-29 | the generator loop yields the descriptor's ports |
| Graph.ExpandNumbers | lib/graph/graph.ts:19-24 | port `i` of a counted descriptor has the direction given and is named prefix + `start_at + i` |
| Graph.ExpandCovers | lib/graph/graph.ts:19-24 | every number from `start_at` to `count` gets a port |
| Graph.ExpandAllShape | lib/graph/graph.ts:177-182 | the ports of a descriptor list: their total count, one direction, every descriptor's ports included |
| Graph.ExpandAllOrder | lib/graph/graph.ts:177-182 | descriptor `j`'s ports, in their own order, are the slice that starts after the ports of descriptors `0..j-1` (`PortsAt`) |
| Graph.NewCircuitNode | lib/graph/graph.ts:170-184 | the constructor's loops build the circuit node |
| Graph.CircuitPortsOrder | lib/graph/graph.ts:177-182 | input descriptor `j`'s ports sit right after the earlier inputs' ports; output descriptor `j`'s sit after all the inputs' ports and the earlier outputs' ports |
| Graph.CircuitNodeShape | lib/graph/graph.ts:177-182 | a catalogued circuit has its In ports first, then its Out ports, every descriptor's ports included; each descriptor's ports form the slice its place in the catalogue entry gives, inputs in order, then outputs in order |
| Graph.UnknownCircuitHasNoPorts | lib/graph/graph.ts:175-176 | a circuit missing from the catalogue has no ports |
| Graph.NewExpressionNode | lib/graph/graph.ts:31-40 | `get` Out port first, then one In port per non-primitive operand |
| Graph.OperandPortsOrder | lib/graph/graph.ts:35-38 | the port of non-primitive operand `k` is at the index that counts the non-primitive operands before it |
| Graph.OperandPortsShape | lib/graph/graph.ts:35-38 | the operand ports are In ports, one per non-primitive operand, named by the operand, in operand order, and no others |
| Graph.ExpressionNodePorts | lib/graph/graph.ts:31-40 | the first Out port is `get` at 0, the rest are In, and there is an In port exactly when some operand is not primitive; non-primitive operand `k`'s port is at 1 plus the count of non-primitive operands before it, so the first In port (index 1) is the first non-primitive operand's |
| Graph.VariableNodePorts | lib/graph/graph.ts:49-61 | `set` is the In port at 0, `get` is the Out port at 1 |
| Graph.PrimitiveNodePorts | lib/graph/graph.ts:42-47 | one Out port `get` and no In port |
| Graph.NonMidiMembership | lib/graph/graph.ts:164-165 | a name is listed exactly when it is in the catalogue and does not contain `midi` |
| Graph.NonMidiAppend | lib/graph/graph.ts:164-165 | the listing keeps the catalogue's order |
| Graph.CircuitNodes | lib/graph/graph.ts:162-168 | every listed node is a circuit node for a catalogued name without `midi` |
| Graph.NonMidiDistinct | lib/graph/graph.ts:164-165 | a catalogue listing without repeats gives a circuit list without repeats |
| Graph.CircuitNodesOfValidCatalog | lib/graph/graph.ts:162-168 | over a valid catalogue, each circuit whose name lacks `midi` is listed exactly once, with all its catalogued ports, and nothing else is listed |
| GraphModel.DiagramModel.constructor | lib/graph/graph-model.ts:18 | a new diagram is empty |
| GraphModel.DiagramModel.AddNode | lib/graph/graph-model.ts:19 | appends the node and returns its handle; links unchanged |
| GraphModel.DiagramModel.AddLink | lib/graph/graph-model.ts:70 | appends the link; nodes unchanged |
| GraphModel.ControllerNodesStepOk | lib/graph/graph-model.ts:23-29 | every node registered under a controller number is a controller node |
| GraphModel.CircuitNodesStepShape | lib/graph/graph-model.ts:31-39 | one circuit node per circuit, appended in order, and the handles point at them |
| GraphModel.AddVariableParam | lib/graph/graph-model.ts:41-48 | the variable step: the memoised node or a new one, and the single link object in its last wiring |
| GraphModel.AddPrimitiveParam | lib/graph/graph-model.ts:97-113 | the diagram becomes the literal step's: one new literal node, then one link, from the parent's Out port of the parameter's name to an undefined end, or else from the node's `get` to the parent's In port of that name, or else none (`WiringFacts.PrimitiveWiring`) |
| GraphModel.AddInputParam | lib/graph/graph-model.ts:115-140 | the input step: parent Out to master, then master to parent In, each when both ends exist |
| GraphModel.AddControlParam | lib/graph/graph-model.ts:142-165 | the diagram becomes the pot or button step's: when the numbered controller is registered, its pot (or button) port and the parent's port of that name both exist, one link from the first to the second; otherwise nothing changes (`WiringFacts.PotWiring`, `WiringFacts.ButtonWiring`) |
| GraphModel.AddLedParam | lib/graph/graph-model.ts:167-180 | the diagram becomes the LED step's: when the numbered controller is registered and both ports exist, one link from the parent's port of that name to the controller's LED port; otherwise nothing changes (`WiringFacts.LedWiring`) |
| GraphModel.AddOutputParam | lib/graph/graph-model.ts:182-190 | the diagram becomes the output step's: when the parent has a port of that name, one link from it to the master's port named by the token, an undefined end when there is none; otherwise nothing changes (`WiringFacts.OutputWiring`, `WiringFacts.OutputToMissingPort`) |
| GraphModel.AddParamNode | lib/graph/graph-model.ts:54-191 | `addParamNode` is the parameter step of its value's kind |
| GraphModel.AddLeafParam | lib/graph/graph-model.ts:80-190 | one step per kind of non-expression value |
| GraphModel.AddExpressionParam | lib/graph/graph-model.ts:55-78 | the diagram becomes the expression step's: the expression node, its non-primitive operands wired to it in order, then the links to the parent (stated link by link in `WiringFacts.ExpressionWiring`) |
| GraphModel.AddControllers | lib/graph/graph-model.ts:21-29 | the controller loop's nodes and number-to-node map |
| GraphModel.AddCircuitNodes | lib/graph/graph-model.ts:31-39 | the circuit loop's nodes |
| GraphModel.AddCircuitParams | lib/graph/graph-model.ts:50-196 | every circuit's parameters wired in order |
| GraphModel.BuildDroidModel | lib/graph/graph-model.ts:16-198 | a fresh diagram holding exactly the specified nodes and links for the patch |
| GraphModel.FirstUndefined | lib/graph/graph-model.ts:67-187 | the first link with an undefined end, the one on which the builder throws; no link before it has one, and none at all when there is none |
| GraphModel.CreateDroidModel | lib/graph/graph-model.ts:13-199 | fails with the parser's error exactly when the parser throws; otherwise it fails with `UndefinedPort` exactly when the diagram of the one patch the text reads as wires a link to an undefined port, naming such a link, and else returns that diagram |
| DiagramFacts.GrowsTrans | lib/graph/graph-model.ts:54-195 | the builder only appends, and this is transitive |
| DiagramFacts.WithLinkWf | lib/graph/graph-model.ts:70 | adding a link whose ends exist keeps the diagram well-formed |
| DiagramFacts.VariableStepWf | lib/graph/graph-model.ts:80-95 | the variable step keeps the diagram well-formed and only appends |
| DiagramFacts.PrimitiveStepWf | lib/graph/graph-model.ts:97-113 | the literal step keeps the diagram well-formed and only appends |
| DiagramFacts.InputStepWf | lib/graph/graph-model.ts:115-140 | the input step keeps the diagram well-formed and only appends |
| DiagramFacts.ControlStepWf | lib/graph/graph-model.ts:142-165 | the pot and button step keeps the diagram well-formed and only appends |
| DiagramFacts.LedStepWf | lib/graph/graph-model.ts:167-180 | the LED step keeps the diagram well-formed and only appends |
| DiagramFacts.OutputStepWf | lib/graph/graph-model.ts:182-190 | the output step keeps the diagram well-formed and only appends |
| DiagramFacts.OperandsStepWf | lib/graph/graph-model.ts:59-62 | wiring the operands keeps the diagram well-formed and only appends |
| DiagramFacts.ExpressionNodePlaced | lib/graph/graph-model.ts:56-57 | in a well-formed diagram the expression's node is added at the old node count |
| DiagramFacts.ExpressionStepWf | lib/graph/graph-model.ts:55-78 | the expression step keeps the diagram well-formed and only appends |
| DiagramFacts.ParamsStepWf | lib/graph/graph-model.ts:193-195 | wiring a circuit's parameters keeps the diagram well-formed and only appends |
| DiagramFacts.CircuitParamsStepWf | lib/graph/graph-model.ts:50-196 | wiring all circuits keeps the diagram well-formed |
| DiagramFacts.ControllerNodesStepShape | lib/graph/graph-model.ts:23-29 | one portless controller node per controller, appended in order and registered under its number |
| DiagramFacts.NumberedTableExtend | lib/graph/graph-model.ts:23-29 | registering controller `n+1` after controllers `1..n` gives the table for `1..n+1` |
| DiagramFacts.ControllersOfParsedPatch | lib/graph/graph-model.ts:23-29 | for parsed controllers, numbers `1..n` map to the nodes at `1..n` and no other number is registered |
| DiagramFacts.BuildSpecShape | lib/graph/graph-model.ts:16-39 | the diagram is well-formed: master at 0, then the controllers (portless), then the circuits |
| DiagramFacts.BuiltVariablesUnique | lib/graph/graph-model.ts:41-48 | no two variable nodes share a name |
| DiagramFacts.BuiltLinkEnds | lib/graph/graph-model.ts:54-195 | every link end is missing or an existing port, and never on a controller node |
| WiringFacts.VariableWiring | lib/graph/graph-model.ts:80-95 | a variable adds its node once, and the link goes parent Out to `set`, or else `get` to parent In, or else no link |
| WiringFacts.VariableMemo | lib/graph/graph-model.ts:42-43 | a second use of a variable reuses its node |
| WiringFacts.PrimitiveWiring | lib/graph/graph-model.ts:97-113 | a literal adds a node; the link goes parent Out to an undefined end, on which the builder throws, or else `get` to parent In |
| WiringFacts.NormalledInputWiring | lib/graph/graph-model.ts:115-140 | `N<k>`: parent Out to `N<k>-in`, then `N<k>-out` to parent In |
| WiringFacts.InputWiring | lib/graph/graph-model.ts:115-140 | `I<k>`: parent Out to `I<k>`, then `I<k>` to parent In, though `I<k>` is an Out port |
| WiringFacts.OutputWiring | lib/graph/graph-model.ts:182-190 | `O<k>`: the parent's port of that name to `O<k>`, when the parent has it |
| WiringFacts.OutputToMissingPort | lib/graph/graph-model.ts:182-190 | a token naming no master port: the parent's port to an undefined end, on which the builder throws |
| WiringFacts.MasterTokenWiring | lib/graph/graph-model.ts:115-190 | the parsed tokens `N<k>`, `I<k>` and `O<k>` are wired to those master ports |
| WiringFacts.ControlUnwired | lib/graph/graph-model.ts:142-180 | with portless controllers, a pot, button or LED parameter adds nothing |
| WiringFacts.PotWiring | lib/graph/graph-model.ts:142-165 | a pot in range links the controller's pot port to the parent's port; anything else adds nothing |
| WiringFacts.ButtonWiring | lib/graph/graph-model.ts:142-165 | a button in range links the controller's button port to the parent's port; anything else adds nothing |
| WiringFacts.LedWiring | lib/graph/graph-model.ts:167-180 | an LED in range links the parent's port to the controller's LED port; anything else adds nothing |
| WiringFacts.LiteralOperandsUnwired | lib/graph/graph-model.ts:59-62 | literal operands are skipped |
| WiringFacts.LiteralExpressionWiring | lib/graph/graph-model.ts:55-78 | an expression of literals adds its node and only the links to its parent; the one from the parent has an undefined target, on which the builder throws |
| WiringFacts.LiteralsCountZero | lib/graph/graph.ts:35-38 | an expression of literals gets no operand ports |
| WiringFacts.NonPrimitiveOperands | lib/graph/graph-model.ts:59-62 | the operands that get wired: as many as there are non-primitive operands, none primitive, all taken from the operands |
| WiringFacts.OperandsSkipPrimitives | lib/graph/graph-model.ts:59-62 | wiring all the operands is wiring only the non-primitive ones: primitive operands contribute nothing |
| WiringFacts.ExpressionWiring | lib/graph/graph-model.ts:55-78 | for any operands: the non-primitive operands are wired into the new node, then `get` (port 0) links to the parent's In port of that name, and the parent's Out port of that name links to port 1, which is there exactly when some operand is not primitive (otherwise the end is undefined and the builder throws) |

## Left out

- `GraphDroid` (layout engine, `setPatch`, `redistribute`) and the UI files: rendering and layout through a third-party library.
- Node and port ids, labels, colours and `extras`. The library's id-keyed store is left out too, so two nodes that share an id are two nodes here. Examples: two expressions with the same text, or two equal literals.
- The `console` logging in the pot/button branch and in the controller constructor.
- `toUpperCase` is modelled for ASCII only; other characters are kept as they are.
- `parseInt` and `String(n)` are modelled on unbounded integers: no precision loss past 2^53, and no exponent form. JavaScript writes numbers from 1e21 up as `1e+21`, and `parseInt` reads that back as 1.
- The library's own behaviour is assumed, not modelled:
  - `setSourcePort`/`setTargetPort` throw on `undefined` (they call `addLink` on it), which the model reports as `UndefinedPort`;
  - adding the same link object twice keeps one link, in its last wiring;
  - `getPorts()` maps a name to the last port added with it.
- Lookups of inherited object-property names (`getPorts()["constructor"]`) are not modelled.
- The circuit catalogue (`data/circuits.json`) is not part of this model. It is a `Catalog` parameter, whose `order` stands for the order `Object.entries` lists it in. A `Catalog` value need not list each of its entries exactly once; `Graph.ValidCatalog` states that, and `Graph.CircuitNodesOfValidCatalog` assumes it.
- Pot, button and LED addresses in the parser always carry the controller type `p2b8`; the model keeps only the numbers.
- `GraphNodeDroidValueValue` is never used by the core.
- Graph.CircuitNodes: states only that each listed node is a catalogued non-`midi` circuit node. That the names are exactly the non-`midi` names, in catalogue order, is stated about the name list by `Graph.NonMidiMembership` and `Graph.NonMidiAppend`.
