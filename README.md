# spice-pdn-generator core, modelled in Dafny

`spice-pdn-generator` reads the SPICE netlist of a chip's power delivery
network (PDN), builds an in-memory graph from it and writes perturbed copies.
The netlist holds resistors `R`, current sources `I` and voltage sources `V`.
Each line is `name node node value`, and a node is named like
`n1_m<layer>_<x>_<y>`. The program has three jobs:

- It perturbs the current sources in one of three ways: it scales every
  source, it connects generated sources to free nodes of layer 1, or it
  moves real sources onto such nodes.
- It computes the DC voltage of every node by Gauss-Seidel-style sweeps.
- It writes the working graph back as a netlist.

This project models the `PDNContainer` class and the element classes it
drives: `Node`, `Resistor`, `CurrentSource` and `VoltageSource`.

Shape of the model:

- The four element kinds are datatypes.
- The container's element vectors are arenas, which are sequences of these
  records. Elements point to each other by index into the arenas; the source
  uses `shared_ptr`s for these links.
- `PdnState` in `graph.dfy` bundles the arenas. `WellFormed` says every link
  is in range. `EdgesConsistent` says each node's resistor list and its
  neighbour list run in parallel, as the DC step relies on.
- `Container.PdnContainer` is a class whose fields are the arenas. Its
  methods update those fields in place. Each method is proved to leave the
  state that the matching function over `PdnState` describes, and lemmas
  prove what the source promises about those functions.

Outside inputs are parameters:

- The random draws are `picks` (the indices the integer distributions
  return) and `fractions` (the points in [0, 1) that `uniform_real_distribution`
  maps to `lo + u * (hi - lo)`).
- `std::stod` is a parameter `toValue` that returns `None` when it would throw.
- Number formatting is a parameter `fmt`.
- The netlist file is the sequence of its raw lines.

Files, in dependency order:

- `types.dfy`: the coordinate triple and the fixed-width integers.
- `strings.dfy`: `trim`, the `getline(…, ' ')` tokenizer and decimal printing.
- `node_name.dfy`: `parseNodeName` and the node field that `toString` writes.
- `resistor.dfy`, `current_source.dfy`, `voltage_source.dfy`, `node.dfy`: the element classes.
- `graph.dfy`: the arena state and its invariants.
- `parser.dfy`: the constructor's retain loop and `resetWorkingGraph`.
- `perturbation.dfy`: scaling, connecting generated sources and moving sources.
- `dc_solver.dfy`: `solveDC` and `solveDCAndSaveRealValues`.
- `netlist.dfy`: `writeNetlistToFile`.
- `pdn_container.dfy`: the class.

Two behaviours of the code are worth stating outright, and the model keeps
both:

- `solveDC` returns the index of the sweep in which every node settled. It
  leaves the loop before incrementing, so it does not return the number of
  sweeps run. A run that settles in its first sweep returns 0.
- The integer draws are not repeated when they hit an index already drawn.
  The drawn set can therefore be smaller than the number of draws.

## Model

| member | source | states |
|---|---|---|
| Types.Truncate8 | src/resistor.cpp:10 | The `(uint8_t)` cast of a layer slot keeps values below 256 and is otherwise congruent modulo 256. |
| Strings.TrimLeftDrops | src/pdn_container.cpp:24 | The first erase removes exactly the leading whitespace: the result is the suffix after it, every dropped character is whitespace, and the result does not start with whitespace. |
| Strings.TrimRightDrops | src/pdn_container.cpp:25 | The second erase removes exactly the trailing whitespace: the result is the prefix before it, every dropped character is whitespace, and the result does not end with whitespace. |
| Strings.TrimmedShape | src/pdn_container.cpp:22-26 | `trim` returns a contiguous piece of its input, and everything cut off on either side is whitespace. |
| Strings.TrimmedEnds | src/pdn_container.cpp:22-26 | A trimmed line is empty, or it starts and ends with a non-whitespace character. |
| Strings.Trim | src/pdn_container.cpp:22-26 | The two in-place erases together produce the specified trim. |
| Strings.EraseFront | src/pdn_container.cpp:24 | The loop that finds the first non-space character and erases before it yields the left trim. |
| Strings.EraseBack | src/pdn_container.cpp:25 | The loop that finds the last non-space character and erases after it yields the right trim. |
| Strings.FirstSpace | src/pdn_container.cpp:169 | The end of the next token is the first `' '` at or after the start, or the end of the line. |
| Strings.Tokens | src/pdn_container.cpp:165-170 | Splitting on `' '` gives no tokens exactly for the empty line, and no token contains a space. |
| Strings.TokensCons | src/pdn_container.cpp:169-170 | A space-free first field followed by a space is the first token, and the rest is tokenized on its own. |
| Strings.TokensOfJoin | src/pdn_container.cpp:169-170 | Space-free fields joined by single spaces, the last one nonempty, tokenize back to exactly those fields. |
| Strings.JoinOfTokens | src/pdn_container.cpp:169-170 | A line that does not end in a space is recovered by joining its tokens with single spaces, so no character is lost. |
| Strings.DoubleSpaceGivesEmptyToken | src/pdn_container.cpp:169-170 | Two consecutive spaces produce an empty token between the fields around them. |
| Strings.FourTokens | src/pdn_container.cpp:165-172 | The four-field shape `a b c d` with nonempty `d` has exactly the tokens `[a, b, c, d]`. |
| Strings.SplitTokens | src/pdn_container.cpp:165-170 | The `getline` loop collects exactly the specified tokens. |
| Strings.NatToString | src/resistor.cpp:19-20 | Stream output of an unsigned is nonempty, all digits, has no leading zero unless it is `0`, and contains no space. |
| Strings.NatToStringRoundTrip | src/resistor.cpp:19-20 | The printed digits read back as the number printed. |
| NodeNames.DigitRuns | src/pdn_container.cpp:99-117 | The scan splits a name into its maximal nonempty runs of digits. |
| NodeNames.Stoul | src/pdn_container.cpp:106 | `std::stoul` of a digit run succeeds exactly when the value fits in `unsigned long`, and then returns that value; otherwise it throws `out_of_range`. |
| NodeNames.ParseNodeName | src/pdn_container.cpp:91-123 | The character loop computes the specified coordinates: `0` for the name `"0"`; otherwise digit runs 2, 3 and 4 fill layer, x and y, absent runs leave 0, and the first run and any run after the fourth are ignored. An out-of-range run is an error. |
| NodeNames.ParseNodeNameAsWritten | src/pdn_container.cpp:97-117 | With the source's unchecked index, the loop agrees with the specification on every name with at most four digit runs. It is callable only there (see Findings). |
| NodeNames.FiveRunNameRuns | src/pdn_container.cpp:99-114 | `n1_m1_2_3_4` has five digit runs. |
| NodeNames.FifthDigitRunHasNoSlot | src/pdn_container.cpp:105-117 | On `n1_m1_2_3_4` the fifth run has no slot, and the corrected parse yields (1, 2, 3). |
| NodeNames.NodeField | src/resistor.cpp:19-20 | The node field `n1_m<layer>_<x>_<y>` written by `toString` is nonempty and space-free. |
| NodeNames.NodeFieldRuns | src/resistor.cpp:19-20 | The digit runs of a written node field are `1`, the layer, x and y. |
| NodeNames.NodeFieldRoundTrip | src/pdn_container.cpp:91-123 | Parsing a written node field gives back the layer, x and y that were written. |
| Resistors.ViaOfNewResistor | src/resistor.cpp:8-14 | A new resistor is a via exactly when its two layer slots differ after the 8-bit cast (`isViaResistor`, src/resistor.cpp:26-31). |
| Resistors.LineRoundTrip | src/resistor.cpp:16-24 | A resistor's netlist line, `name` plus `toString()`, has four tokens: its name, two fields that parse back to its two ends, and its formatted value. |
| Resistors.NewResistorRoundTrip | src/resistor.cpp:8-24 | A resistor built from two coordinate triples writes node fields that parse back to those triples with the layers cast to 8 bits. |
| Resistors.FullyDisconnection | src/resistor.cpp:33-36 | Clears the connected nodes and changes nothing else. |
| CurrentSources.SetNewCoords | src/current_source.cpp:15-20 | The source takes the given coordinates, with the layer cast to 8 bits, and keeps its value, name and node. |
| CurrentSources.LineRoundTrip | src/current_source.cpp:22-30 | A current source's line has four tokens: its name, a field that parses back to its coordinates, the ground node `0`, and its formatted value. |
| CurrentSources.MovedLineRoundTrip | src/current_source.cpp:15-30 | After `setNewCoords`, the written node field parses back to the new coordinates. |
| CurrentSources.FullyDisconnection | src/current_source.cpp:32-35 | Nulls the node link and changes nothing else. |
| VoltageSources.LineRoundTrip | src/voltage_source.cpp:15-24 | A voltage source's line has four tokens: its name, its node field, the ground node `0`, and its formatted value. |
| VoltageSources.NewVoltageSourceRoundTrip | src/voltage_source.cpp:8-24 | A new voltage source writes a node field that parses back to its coordinates with the layer cast to 8 bits. |
| VoltageSources.FullyDisconnection | src/voltage_source.cpp:26-29 | Nulls the node link and changes nothing else. |
| Nodes.NewNode | src/node.cpp:11-15 | A new node has the given name and coordinates with the layer cast to 8 bits. It has no links, every flag is false and every number is 0 (include/node.h:16-33). |
| Nodes.AddInverseSumOfResistance | src/node.cpp:17-20 | Adds `1/R` to the running sum and changes nothing else. |
| Nodes.ConnectResistor | src/node.cpp:27-30 | Appends exactly the resistor to the node's resistor list and changes nothing else. |
| Nodes.ConnectCurrentSource | src/node.cpp:32-35 | Appends exactly the source to the node's current-source list and changes nothing else. |
| Nodes.ConnectVoltageSource | src/node.cpp:37-40 | Appends exactly the source to the node's voltage-source list and changes nothing else. |
| Nodes.FirstNamed | src/node.cpp:46-55 | The erase position is the first list entry whose source has the target's name, or the end of the list when there is none. |
| Nodes.RemoveNoMatch | src/node.cpp:42-56 | When no connected source has the target's name, the list is unchanged. |
| Nodes.RemoveMatch | src/node.cpp:42-56 | When some entry has the target's name, exactly the first such entry is erased: the entries before it stay, the ones after it shift down by one, and the multiset loses that one index. |
| Nodes.RemoveUndoesAppend | src/node.cpp:32-56 | Disconnecting a source just connected, under a name no earlier entry has, restores the list. |
| Nodes.DisconnectCurrentSource | src/node.cpp:42-56 | The iterator loop leaves the node with the specified first-match erase applied to its current sources. |
| Nodes.DisconnectVoltageSource | src/node.cpp:58-72 | The same as above, for its voltage sources. |
| Nodes.IsViaNode | src/node.cpp:74-83 | True exactly when some connected resistor is a via. |
| Nodes.FullyDisconnection | src/node.cpp:132-138 | Clears the four link lists and changes nothing else. |
| Nodes.ReinitializationDC | src/node.cpp:101-110 | A voltage node is untouched. Any other node's current sum is reset to the sum of its connected sources' values, and nothing else changes. |
| Nodes.StepDC | src/node.cpp:112-130 | A voltage node is untouched and reports settled (1). Any other node gets the new value `(Σ neighbour/R − current sum) / (Σ 1/R)`, and reports 1 exactly when the value moved by less than the precision, otherwise 0. |
| Nodes.InitializationDC | src/node.cpp:85-99 | A voltage node is untouched. Any other node adds its sources' values to its current sum and takes the value `(current sum − Σ neighbour/R) / (Σ 1/R)`. |
| Parser.RetainedLines | src/pdn_container.cpp:54-60 | The retained file holds at most as many lines as the input. Each retained line is nonempty, starts with an element letter and does not end in whitespace. |
| Parser.KeptLineIff | src/pdn_container.cpp:54-60 | A raw line is retained exactly when its trimmed form starts with `i I R r V v`, and then it is retained trimmed. |
| Parser.BlankLineDropped | src/pdn_container.cpp:55-57 | An all-whitespace line is dropped. |
| Parser.RetainElementLines | src/pdn_container.cpp:54-60 | The `getline` loop keeps exactly the specified lines. |
| Parser.EnsureNode | src/pdn_container.cpp:187-195 | A node name seen before reuses its node. A new name appends a fresh node at the end of the arena and records its index. Nothing but the node arena changes. |
| Parser.ResistorEnd | src/pdn_container.cpp:207-221 | The node gains the other end as a neighbour and `1/R` in its sum. It becomes able to take a current source if this end is on layer 1, and a voltage source if on layer 9. Nothing else changes. |
| Parser.ApplyLine | src/pdn_container.cpp:164-177 | A line fails with `Invalid line: ` plus the line exactly when its token count is not 4. |
| Parser.LinkResistorNodes | src/pdn_container.cpp:197-221 | Linking a resistor sets its two connected nodes and appends it and the opposite end to both endpoints (twice to one node for a self-loop). Each endpoint gains `1/R` in its sum (`2/R` for a self-loop) and becomes able to take a current source if its end is on layer 1, a voltage source if on layer 9. In every node only those five fields can change; every other node and the other arenas are unchanged. |
| Parser.LinkResistorWellFormed | src/pdn_container.cpp:197-221 | Linking keeps every index in range. |
| Parser.LinkResistorEdges | src/pdn_container.cpp:200-207 | Linking a fresh resistor keeps each node's resistor and neighbour lists parallel. |
| Parser.EnsureNodeNames | src/pdn_container.cpp:187-195 | After the lookup the name maps to a node of that name, earlier entries keep their indices, and the arena prefix is unchanged. |
| Parser.EnsureNodeOk | src/pdn_container.cpp:187-195 | The lookup keeps the builder invariant: the name map indexes the arena, which is well formed and edge-consistent. |
| Parser.AddResistorOk | src/pdn_container.cpp:180-224 | Handling an `R` line keeps the builder invariant. |
| Parser.AddCurrentSourceOk | src/pdn_container.cpp:226-245 | Handling an `I` line keeps the builder invariant. |
| Parser.AddVoltageSourceOk | src/pdn_container.cpp:247-271 | Handling a `V` line keeps the builder invariant. |
| Parser.ApplyLineOk | src/pdn_container.cpp:164-275 | Any successfully applied line keeps the builder invariant. |
| Parser.AddResistorEffect | src/pdn_container.cpp:180-204 | An `R` line appends one resistor named by token 0 and linked to the nodes of tokens 1 and 2, leaves the source arenas and the supply alone, and only adds names. |
| Parser.AddResistorLinks | src/pdn_container.cpp:203-215 | After an `R` line, both endpoint nodes end with the new resistor and with each other as last neighbour. |
| Parser.AddCurrentSourceEffect | src/pdn_container.cpp:226-245 | An `I` line appends one source on the node of token 1. That node then lists it last and is marked unable to take a current source; the other arenas are unchanged. |
| Parser.AddVoltageSourceEffect | src/pdn_container.cpp:247-271 | A `V` line appends one source on the node of token 1. That node lists it last, adds the source value to its own, and becomes a voltage node unable to take another voltage source; the supply becomes this value. |
| Parser.BuildLines | src/pdn_container.cpp:164-276 | Building over the lines keeps the builder invariant, whether it stops at a throw or not. |
| Parser.BuildLinesAppend | src/pdn_container.cpp:164-276 | Building over two blocks of lines is building the second from the first's result, unless the first threw. |
| Parser.BuildLinesRejectsMalformed | src/pdn_container.cpp:172-173 | A file with any line of other than four tokens ends in an error. |
| Parser.CountKind | src/pdn_container.cpp:179 | The lines of one element letter are at most all the lines. |
| Parser.ApplyLineCounts | src/pdn_container.cpp:179-275 | A successful line adds one element to the arena of its letter and none to the others; other letters add nothing. |
| Parser.BuildLinesCounts | src/pdn_container.cpp:164-276 | A build without error holds one resistor per `R`/`r` line, one current source per `I`/`i` line and one voltage source per `V`/`v` line. |
| Parser.EnsureNodeNamed | src/pdn_container.cpp:187-195 | The lookup keeps the map in agreement with the node names. |
| Parser.AddResistorNamed | src/pdn_container.cpp:180-224 | An `R` line keeps the map in agreement with the node names. |
| Parser.AddCurrentSourceNamed | src/pdn_container.cpp:226-245 | An `I` line keeps the map in agreement with the node names. |
| Parser.AddVoltageSourceNamed | src/pdn_container.cpp:247-271 | A `V` line keeps the map in agreement with the node names. |
| Parser.ApplyLineNamed | src/pdn_container.cpp:164-275 | Any line keeps the map in agreement with the node names. |
| Parser.BuildLinesNamed | src/pdn_container.cpp:164-276 | The whole build keeps the map in agreement with the node names. |
| Parser.NodesNamedDistinct | src/pdn_container.cpp:155 | A name map in agreement with the arena implies the node names are pairwise distinct. |
| Parser.EmptyBuilder | src/pdn_container.cpp:155-158 | The build starts with empty arenas and an empty map, which satisfy both invariants. |
| Parser.FreshBuildDistinctNames | src/pdn_container.cpp:152-277 | A graph built from the file never holds two nodes with the same name. |
| Perturbation.ScaleSourcesSpec | src/pdn_container.cpp:282-287 | Every source's value is multiplied by `1 + delta` and nothing else about it changes. |
| Perturbation.ScaledCurrentSum | src/pdn_container.cpp:282-287 | Scaling multiplies every node's current sum by `1 + delta`. |
| Perturbation.ScaleKeepsWellFormed | src/pdn_container.cpp:282-287 | Scaling keeps the graph invariants. |
| Perturbation.EligibleUpTo | src/pdn_container.cpp:294-298 | The candidate loop collects, in increasing order, exactly the nodes below the bound that are not faked and can take a current source. |
| Perturbation.EligibleNodes | src/pdn_container.cpp:294-298 | The candidates are exactly the eligible nodes. |
| Perturbation.MovableUpTo | src/pdn_container.cpp:349-353 | The loop collects, in increasing order, exactly the sources below the bound whose node is not faked. |
| Perturbation.MovableSources | src/pdn_container.cpp:349-353 | The sources to disconnect are exactly those on untouched nodes. |
| Perturbation.ValueRange | src/pdn_container.cpp:301-307 | The min and max folds start at 0, so the range contains 0 and every source value. |
| Perturbation.DrawValueInRange | src/pdn_container.cpp:318-325 | A generated value lies in the range of the existing values, below the max when the range is not a single point. |
| Perturbation.Ceil | src/pdn_container.cpp:312 | `ceil` is the least integer at or above its argument. |
| Perturbation.Floor | src/pdn_container.cpp:362 | `floor` is the greatest integer at or below its argument. |
| Perturbation.InsertDesc | src/pdn_container.cpp:310-315 | Inserting into a `std::set` with `greater` keeps it strictly descending, adds exactly the value, and grows it by at most one. |
| Perturbation.Drawn | src/pdn_container.cpp:314-316 | The drawn set is strictly descending and no larger than the number of draws. |
| Perturbation.DrawnMembers | src/pdn_container.cpp:314-316 | Every drawn candidate is in the set, and the set holds only candidates. |
| Perturbation.DrawnOnlyDrawn | src/pdn_container.cpp:314-316 | Every member of the set was drawn by some draw. |
| Perturbation.DrawnNonEmpty | src/pdn_container.cpp:314-316 | At least one draw gives a nonempty set. |
| Perturbation.RepeatedDrawShrinksSet | src/pdn_container.cpp:314-316 | Two draws of the same candidate give a set of one element. |
| Perturbation.FakeName | src/pdn_container.cpp:321-322 | A generated name is `I` followed by decimal digits. |
| Perturbation.FakeNamesDistinct | src/pdn_container.cpp:321-322 | Generated names made at different arena sizes differ. |
| Perturbation.PlaceFakes | src/pdn_container.cpp:320-332 | The placement loop adds one source per target and no node. |
| Perturbation.ConnectTargets | src/pdn_container.cpp:309-316 | The drawn targets are descending and are all eligible nodes. |
| Perturbation.DescendingDistinct | src/pdn_container.cpp:310 | A descending sequence has no repeats, so no node gets two generated sources. |
| Perturbation.PlaceFakesFrame | src/pdn_container.cpp:320-332 | Placement changes neither resistors, voltage sources nor existing current sources. |
| Perturbation.PlaceFakesSources | src/pdn_container.cpp:320-332 | The `t`-th new source is the one generated for the `t`-th target. |
| Perturbation.PlaceFakesUntouched | src/pdn_container.cpp:320-332 | A node that is not a target is unchanged. |
| Perturbation.PlaceFakesTargets | src/pdn_container.cpp:326-330 | Each target lists its new source last and is marked faked and unable to take another. |
| Perturbation.PlaceFakeWellFormed | src/pdn_container.cpp:324-331 | One placement keeps the graph invariants. |
| Perturbation.PlaceFakesWellFormed | src/pdn_container.cpp:320-332 | The placement loop keeps the graph invariants. |
| Perturbation.ConnectFakeFallback | src/pdn_container.cpp:333-335 | With no eligible node, every source is scaled by `1 + delta` and nothing else changes. |
| Perturbation.ConnectFakeCount | src/pdn_container.cpp:300-332 | With eligible nodes, the existing sources stay. At most `ceil(n·delta)` sources are added, at least one when `delta > 0` and none when `delta <= 0`. |
| Perturbation.ConnectFakeSource | src/pdn_container.cpp:320-332 | Each added source sits on an eligible node at that node's coordinates, is named `I<count+1>`, and has a value in the existing range. Its node lists it last and is marked faked. |
| Perturbation.ConnectFakeUntouched | src/pdn_container.cpp:290-336 | Nodes not drawn are unchanged. |
| Perturbation.ConnectFakeWellFormed | src/pdn_container.cpp:290-336 | Connecting generated sources keeps the graph invariants. |
| Perturbation.ConnectFakeKeepsNode | src/pdn_container.cpp:290-336 | The node arena keeps its size. Every node changes at most in its current-source list, its able mark and its faked mark, and no faked mark is cleared. |
| Perturbation.ConnectFakeKeepsMoved | src/pdn_container.cpp:290-336 | A source on a faked node keeps its node. |
| Perturbation.SourceLinksOfWellFormed | src/pdn_container.cpp:350 | In a well-formed graph every source's `connectedNode` can be dereferenced. |
| Perturbation.MoveOneLinks | src/pdn_container.cpp:374-390 | One move keeps source and node links in range. |
| Perturbation.MoveOneArenas | src/pdn_container.cpp:374-390 | One move changes only the node and current-source arenas. |
| Perturbation.MoveOneKeepsNode | src/pdn_container.cpp:374-390 | One move changes every node at most in its current-source list, its able mark and its faked mark, and clears no faked mark. |
| Perturbation.MoveOneSources | src/pdn_container.cpp:383-386 | The moved source is on the target, is renamed with `_new`, takes the target's coordinates and keeps its value. The other sources are unchanged. |
| Perturbation.MoveOneNodes | src/pdn_container.cpp:377-390 | The old node erases the source by name and is marked able and faked. The target lists it last and is marked unable and faked. Every other node is unchanged. |
| Perturbation.MoveOneFaked | src/pdn_container.cpp:380-390 | After a move, both the old node and the target are faked. |
| Perturbation.MoveFrom | src/pdn_container.cpp:372-394 | The bounded move loop keeps the arena sizes. |
| Perturbation.MoveFromArenas | src/pdn_container.cpp:372-394 | The move loop changes only the node and current-source arenas. |
| Perturbation.MoveTo | src/pdn_container.cpp:372-394 | The first `i` passes, each applied to the state the one before left, keep every source link in range and the arena sizes. |
| Perturbation.MoveFromTo | src/pdn_container.cpp:372-394 | Running the passes from `i` onward after the first `i` is running the first `k`: the loop read forwards and backwards agree. |
| Perturbation.MoveTraceOf | src/pdn_container.cpp:372-394 | The states the move loop passes through exist, each is one move on the one before, and the last is the loop's result. |
| Perturbation.MoveFromKeepsNode | src/pdn_container.cpp:372-394 | The move loop changes every node at most in its current-source list, its able mark and its faked mark, and clears no faked mark. |
| Perturbation.MoveFromLinks | src/pdn_container.cpp:372-394 | The move loop keeps all links in range. |
| Perturbation.MoveFromEdges | src/pdn_container.cpp:372-394 | The move loop keeps the graph invariants. |
| Perturbation.MoveFromUntouched | src/pdn_container.cpp:372-394 | A source not picked is unchanged. |
| Perturbation.MoveFromMoved | src/pdn_container.cpp:372-394 | Each picked source ends as its one move made it. |
| Perturbation.MoveFromTargetFaked | src/pdn_container.cpp:388-390 | Every target node ends faked. |
| Perturbation.MoveFromOriginFaked | src/pdn_container.cpp:377-380 | Every node a source left ends faked. |
| Perturbation.SourcesToMove | src/pdn_container.cpp:356-367 | The sources drawn to move are descending, at most `floor(n·delta)` of them, all on untouched nodes. |
| Perturbation.NodesToFill | src/pdn_container.cpp:356-367 | The nodes drawn to receive are descending, at most `floor(n·delta)` of them, all eligible. |
| Perturbation.InverseAsWritten | src/pdn_container.cpp:369-394 | When both sets hold the full count, the source's loop of `total` iterator steps agrees with the corrected model. It is callable only there (see Findings). |
| Perturbation.InverseOverrunsSet | src/pdn_container.cpp:362-374 | With two movable sources, `delta = 1` and the same index drawn twice, the set of sources to move has one element but the loop steps twice. |
| Perturbation.InverseFallback | src/pdn_container.cpp:395-397 | With no movable source or no eligible node, the result is `connectFakeCurrentSources(delta)`. |
| Perturbation.InverseCount | src/pdn_container.cpp:355-394 | With both kinds of candidate, the arena sizes, resistors and voltage sources stay. The moves made are at most `floor(n·delta)`, and at least one when that count is positive. |
| Perturbation.InverseMovedSource | src/pdn_container.cpp:369-394 | The `t`-th drawn source, which was on an untouched node, ends on the `t`-th drawn eligible node. It is renamed `_new`, at that node's coordinates, with the same value, and both nodes are faked, so it cannot be moved again. |
| Perturbation.InverseUntouched | src/pdn_container.cpp:369-394 | Sources not drawn are unchanged. |
| Perturbation.InverseKeepsNode | src/pdn_container.cpp:338-398 | In either branch the node arena keeps its size. Every node changes at most in its current-source list, its able mark and its faked mark, and no faked mark is cleared. |
| Perturbation.InverseWellFormed | src/pdn_container.cpp:338-398 | Moving, or its fallback, keeps the graph invariants. |
| Perturbation.InverseKeepsMoved | src/pdn_container.cpp:349-353 | A source already on a faked node is never moved again. |
| DcSolver.ValuesOnlyReady | src/pdn_container.cpp:403-424 | Changing only node values keeps the graph ready for the DC step. |
| DcSolver.StepAt | src/pdn_container.cpp:415-417 | Stepping node `k` changes only its value, leaves a voltage node alone, and counts it settled exactly when it is a voltage node or moved by less than the precision. |
| DcSolver.SweepFromPrefix | src/pdn_container.cpp:415-417 | A sweep from position `k` leaves the nodes before `k` alone. |
| DcSolver.SweepFromValuesOnly | src/pdn_container.cpp:415-417 | A sweep changes only node values. |
| DcSolver.SweepFromCount | src/pdn_container.cpp:413-417 | The sweep's count is the number of nodes that settled in it. |
| DcSolver.SolvedCountFull | src/pdn_container.cpp:419 | The count equals the node count exactly when every node settled. |
| DcSolver.SettlesIff | src/pdn_container.cpp:413-420 | A sweep ends the loop exactly when every non-voltage node moved by less than the precision. |
| DcSolver.SweepValuesOnly | src/pdn_container.cpp:415-417 | A full sweep changes only node values. |
| DcSolver.Solve | src/pdn_container.cpp:412-423 | The returned count never exceeds the iteration budget. |
| DcSolver.SolveNoEarlierSettling | src/pdn_container.cpp:412-421 | No sweep before the returned index settled. |
| DcSolver.SolveStopsAfterSettling | src/pdn_container.cpp:412-423 | Below the budget, the returned index is a settling sweep, and the nodes are as that sweep left them. |
| DcSolver.SolveExhaustsBudget | src/pdn_container.cpp:412-423 | When the budget is used up, exactly that many sweeps ran. |
| DcSolver.SolveValuesOnly | src/pdn_container.cpp:403-424 | Solving changes only node values. |
| DcSolver.ReinitAll | src/pdn_container.cpp:408-410 | Voltage nodes are untouched. Every other node's current sum becomes its sources' sum, and nothing else changes. |
| DcSolver.InitFromSpec | src/pdn_container.cpp:428-430 | The `initializationDC` pass gives every non-voltage node its accumulated current sum and changes only value and sum. Voltage nodes are untouched. |
| DcSolver.SaveRealValues | src/pdn_container.cpp:434-436 | Every node's real value becomes its value, and nothing else changes. |
| DcSolver.SolveSameLinks | src/pdn_container.cpp:403-424 | The reinitialization pass and the sweeps change no node's neighbours, resistors or sources. |
| DcSolver.InitSameLinks | src/pdn_container.cpp:428-430 | The `initializationDC` pass changes no node's neighbours, resistors or sources. |
| DcSolver.SaveSameLinks | src/pdn_container.cpp:434-436 | Saving the real values changes no node's neighbours, resistors or sources. |
| Netlist.ResistorLines | src/pdn_container.cpp:502-504 | One line per resistor. |
| Netlist.NetlistLines | src/pdn_container.cpp:497-516 | The netlist has one line per element. |
| Netlist.NetlistLayout | src/pdn_container.cpp:502-512 | Resistor lines come first, then voltage sources, then current sources, each block in arena order. |
| Netlist.ResistorLineFields | src/pdn_container.cpp:502-504 | A written resistor line reads back into its name, its two ends and its value. |
| Netlist.VoltageLineFields | src/pdn_container.cpp:506-508 | A written voltage-source line reads back into its name, node, ground and value. |
| Netlist.CurrentLineFields | src/pdn_container.cpp:510-512 | A written current-source line reads back into its name, node, ground and value. |
| Netlist.RetainedUnchanged | src/pdn_container.cpp:54-60 | Already-trimmed element lines pass the reader's filter unchanged. |
| Netlist.NetlistLineShape | src/pdn_container.cpp:502-512 | Every written line starts with its element letter and ends with its formatted number. |
| Netlist.NetlistRetained | src/pdn_container.cpp:54-60 | A written netlist with clean names and numbers is read back line for line by the constructor's filter. |
| Container.PdnContainer.constructor | src/pdn_container.cpp:40-82 | The file becomes the retained lines. The arenas are what building them from empty leaves, the error is recorded if a line threw, and the graph invariants hold. |
| Container.PdnContainer.ResetWorkingGraph | src/pdn_container.cpp:152-277 | Building from the current arenas with fresh lookup maps gives the new state and error. The file is kept and the invariants hold. |
| Container.PdnContainer.FullyDisconnection | src/pdn_container.cpp:128-150 | All four arenas are emptied, the file and supply are kept, and the invariants hold. |
| Container.PdnContainer.ChangeCurrentSourceValue | src/pdn_container.cpp:282-287 | Exactly the current sources are scaled, and the invariants are kept. |
| Container.PdnContainer.CollectEligible | src/pdn_container.cpp:294-298 | The loop returns exactly `Perturbation.EligibleNodes` of the current state: the nodes no perturbation has touched, in arena order. |
| Container.PdnContainer.PlaceFakeSources | src/pdn_container.cpp:318-332 | The placement loop leaves the specified placement state. |
| Container.PdnContainer.ConnectFakeCurrentSources | src/pdn_container.cpp:290-336 | The state becomes the specified `ConnectFake` result, and the invariants are kept, for any `delta` whose `ceil` converts (`Perturbation.ConnectDelta`). |
| Container.PdnContainer.CollectMovable | src/pdn_container.cpp:349-353 | The loop returns exactly `Perturbation.MovableSources` of the current state: the sources whose node no perturbation has touched, in arena order. |
| Container.PdnContainer.MoveSource | src/pdn_container.cpp:374-390 | One loop body performs the specified single move. |
| Container.PdnContainer.MoveSources | src/pdn_container.cpp:369-394 | The move loop performs the specified moves for the pairs both sets hold. |
| Container.PdnContainer.MovePass | src/pdn_container.cpp:374-392 | One pass takes the state from one entry of the loop's trace to the next. |
| Container.PdnContainer.InverseCurrentSourcesPositions | src/pdn_container.cpp:338-398 | The state becomes the corrected `Inverse` result, and the invariants are kept. A graph ready for `solveDC` before is ready after, so the solve that follows a perturbation can run. |
| Container.PdnContainer.SolveDC | src/pdn_container.cpp:403-424 | After the reinitialization pass, the nodes and the returned count are those of the specified `Solve`. Only node values and sums change, the graph stays ready, and a valid graph stays valid. |
| Container.PdnContainer.SolveDCAndSaveRealValues | src/pdn_container.cpp:426-437 | The initialization pass, the solve and the save pass compose as specified. Only the nodes change, and a valid graph stays valid. |
| Container.PdnContainer.WriteNetlistToFile | src/pdn_container.cpp:497-516 | The three write loops give exactly the specified netlist lines. |
| Container.FoldValueRange | src/pdn_container.cpp:301-307 | The min/max loop computes the specified range. |
| Container.DrawSet | src/pdn_container.cpp:310-316 | The insert loop builds the specified drawn set. |
| Container.DrawSets | src/pdn_container.cpp:359-367 | The paired draw loop builds both specified sets. |
| Container.ReinitPass | src/pdn_container.cpp:408-410 | The loop applies `reinitializationDC` to every node. |
| Container.SweepPass | src/pdn_container.cpp:413-417 | The loop performs one specified sweep and counts its settled nodes. |
| Container.InitPass | src/pdn_container.cpp:428-430 | The loop applies `initializationDC` to every node in arena order. |
| Container.SavePass | src/pdn_container.cpp:434-436 | The loop copies each value into the real value. |
| Container.ReadyOfWellFormed | src/pdn_container.cpp:403-424 | A well-formed graph whose non-voltage nodes have fewer than 256 resistors has every link `solveDC` follows in range. |
| Graph.SameLinksKeepValid | src/pdn_container.cpp:403-437 | Nodes that keep their four link lists keep every index in range and every edge consistent, whatever their values. |

## Left out

- `main.cpp`, `config.h` and `config.cpp` are not part of this model. They hold argument handling and the driver that chooses a perturbation.
- Console output (`std::cout` in the constructor) is left out.
- A file that cannot be opened (src/pdn_container.cpp:76-79) is modelled by the caller passing no raw lines. Writing to a file is modelled as returning its lines; open failure on write is left out.
- `compareFakeWithRealValues`, `calculateIRDrop` and `writeIRDropToFile` are left out. They compute and print floating-point statistics over realValue and value, which the reals here do not capture.
- Floating point is modelled by unbounded reals. Rounding is left out, and so is whether the Gauss-Seidel sweeps converge; the model states what each sweep computes and when the loop stops, not the accuracy of the answer. `std::fabs` is the exact absolute value.
- Nodes.AddInverseSumOfResistance, Nodes.StepDC and Nodes.InitializationDC: division by zero, which gives infinity or NaN in IEEE arithmetic, is modelled as giving 0.
- `std::stod` is the parameter `toValue`, and number formatting (`std::fixed << std::setprecision(9)`) is the parameter `fmt`. Neither is defined in the model, and the line round trips hold for any `fmt` whose output is one nonempty token.
- NodeNames.Stoul: `unsigned long` is taken as 32 bits, because the program targets Windows, so a run above `0xFFFFFFFF` is `out_of_range`. A 64-bit `unsigned long` would instead truncate such a value into the `uint32_t` slot.
- `std::random_device` and `mt19937` seeding (src/pdn_container.cpp:161-162) are replaced by the draw parameters. The source interleaves disconnect and connect draws on one generator; the model takes them as two streams `picksD` and `picksC`. The fallback of `inverseCurrentSourcesPositions` reuses `picksC` for its connect draws.
- The distribution of the draws is left out: the parameters may be any in-range indices and any fractions.
- `shared_ptr` ownership and aliasing are modelled by arena indices. Two elements never share one record, and the destructor (src/pdn_container.cpp:84-86) is left out because nothing is freed.
- Container.PdnContainer.ConnectFakeCurrentSources requires `n·delta > -1` when `n` nodes are eligible (`Perturbation.ConnectDelta`). Below that, `ceil(n·delta)` is -1 or less, and converting it to `uint64_t` has no defined meaning. Between -1 and 0 the `ceil` is -0.0, which converts to 0, so no source is added. With no eligible node any `delta` is accepted, because only `changeCurrentSourceValue` runs. Container.PdnContainer.InverseCurrentSourcesPositions requires `delta >= 0` only when there is something to move (`Perturbation.InverseDelta`). There `floor` of a negative product gives -1 or less, which has no defined conversion either. Otherwise it falls back to the connect branch under that branch's condition.
- Nodes.StepDC requires a non-voltage node to have fewer than 256 resistors, because the source's `uint8_t` loop index wraps and the loop never ends otherwise. Nodes.InitializationDC requires fewer than 65536 for the same reason with its `uint16_t` index. Voltage nodes return before the loop, so neither bound applies to them (`DcSolver.StepBound`). Container.ReinitPass needs no bound, Container.InitPass needs the 65536 bound, and Container.SweepPass, Container.PdnContainer.SolveDC and Container.PdnContainer.SolveDCAndSaveRealValues need the 256 bound, with every link in range (`DcSolver.Ready`).
- Perturbation.MoveOne, Perturbation.MoveFrom, Perturbation.MoveTo and their lemmas, Perturbation.Inverse, Perturbation.InverseAsWritten, Container.PdnContainer.CollectMovable, Container.PdnContainer.MoveSource and Container.PdnContainer.MoveSources require every source's node link to be in range (`SourceLinksOk`). Container.PdnContainer.InverseCurrentSourcesPositions requires `Valid()`, which implies it. The source dereferences `connectedNode` without a null check, and null links arise only after `fullyDisconnection`, which also empties the arenas.
- Container.PdnContainer.constructor: when the build throws, the model records the error in `failure` and keeps an object whose other methods stay callable. In the source the exception escapes the constructor and no object exists.
- Generated names `I<n>` can coincide with a name already in the netlist; the model keeps the collision, as the source does, and does not rule it out.
- Container.PdnContainer.ChangeCurrentSourceValue: the invariants are stated as kept (`old(Valid()) ==> Valid()`) rather than required, because the source scales every source whatever the graph's shape.
- `resetWorkingGraph`'s four temporary name maps are one map, `Builder.names`, from node names to node indices. The resistor and source maps only return the element just pushed, so the model links that element directly.

## Findings

| source | as written | input that shows it | evidently intended | confidence | as-written member | corrected member |
|---|---|---|---|---|---|---|
| src/pdn_container.cpp:105-117 | Each digit run after the first is stored at `coordinates[i - 1]` without a bound on `i`: a closed run at lines 105-106, the final run at lines 116-117. A fifth run therefore writes `coordinates[3]` of a three-slot `std::array` (undefined behaviour). For `n1_m1_2_3_4` that store is the final run's, at lines 116-117. | the node name `n1_m1_2_3_4` | runs after the fourth are ignored, giving (1, 2, 3) | not executed | NodeNames.ParseNodeNameAsWritten, NodeNames.FifthDigitRunHasNoSlot | NodeNames.ParseNodeName |
| src/pdn_container.cpp:362-374 | The move loop steps both `std::set` iterators `totalToBeInverted` times, but repeated draws can leave either set smaller than that, so the loop dereferences `end()` (undefined behaviour). | two movable current sources, delta 1.0, disconnect draws 0 and 0 | move as many pairs as both sets hold | not executed | Perturbation.InverseAsWritten, Perturbation.InverseOverrunsSet | Perturbation.Inverse, Perturbation.InverseCount |
