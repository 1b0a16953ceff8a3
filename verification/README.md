# Models and proofs for the tree-sitter runtime in Go

This project models the hard parts of the runtime and of its table generator and proves what they are
for. `dafny verify dfyconfig.toml` checks everything. Heap nodes that the program shares and updates in
place live in explicit stores held by classes (`Forest`, `ParseStack`), so sharing is visible in every
statement; each method that changes state is proved against a function of the old state, and the
properties are then proved of those functions.

What is modelled, and the main results:

- **Trees under edit** (`Trees`, `EditSpec`, `EditBytes`, `Texts`, `EditReuse`, `EditRuns`, `SubtreeStore`,
  `SubtreeEdit`, `TreeHandles`). The work-list edit with copy-on-write equals a function on tree values;
  that function keeps every tree byte-consistent; after any run of edits an unmarked node still stands over
  the bytes its tokens looked at; other holders of shared nodes never notice; counts stay exact; included
  ranges move with the text.
- **Summaries, rotation, balancing** (`Summaries`, `VisibleTrees`, `Rotation`, `Balancing`, `Rebalance`,
  `Balance`, `GoodTrees`). Re-summarising computes sums over the children; compressing and the whole balancing
  work list keep leaves, extents, counts, costs and the visible tree.
- **The graph-structured stack** (`StackGraph`, `StackPaths`, `LinkSplices`, `ParseStack`, `Condense`, `Reduce`).
  Every path adds up; merging loses no reading on a graph with a rank, and on any graph unless it drops a self
  link; popping enumerates exactly the paths; condensing keeps the best version; reducing makes every path it pops
  readable behind the reduced symbol. Both caps are counted on the stack before the call.
- **The lexer compiler and its machine** (`LexFunctions`, `LexProgram`, `LexBuilder`, `LexCorrect`, `CharacterSets`)
  and **the two expression parsers** (`ExprParser`, `ExprRoundTrip`). The built program means what the lex function
  means and does not panic, and the four places where it differs are characterised; the parsers undo
  printing and agree with each other.
- **Views and indexes** (`Navigation`, `ReuseCursor`, `Ranges`, `Lookaheads`). Cached counts, lookup by index,
  lists and cursor steps agree; the reuse cursor's offsets are exact; the range sweep is the symmetric
  difference; the lookahead iterator lists exactly the table.
- **The lexer** (`Utf8`, `Lexer`, `LexerText`, `LexerRanges`). The fast advance is the slow one; chunking is invisible;
  exactly the code points of the included ranges are read; over any one included range, columns count code points
  and every run of calls is safe but for one trap.
- **The table codec** (`TableWire`, `TableCodec`). Decoding inverts encoding, and no other cut or extension of an
  encoding is accepted.

Words used in the table. A stack is *ranked* when some number falls along every link: the acyclicity the
merging proofs need; positive-width subtrees give one. A reduction *lifts* on a ranked stack when the number
rises with each push it makes, which it does for positive widths whatever the goto table. Counts are *exact*
when each cell's count is the number of slots and outside handles naming it. A tree is *good* when every
node's cached numbers are the sums over its children, as `newNodeSubtree` builds them. A version is *clean*
when it is unhalted and not in error. *Reading* a stack node means following links towards the base, noting
symbols and states. A lexer is *trapped* at the end of an included range that is empty or was cut right
behind a newline, while the document goes on and the column is not known.

Hypotheses that come from the program's own callers: edits start no later than they end; included ranges are
in order; generated lex functions assign eof before testing it, leave every case, only go to states at most the
highest label, and hold no literals past 32 bits; an included range read as text starts and ends at
code points; parse tables are laid out as the generator lays them out; repetition symbols are hidden and their productions carry no aliases.

Where the code differs from what one might expect, the code is followed and the difference is stated, with an
input and the condition:

- `LexFunctions.StrictExactly`, `LexFunctions.GuardedDivision`: the machine evaluates a division C would skip.
- `LexCorrect.UncoveredState` and `UncoveredExample`, `LexCorrect.FallingCase` and `FallingExample`, `LexCorrect.FallingOn` and
  `FallingOnExample`: states above every label, cases that fall off their end, and among those the ones whose code
  ends in an answer.
- `LinkSplices.SelfMergeLoses`, `LinkSplices.ApartMergeKeeps`, `ParseStacks.PushedTwiceLosesAParse`: a merge that
  drops a link of no width.
- `LinkSplices.MergeKeepsAcyclic`, `ParseStacks.PushedThriceMakesACycle`: a merge that makes a cycle.
- `Navigation.CountsAreLengths`, `Navigation.LeakingTree`, `Navigation.LookupIsListed`, `Navigation.MissedChild`: named
  children below visible anonymous nodes.
- `Lexer.StepsBackExactly`, `Lexer.StraddlingSteps`: a character across the end of a range leads back to the start
  of a later range.
- `LexerText.GetColumn`, `LexerText.TrappedInEmptyRange`, `LexerText.TrappedBehindLine`: asking for a column that is
  not known at the end of a range that cannot be resumed leaves a chunk and no range to read it in.
- `Ranges.SkipChangesAnAnswer`: a query that starts before the position skipped to.
- `TableCodec.DecodeEncode`: a program without instructions is not decoded back, because the writer still emits its
  state and map counts after the zero that makes the reader stop; what follows is misread or refused.

## Model

| member | source | states |
|---|---|---|
| Lengths.AddAssociative | length.go:9-53 | Adding lengths is associative, extents included: rows add, and a column restarts after a row change |
| EditBytes.EditRootBytes | subtree_edit.go:29-64 | For an edit with start at most old end and new end, the root's total becomes new end plus what was left past the old end when the edit starts inside (or inserts at the end), else it is unchanged; likewise its padding; the number of children never changes |
| EditBytes.ChildrenTile | subtree_edit.go:66-102 | The new totals of the children add up, from any boundary, to where the edit moves that boundary: the one absorbing child takes exactly the inserted bytes |
| EditBytes.ChildEditsOrdered | subtree_edit.go:71-100 | The edits handed to the children again start no later than they end |
| EditBytes.FirstPadding | subtree_edit.go:66-102 | The first child's padding moves exactly as its parent's |
| EditBytes.EditKeepsConsistent | subtree_edit.go:29-104 | Main result: if every parent's total is the sum of its children's and its padding is its first child's, the same holds at every level after any ordered edit |
| EditReuse.UntouchedSound | subtree_edit.go:38-48 | A subtree the edit does not reach stays sound when the text it looked at moves with it |
| EditReuse.SkippedSound | subtree_edit.go:38-48 | A node the edit skips had all the text it looked at on one side of the edit, so it stays sound where it lands |
| EditReuse.EditSound | subtree_edit.go:29-104 | One edit, at any depth, leaves every unmarked node over unchanged text, lookahead and end of input included |
| EditRuns.UnmarkedNodesKeepTheirText | subtree_edit.go:19-104 | Main result over whole runs: after any sequence of edits to a parsed tree, a node without a change mark is unchanged, stands at the same place of the original tree, and every byte its tokens looked at is what it was |
| SubtreeStore.FreeCell | subtree_core.go:100-112 | Freeing a cell nobody counts leaves every count exact, its children becoming outside handles |
| SubtreeStore.Forest.constructor | subtree_core.go:67-73 | An empty store, with exact counts |
| SubtreeStore.Forest.Retain | subtree_core.go:84-89 | One more reference to the cell, and nothing else changes |
| SubtreeStore.Forest.Drop | subtree_core.go:91-112 | One reference fewer, and whether it was the last |
| SubtreeStore.Forest.Release | subtree_core.go:91-112 | Gives a handle up; afterwards the counts are exact for the remaining handles, nothing unreferenced is left, and every tree still held has its value |
| SubtreeStore.Forest.ReleaseAll | subtree_core.go:95-113 | The work list of release ends, frees exactly what lost its last holder, and keeps every held tree |
| SubtreeStore.Forest.Clone | subtree_core.go:115-129 | A fresh cell of count one with the same data, each child referenced once more |
| SubtreeStore.Forest.MakeMut | subtree_core.go:131-138 | The handle itself when nobody else holds it, otherwise a private copy with one reference to the original given back |
| SubtreeEdit.PushChildren | subtree_edit.go:66-102 | The child loop pushes exactly the edits the value-level definition assigns, in order |
| SubtreeEdit.OnlySlot | subtree_core.go:131-138 | A cell counted once is named by one slot only |
| SubtreeEdit.Resize | subtree_inline.go:325-351 | Writes padding, size and the change mark into a node nobody else holds; an inline leaf that no longer fits becomes a heap leaf |
| SubtreeEdit.RewriteNode | subtree_edit.go:61-64 | Made exclusive, then resized: the store and handle are those of the rewrite function |
| SubtreeEdit.RewriteShape | subtree_edit.go:49-64 | The rewritten cell holds the edited node's own fields and its old children |
| SubtreeEdit.VisitNode | subtree_edit.go:49-64 | The popped entry's node is made exclusive, rewritten and stored back in its slot, counts exact throughout |
| SubtreeEdit.PopSkipped | subtree_edit.go:43-48 | An entry the edit does not reach already holds what it should become |
| SubtreeEdit.VisitTop | subtree_edit.go:29-104 | One round of the work list keeps its invariant, keeps every other holder's tree, and gets closer to the end |
| SubtreeEdit.SubtreeEdit | subtree_edit.go:19-105 | Main result: the in-place, copy-on-write work list ends with the handle standing for the edited tree, every other handle's tree unchanged, and all counts exact |
| TreeHandles.RangeEdit | tree.go:66-92 | In 32-bit arithmetic, offsets past the old end move with it and saturate at the largest offset, offsets inside the replaced text fall back to its start, and an unbounded range stays unbounded |
| TreeHandles.EditedInclusion | tree.go:53-58 | A byte that was not replaced is in the included ranges exactly when it was; inserted bytes are in them exactly when a range started before the old end and reached it |
| TreeHandles.TreeHandle.Copy | tree.go:28-32 | One more exact reference to the same nodes, and the same ranges |
| TreeHandles.TreeHandle.Edit | tree.go:53-58 | The handle then stands for the edited tree and its ranges are the edited ranges; other handles keep their trees |
| TreeHandles.TreeHandle.EditRanges | tree.go:54-57 | Every range is edited, once, in place |
| TreeHandles.EditCopy | tree.go:28-58 | Editing a copy leaves the original's tree and ranges as they were, with exact counts |
| StackGraph.EveryPathAddsUp | stack.go:126-149 | Main result: along every path of links, the subtrees' widths and error costs sum to the difference of the end nodes' positions and costs |
| StackPaths.EndsCounted | stack.go:271-352 | The ends counted below an iterator are the ends a search from it reaches, and nothing is popped elsewhere when the callback pops at ends only |
| StackPaths.PathsArePopped | stack.go:271-352 | Every path with the wanted number of counted links is delivered with its subtrees in reading order |
| StackPaths.PoppedArePaths | stack.go:271-352 | Nothing else is delivered |
| StackPaths.PoppedIsExactlyThePaths | stack.go:424-432 | Main result, both directions: a slice is popped if and only if some path of exactly that many counted links carries it |
| StackPaths.TurnStops | stack.go:290-311 | An iterator that stops leaves the list and what it delivered is accounted for |
| StackPaths.TurnFollows | stack.go:313-347 | An iterator that goes on, with its copies, still accounts for everything below its node |
| LinkSplices.AddLinkKeeps | stack.go:171-225 | On any graph, ranked or not: no reading is lost, and unless a self link was dropped on the way, what could be read through the link is readable from the node |
| LinkSplices.MergeWithoutDropKeeps | stack.go:579-604 | On any graph: a merge that drops no self link loses no reading of either head or any other node |
| LinkSplices.ApartMergeKeeps | stack.go:579-604 | A condition on the graph before: where no link joins two nodes of one key, a merge drops nothing and loses nothing, cycles or not; a link from the merged head to the one that stays is always dropped |
| LinkSplices.SelfMergeLoses | stack.go:171-174 | When the merged head's links all lead to the head that stays, the merge drops them and changes nothing, and a reading is lost exactly when there was a link |
| LinkSplices.AppendKeepsAcyclic | stack.go:208-225 | Both directions: appending a link to an acyclic graph keeps it acyclic exactly when the link does not lead back to the node |
| LinkSplices.MergeKeepsAcyclic | stack.go:579-604 | Both directions, for a merged head of one link, as pushing makes, that no link of the other head takes in: an acyclic graph stays acyclic exactly when the link does not lead back to the head that stays; nothing is dropped either way |
| LinkSplices.RankedIsAcyclic | stack.go:171-225 | A ranked graph is acyclic |
| ParseStacks.ReplaceSplices | stack.go:176-188 | Replacing an equivalent link's subtree loses no reading and adds only the edge it stands for |
| ParseStacks.AppendSplices | stack.go:208-225 | Appending a link loses no reading and adds only that edge |
| ParseStacks.SplicedAll | stack.go:190-205 | Once every link of a node has been spliced into another, the other reads whatever it read |
| ParseStacks.ParseStack.AddLink | stack.go:171-225 | The graph becomes what the recursive splice defines: every sequence readable through the new link is readable afterwards, every other reading stays, and each edge of the new graph is an old one or the link's own; a link back to the node itself changes nothing |
| ParseStacks.ParseStack.constructor | stack.go:354-359 | One active head on a base node of state 1 |
| ParseStacks.ParseStack.Push | stack.go:415-422 | The new node's position and cost extend the head's, and everything readable from the old head is readable behind the pushed step |
| ParseStacks.ParseStack.RemoveVersion | stack.go:543-546 | The version is cut out and the later ones move down by one |
| ParseStacks.ParseStack.Merge | stack.go:579-604 | Main result: merges exactly when state, position, cost and scanner state agree; the graph is then the merged graph, no self link having been dropped; nothing readable from either head or any other node is lost, and no edge joins keys that were not joined by the same subtree |
| ParseStacks.PushedTwiceLosesAParse | stack.go:171-174 | A concrete loss: a leaf without width or cost pushed twice from a fresh stack, the two heads merged; the reading of two leaves is gone |
| ParseStacks.PushedThriceMakesACycle | stack.go:579-604 | A concrete cycle: a leaf without width or cost pushed three times into a state other than the first, and the third head merged into the first; nothing is dropped, and the acyclic graph has a cycle |
| ParseStacks.PositiveWidthsRank | stack.go:126-149 | When every subtree has a positive width the byte positions are such a rank |
| ParseStacks.ParseStack.AddVersion | stack.go:240-253 | A new active head that keeps the original's error mark and external token |
| ParseStacks.ParseStack.AddSlice | stack.go:255-269 | The bag of popped slices gains exactly this one; slices of one version stay adjacent and versions ascend |
| ParseStacks.InsertGrouped | stack.go:256-265 | A slice put behind the last one of its version keeps the runs together |
| ParseStacks.ParseStack.CopyDownLinks | stack.go:313-347 | Iterator i is copied for its second and later links, in order, each copy one link down, exactly as many as fit under the cap of 64 iterators |
| ParseStacks.ParseStack.Deliver | stack.go:290-301 | A popping iterator adds its reversed subtrees and its node to the slices |
| ParseStacks.ParseStack.Turn | stack.go:280-347 | One iterator's turn keeps the books: what was delivered, what the iterators left still hold, and what the cap cut off add up to what the start holds, and the cap cuts nothing off until 64 ends are accounted for |
| ParseStacks.ParseStack.Iter | stack.go:271-352 | When no more than 64 ends are to be reached, counted on the graph before the call, the slices are exactly what the links hold below the version, as a bag; otherwise they are part of it, and a callback that pops at ends only still reaches at least 64 of them |
| ParseStacks.ParseStack.PopCount | stack.go:424-432 | Main result: every slice is a path of exactly that many counted links, and when the search has no more than 64 ends, counted before the call, every such path is a slice, once; with more, at least 64 ends are reached, as many slices but for paths that come to the base too soon; old heads stay and new ones come last |
| Condense.VersionStatus | parser_core.go:227-239 | Reports the head's cost and whether it is in error, pulling back an error mark that ran ahead of the node count |
| Condense.ComparisonLeads | parser_core.go:189-225 | Whichever side the comparison prefers is at least as clean and cheap as needed to lead |
| Condense.MergeableLeads | stack.go:595-604 | Two heads that merge are equally clean and cost the same |
| Condense.CompareOnce | parser_loop.go:158-183 | One step of the inner loop, with its index changes and unsigned wrap: the invariant stays and the indices get closer |
| Condense.Sift | parser_loop.go:158-183 | The inner loop ends; no version before its index is halted, and version 0 leads whenever some version seen was clean |
| Condense.LeastCleanSame | parser_loop.go:144-156 | The least clean cost depends on nothing but the versions and their nodes' keys |
| Condense.Prune | parser_loop.go:144-188 | The first loop and the cut to six: what is left are versions of the stack before, none only when all were halted; no halted version is left, the cost returned is the least clean one, and if any version was clean, version 0 is a clean one of that cost |
| Condense.Settle | parser_loop.go:191-209 | The second loop, with its index changes: paused versions go, except that the first version, if it is paused and fewer than six parses were accepted, is woken and handed to recovery, its cost becoming the result |
| Condense.CleanSettles | parser_loop.go:191-209 | If any unhalted version was clean nothing is resumed, version 0 stays and every version is active; whenever nothing is resumed every version left is active |
| Condense.CondenseStack | parser_loop.go:144-211 | Main result: the stack left is the pruned one with its paused versions gone, or with its first version resumed, exactly when that is paused and fewer than six parses were accepted; the result is the cost of the version resumed, else the least clean cost; if any unhalted version was clean, version 0 is a clean one of that cost, nothing is paused or halted and nothing was resumed; the loops end |
| Condense.TryMerge | stack.go:579-604 | Merging changes the versions exactly by dropping the later one, and only when the two agree |
| Condense.PruneVersion | parser_loop.go:153-183 | One round of the outer loop on a version that is not halted keeps what is known of the versions seen |
| Condense.CutVersions | parser_loop.go:186-188 | At most six versions are left, none of them halted, and version 0 still leads |
| Reduce.FrontLength | subtree_core.go:155-168 | Where a run's trailing extras begin: everything from there is extra, and what is before it does not end in one |
| Reduce.RemoveTrailingExtras | subtree_core.go:155-168 | Splits the children exactly there |
| Reduce.HaltedVersionCount | stack.go:363-371 | How many heads are halted |
| Reduce.ChooseParent | parser_reduce.go:31-56 | One parent for all slices of a version, built without its trailing extras from the slice that wins when each later one is preferred or not to the winner so far, leaving the index at the version's last slice |
| Reduce.PushOn | parser_reduce.go:72-75 | A push grows the graph and puts one step in front of what the head read |
| Reduce.PushReduced | parser_reduce.go:58-75 | The parent, then the extras that trailed its children, are readable behind the end node's readings |
| Reduce.MergeInto | parser_reduce.go:77-85 | The new version is merged into the first older one, other than the one reduced, that may be merged with it, which then reads all it read; the later versions move down; when there is none nothing changes |
| Reduce.NextRun | parser_reduce.go:36-41 | Slices come version by version, so the next one starts where the last version's end |
| Reduce.VersionsHaveSlices | stack.go:255-269 | A pop makes no more versions than slices, so the version cap can be counted before the call |
| Reduce.ReduceSlice | parser_reduce.go:14-85 | The index version minus removed count names the head that holds the slice's end node; after the push and merge its readings survive behind the reduced symbol |
| Reduce.DropRun | parser_reduce.go:14-29 | A version past the cap is removed and its slices are skipped |
| Reduce.ReduceRun | parser_reduce.go:31-85 | One version's slices become one parent, and the renumbering stays right for the next |
| Reduce.Reduce | parser_reduce.go:3-92 | Main result: the old heads stay and nothing readable is lost; when no more than 64 ends are below the version and heads and paths together stay under the version cap, both counted before the call, whatever was readable below any popped path is readable from some head behind the reduced symbol and the extras that trailed the children of a path to the same end; past the caps this holds of some path's end; subtrees of positive width stay so; the result is the first new version or none |
| Reduce.ReduceRepeatedly | parser_reduce.go:3-92 | Main result over whole runs: any sequence of reductions of at least one child on a stack of positive widths, by any rules and goto tables: each may be made and makes its reductions readable as above, every reading is kept, and the stack stays one of positive widths |
| Reduce.RunReduces | parser_reduce.go:3-92 | What any reduction of such a run makes readable is still readable when the run is over |
| Reduce.ReduceOneToken | parser_reduce.go:3-92 | In particular one token shifted onto a fresh stack and reduced by any rule of one child: a head then reads the rule's symbol on the base |
| Reduce.WideReductionsLift | parser_reduce.go:3-92 | What reducing asks of the graph holds of every stack of positive-width subtrees and every reduction of at least one child, whatever the goto table |
| Reduce.OneTokenLifts | parser_reduce.go:3-92 | In particular of one token shifted onto a fresh stack |
| Reduce.EmptyReductionLifts | parser_reduce.go:3-92 | And of a reduction of no children on a fresh stack, with a goto table of one entry |
| LexFunctions.ApplyBinaryFacts | lexprog.go:155-195 | Only a division by zero can fail, and a decided logical operator does not depend on its right operand |
| LexFunctions.StrictExactly | lexprog.go:106-108 | Both directions: the machine fails on a condition exactly when some division in it has a zero divisor, C exactly when one it comes to has, and the two agree exactly when the first does not happen without the second |
| LexFunctions.GuardedDivision | lexprog.go:106-108 | A division that C skips behind a false left operand makes the machine panic |
| LexProgram.StepStack | lexprog.go:89-113 | The machine's stack instructions on a 16-slot array do what the list-level definition says, and fail exactly where it does |
| LexProgram.LookUp | lexprog.go:131-139 | The scan of a map in steps of two finds the first pair whose key is the lookahead |
| LexProgram.Run | lexprog.go:77-153 | The loop over pc, stack, state and lexer computes the machine's meaning, on any code whose jumps go forward |
| LexBuilder.LastLabelled | cmd/ts-translate/lexprog.go:33-46 | The last case with a label, which is the one a Go map keeps |
| LexBuilder.Flatten | cmd/ts-translate/lexprog.go:111-117 | The pairs of a map, laid flat |
| LexBuilder.ProgBuilder.constructor | cmd/ts-translate/lexprog.go:14-27 | An empty builder |
| LexBuilder.ProgBuilder.Emit | cmd/ts-translate/lexprog.go:81-84 | Appends one instruction and answers its index |
| LexBuilder.ProgBuilder.Push | cmd/ts-translate/lexprog.go:187-193 | Appends a pushing instruction and counts the depth |
| LexBuilder.ProgBuilder.Cond | cmd/ts-translate/lexprog.go:146-183 | Appends a condition's postfix code, one deeper at the end, its greatest depth recorded |
| LexBuilder.ProgBuilder.StmtList | cmd/ts-translate/lexprog.go:86-103 | Appends the code of a list of statements, with jumps patched to where they land |
| LexBuilder.ProgBuilder.StmtAt | cmd/ts-translate/lexprog.go:86-143 | Appends one statement's code, its jumps patched, and its maps |
| LexBuilder.EnterLabels | cmd/ts-translate/lexprog.go:37-46 | Every label of a case enters at its first instruction, the highest label is kept |
| LexBuilder.StateTable | cmd/ts-translate/lexprog.go:55-61 | Each state up to the highest label starts at its own case, or at the default |
| LexBuilder.BuildLexProgram | cmd/ts-translate/lexprog.go:23-67 | Builds the compiled program exactly when no condition needs more than 16 slots |
| LexCorrect.CompiledForward | cmd/ts-translate/lexprog.go:23-143 | Every jump of a built program and every case entry goes forward, inside the code |
| LexCorrect.CondRuns | cmd/ts-translate/lexprog.go:146-183 | Running a condition's code pushes its value, within the counted depth, or panics exactly where strict evaluation does |
| LexCorrect.FlatMatches | lexprog.go:131-139 | A flat map answers the first pair with the lookahead's key |
| LexCorrect.StmtRuns | cmd/ts-translate/lexprog.go:86-143 | Running a statement's code does what the statement does when its conditions are evaluated in full: falls through with an empty stack, or leaves with the same outcome |
| LexCorrect.SameCase | cmd/ts-translate/lexprog.go:33-61 | The switch and the state table pick the same case |
| LexCorrect.PassRuns | lexprog.go:77-153 | One pass of the built program is one pass of the function with its conditions evaluated in full |
| LexCorrect.PassIgnoresEof | lexprog.go:81-86 | A pass never depends on the eof flag the previous one left |
| LexCorrect.MachineMeans | cmd/ts-translate/lexprog.go:23-193 | The built program answers what the function answers with its conditions evaluated in full, over any number of passes |
| LexCorrect.RunStrictly | lexprog.go:155-195 | Evaluated in full, a lex function crashes exactly when a condition on C's way has a zero divisor that C skips, or C crashes itself; otherwise it answers as in C |
| LexCorrect.CompiledMeans | cmd/ts-translate/lexprog.go:23-193 | Main result, both directions: from every start and over any number of passes the program gives C's result, symbol, mark and position exactly when no condition C comes to divides by a zero that C skips, or C crashes too; otherwise it crashes |
| LexCorrect.BuildAndRun | cmd/ts-translate/lexprog.go:23-67 | The generator and the machine together compute the function, or crash on a zero divisor C skips |
| LexCorrect.CompiledNeverPanics | lexprog.go:77-153 | When every divisor is a non-zero literal, a built program never leaves its code, its 16 slots, its sets or maps, never divides by zero, and always means what the function means |
| LexCorrect.HarmlessStays | cmd/ts-translate/clexfn.go:158-234 | Statements that come to no move, no accept and no other answer leave result and lexer as they were |
| LexCorrect.StraightExactly | cmd/ts-translate/clexfn.go:158-234 | Statements that come straight to a move or an answer leave them so only then |
| LexCorrect.UncoveredState | lexprog.go:114-122 | A state above every label skips the default case and answers with what the prologue left: the program agrees with the function when the default case is harmless, and, where that comes straight to a move or an answer, only then |
| LexCorrect.UncoveredExample | lexprog.go:114-122 | A concrete function whose default case answers true: the program answers false |
| LexCorrect.FallingCase | cmd/ts-translate/lexprog.go:47-79 | A case that falls off its end is given an answer: the program agrees with the function when the cases after it are harmless, and, where those come straight to a move or an answer, only then |
| LexCorrect.FallingExample | cmd/ts-translate/lexprog.go:47-79 | A concrete function whose first case accepts and falls into one that answers false: the program answers true |
| LexCorrect.CaseStep | cmd/ts-translate/lexprog.go:47-60 | Whether a falling case runs on or is given an answer depends on nothing but whether the code up to its end ends in one |
| LexCorrect.FallingOn | cmd/ts-translate/lexprog.go:47-79 | A case that falls off its end although its code ends in an answer is given none: the last one leads out of the code, where the program panics and C answers with what it has; an earlier one runs on into the next, as C does, and agrees with it when that one is left |
| LexCorrect.FallingOnExample | cmd/ts-translate/lexprog.go:47-79 | A concrete such function: its one case answers only when the lookahead is not zero; at lookahead zero the program panics and C answers false |
| CharacterSets.SetContains | language.go:420-437 | The bisection over sorted ranges answers true exactly when some range holds the code point |
| ExprParser.CParser.constructor | cmd/ts-translate/cparse.go:43-60 | A parser at the first token |
| ExprParser.CParser.AcceptCast | cmd/ts-translate/cexpr.go:132-150 | Takes a parenthesised type with any stars, or puts the position back |
| ExprParser.CParser.ParseLexExpr | cmd/ts-translate/clexfn.go:158-174 | The climbing loop builds the tree the grammar function defines and stops where it does, or fails with it |
| ExprParser.CParser.ParseLexUnary | cmd/ts-translate/clexfn.go:176-186 | The same for a unary condition |
| ExprParser.CParser.ParseLexPrimary | cmd/ts-translate/clexfn.go:188-234 | The same for a primary condition |
| ExprParser.CParser.ParseSetTest | cmd/ts-translate/clexfn.go:218-226 | The same for a set test |
| ExprParser.CParser.ParseTernary | cmd/ts-translate/cexpr.go:23-35 | The same for a constant conditional |
| ExprParser.CParser.ParseBinaryExpr | cmd/ts-translate/cexpr.go:46-62 | The same for a constant binary expression, computed as it is read |
| ExprParser.CParser.ParseUnaryExpr | cmd/ts-translate/cexpr.go:112-124 | The same for a constant unary expression |
| ExprParser.CParser.ParsePrimary | cmd/ts-translate/cexpr.go:126-174 | The same for a constant primary |
| ExprParser.CParser.ParseArgs | cmd/ts-translate/cexpr.go:157-166 | The same for a macro's arguments |
| ExprParser.CParser.Advance | cmd/ts-translate/cparse.go:128-134 | Answers the current token and moves past it, never past the end token |
| ExprParser.CParser.Accept | cmd/ts-translate/cparse.go:143-149 | Moves past the token exactly when it is the wanted one |
| ExprRoundTrip.PlainParses | cmd/ts-translate/clexfn.go:158-174 | A printed condition leaves the parser as if it had been read as the left operand, whatever looser minimum was asked for |
| ExprRoundTrip.Parenthesised | cmd/ts-translate/clexfn.go:176-211 | Inside parentheses any printed condition is read back, and the parentheses are never taken for a cast |
| ExprRoundTrip.PrintedParsesBack | cmd/ts-translate/clexfn.go:158-211 | Main result: a condition, set tests included, printed with C precedence (section 6.5 of C11) and only the parentheses it needs is parsed back to itself and to its own end |
| ExprRoundTrip.SetTestParsesBack | cmd/ts-translate/clexfn.go:218-226 | A concrete set test and its conjunct parse back, in a file that holds that one set |
| ExprRoundTrip.ParsersAgree | cmd/ts-translate/cexpr.go:46-174 | Main result: on tokens both accept, the constant parser answers the value of the tree the other builds, and fails when that one fails or divides by zero |
| ExprRoundTrip.PrintedValue | cmd/ts-translate/cexpr.go:46-123 | On a printed literal-only condition the constant parser answers the condition's value |
| Summaries.SummarizeChildren | subtree_core.go:262-379 | The loop over the children computes the summary function, including its reads of fields it has not yet written |
| Summaries.SummarizeChild | subtree_core.go:278-348 | One round of that loop |
| Summaries.ErrorCostBy | subtree_core.go:297-312 | What one child adds to the error cost |
| Summaries.CountChild | subtree_core.go:315-333 | The visible, named and descendant counts one child brings |
| Summaries.SummarizeEnds | subtree_core.go:350-378 | What is taken from the first and last child, and the repeat depth |
| Summaries.ResumSummarised | subtree_core.go:262-379 | After summarising, a node's padding, size, reach, costs and counts are the sums over its children, whatever they were before |
| Summaries.AnyIndex | subtree_core.go:317-333 | Without aliases it does not matter which production or index children are counted under |
| Summaries.NewNodeGood | subtree_core.go:381-396 | A node built over nodes whose summaries are sums is another such node |
| VisibleTrees.SummarisedTotal | subtree_core.go:285-290 | A summarised node spans exactly its children, extents included |
| Rotation.Splices | subtree_core.go:262-379 | A hidden summarised node can be replaced, among its siblings, by its children |
| Rotation.Rebuilt | subtree_core.go:445-453 | A rebuilt repetition node over good children is good and stands for the same siblings |
| Rotation.SqueezeFirst | subtree_core.go:419-454 | After k rotations the node's first child stands for the same leaves, numbers and visible nodes, on a left spine exactly k nodes shorter |
| Balancing.SqueezeCounts | subtree_core.go:419-454 | Rotations make and lose no node |
| Balancing.SqueezeSame | subtree_core.go:419-454 | A repetition node and its squeezed form have the same leaves at the same places, padding, size, lookahead end, counts, error cost and visible tree, error repeats included |
| Balancing.SameNode | subtree_core.go:262-379 | Replacing children by same ones leaves the parent the same and still summarised |
| Rebalance.SumDenotes | subtree_core.go:262-379 | Summarising a cell summarises the tree it stands for |
| Rebalance.RotateRaises | subtree_core.go:438-440 | After the three writes the grandchild stands for the raised tree |
| Rebalance.RotateStep | subtree_core.go:424-443 | One rotation keeps counts exact, touches three cells only, and hands over to the next |
| Rebalance.UnwindDenotes | subtree_core.go:445-453 | Unwinding one level re-summarises the low node, the raised node and the node above |
| Rebalance.CompressSqueezes | subtree_core.go:419-454 | The store after compressing stands for the squeezed tree, writing only the spine's own cells |
| Balance.SumNode | subtree_core.go:262-379 | Summarising in the store |
| Balance.Rotate | subtree_core.go:438-440 | The three pointer writes, in the program's order |
| Balance.Compress | subtree_core.go:419-454 | Rotates down the spine as often as asked or possible, unwinds its stack completely, and leaves the store the function describes |
| Balance.UnwindNode | subtree_core.go:445-453 | One entry of that stack |
| Balance.PushUnshared | parser_loop.go:238-242 | Pushes, in order, the children that have children and no other holder |
| Balance.Rebuild | parser_loop.go:213-244 | When one node's tree is replaced by a same one, every tree above it is too |
| Balance.CompressKeepsWork | parser_loop.go:223-234 | Compressing the node on top keeps the whole work list valid and every other handle's tree |
| Balance.BalanceNode | parser_loop.go:223-234 | A node's imbalance is worked off by halving compressions, and the loop ends |
| Balance.MarkedMoves | parser_loop.go:236-242 | Popping a node and pushing its children keeps track of what remains to visit |
| Balance.BalanceSubtree | parser_loop.go:213-244 | Main result: the work list ends, each node only the tree holds is visited exactly once, and the tree has the same leaves, cached numbers and visible nodes as before; no other handle's tree changes and counts stay exact |
| GoodTrees.GoodIsConsistent | subtree_core.go:285-290 | A tree whose summaries are sums is byte-consistent, so edits keep it so |
| GoodTrees.GoodIsCovered | subtree_core.go:292-350 | In such a tree every parent's reach covers its children's |
| Navigation.ChildIterator.constructor | node_core.go:35-46 | An iterator with all of the node's children ahead |
| Navigation.ChildIterator.Next | node_core.go:52-71 | Answers the children one by one in order, with position and alias, then null |
| Navigation.AppendChildren | node_core.go:271-282 | Appends exactly the node's visible (or named) children, descending through hidden nodes |
| Navigation.CountsAreLengths | node_core.go:206-222 | Main result: the cached child count is the number of children; the named count falls short of the named list by exactly the named nodes below visible anonymous ones |
| Navigation.LeakingTree | node_core.go:206-222 | A concrete such tree: a named leaf below a visible anonymous node, where the root counts no named child and lists one |
| Navigation.ShareIsSkipped | node_core.go:84-93 | A child's share of what lookup by index finds is exactly what lookup skips for it |
| Navigation.LookupIsListed | node_core.go:224-256 | Both directions: lookup by index agrees with the list at every index exactly when nothing leaks below the children it looks into; otherwise it finds exactly that many fewer |
| Navigation.MissedChild | node_core.go:224-256 | A concrete tree where two named children are listed and lookup misses one |
| Navigation.Child | node_core.go:224-256 | Main result, on every tree: child i is null exactly past what lookup finds, and entry i of the list whenever nothing is missed, which is always so when anonymous children count too |
| Navigation.FindChild | node_core.go:224-256 | The descending loop finds the node at the index, or null |
| Navigation.KidsAreSeen | node_core.go:271-282 | The list of children is the visible tree's list, at the same positions |
| Navigation.TreeCursor.constructor | cursor.go:17-20 | A cursor on the node alone |
| Navigation.TreeCursor.GotoFirstChild | cursor.go:38-46 | Moves exactly when there is a child, onto the first |
| Navigation.TreeCursor.GotoNextSibling | cursor.go:48-60 | Moves exactly when a sibling follows in the list |
| Navigation.TreeCursor.GotoPreviousSibling | cursor.go:62-74 | Moves exactly when a sibling precedes in the list |
| Navigation.TreeCursor.GotoParent | cursor.go:76-83 | Moves exactly when there is a parent, and restores the stack |
| Navigation.WalkChildren | cursor.go:38-83 | Stepping visits exactly the node's children, in order, and going up again leaves the cursor where it was |
| ReuseCursor.LeafBytes | reusable.go:33-60 | In a byte-consistent tree the leaves span what the nodes span |
| ReuseCursor.LastExternalToken | subtree_core.go:485-502 | Down the last flagged child to the last token from an external scanner |
| ReuseCursor.ChainFacts | reusable.go:26-31 | Main result: bytes passed, the current tree and what is ahead always add up to the root's total |
| ReuseCursor.ChainIsAt | reusable.go:26-31 | The cursor's offset is where its node stands in the tree |
| ReuseCursor.ReusableNode.constructor | reusable.go:10-17 | A cursor with nothing on its stack |
| ReuseCursor.ReusableNode.Clear | reusable.go:14-17 | Empties the stack and forgets the token |
| ReuseCursor.ReusableNode.Advance | reusable.go:33-60 | What is ahead loses its first tree, the offset grows by that tree's bytes, and its last external token is remembered |
| ReuseCursor.ReusableNode.Leave | reusable.go:41-59 | Pops entries until one has a next child |
| ReuseCursor.ReusableNode.Descend | reusable.go:62-73 | Enters the first child at the same offset; on a leaf nothing moves |
| ReuseCursor.ReusableNode.AdvancePastLeaf | reusable.go:75-79 | Passes exactly the next leaf |
| ReuseCursor.ReusableNode.Reset | reusable.go:81-87 | Starts before the first child at offset zero; a tree without children offers nothing |
| ReuseCursor.VisitLeaves | reusable.go:75-79 | Repeated steps visit every leaf once, in order, and the offset read off the cursor before each is the sum of the leaves before it |
| ReuseCursor.ReuseNode | parser_core.go:370-433 | Main result: the search ends and answers the first tree it comes to at the position that is unmarked, not an error, not missing, not fragile, over bytes still included, if the parser may use its first token, else nothing; the trees it comes to and the state by then are those of a function of the tree; what it returns stands in the tree exactly at the position asked for |
| ReuseCursor.NodeIsCandidate | parser_core.go:378-398 | In trees without external tokens the search comes to every node of positive width that starts at the position |
| ReuseCursor.FitNodeIsDecided | parser_core.go:370-433 | Main result: in a tree without external tokens, when some node of positive width at the position may be reused, the search decides on the first such node it comes to: that is handed out exactly when its first token may be used in the state by then |
| ReuseCursor.ReusedTextUnchanged | parser_core.go:402-408 | Main result: after any run of edits, a node offered for reuse is a node of the parsed tree over the very bytes its tokens saw |
| ReuseCursor.EditedParseIsFine | parser_loop.go:278 | A tree as a parse builds it, after any run of ordered edits, is one the cursor works on: byte-consistent, its external-token flags true |
| ReuseCursor.ReuseAfterEdits | parser_core.go:370-433 | Main result: a parsed tree is edited any number of times, the cursor reset to it and asked for a node; it answers as above for the edited tree, and what it hands out is a node of the parsed tree, at the position asked for, over the very bytes its tokens saw |
| ReuseCursor.EditKeepsFlags | subtree_edit.go:29-104 | Edits keep the external-token flags the cursor relies on |
| Ranges.RangeArray.constructor | ranges.go:3-20 | An empty list |
| Ranges.RangeArray.Add | ranges.go:3-20 | The list also includes exactly the new stretch, joined to the last range when they touch |
| Ranges.FlatStretch | ranges.go:43-61 | Up to the next boundary inclusion does not change |
| Ranges.StretchDiffers | ranges.go:63-82 | Up to the nearer boundary the two lists differ exactly when their flags do |
| Ranges.BothCross | ranges.go:82-95 | When both lists cross a boundary at once both stay in step |
| Ranges.GetChangedRanges | ranges.go:35-97 | Main result: the output holds exactly the bytes in one list and not the other, in order, no range empty and no two touching, and the sweep ends |
| Ranges.Intersects | ranges.go:22-33 | On such a list a non-empty query is answered exactly, from any start index |
| Ranges.SkipPassed | parser_loop.go:315-322 | The index moves past every range that ends by the position and stops at the first that does not |
| Ranges.SkipKeepsAnswers | parser_loop.go:315-322 | Skipping changes the answer of no query from the position on |
| Ranges.SkipChangesAnAnswer | parser_loop.go:315-322 | Exactly when it does: some range passed meets the query and none left does, so the query starts before the position |
| Lookaheads.LookupSmall | language.go:158-176 | The scan of a small state's groups finds the value of the first group holding the symbol |
| Lookaheads.Lookup | language.go:157-179 | The value of a symbol in a state, zero for none, in either encoding |
| Lookaheads.LookaheadIterator.constructor | lookahead.go:28-48 | Every entry of the state is ahead |
| Lookaheads.LookaheadIterator.Next | lookahead.go:50-102 | Answers the entries one by one, with value and class, then stops for good |
| Lookaheads.LookaheadIterator.NextSmall | lookahead.go:55-73 | The same in a small state |
| Lookaheads.LookaheadIterator.EnterGroup | lookahead.go:57-68 | Enters the next group at its first symbol, with the group's value and class |
| Lookaheads.LookaheadIterator.StepInGroup | lookahead.go:69-73 | The next symbol of the group keeps the group's value and class |
| Lookaheads.LookaheadIterator.NextDense | lookahead.go:74-89 | The next symbol with a non-zero cell of a large state's row |
| Lookaheads.LookaheadIterator.Classify | lookahead.go:91-101 | Terminals carry an action count, non-terminals the next state |
| Lookaheads.ListLookaheads | lookahead.go:50-102 | Main result: each symbol with a non-zero lookup is listed exactly once, with that value, and nothing else is |
| Utf8.DecodeUtf8 | unicode.go:17-77 | The step-by-step decoder computes the decoding function |
| Utf8.DecodeEncoded | unicode.go:17-77 | The UTF-8 form of a code point (section 3 of RFC 3629) is decoded to it and its length, whatever follows |
| Utf8.DecodeCut | unicode.go:17-77 | A code point cut short is an error |
| Lexer.Lexer.constructor | lexer.go:314-317 | A lexer over one range holding everything |
| Lexer.Lexer.GetChunk | lexer.go:103-110 | Reads at the position; an empty read ends the input |
| Lexer.Lexer.GetLookahead | lexer.go:112-141 | Decodes at the position, reading a fresh chunk when fewer than four bytes are left and they do not decode |
| Lexer.Lexer.GotoPosition | lexer.go:143-178 | Into the first range that ends past the position, or to the end of the last |
| Lexer.Lexer.Pass | lexer.go:181-195 | Position, row and column move past the lookahead; a leading byte order mark is not counted |
| Lexer.Lexer.EnterRange | lexer.go:197-218 | Past empty and finished ranges to the start of the next, or none |
| Lexer.Lexer.DoAdvance | lexer.go:180-235 | The slow advance, as the composition of those steps |
| Lexer.Lexer.Advance | lexer.go:238-262 | Main result: inside its range and chunk the fast advance leaves the lexer exactly as the slow one would |
| Lexer.FastIsSlow | lexer.go:243-259 | The fast path's state is the slow path's |
| Lexer.Lexer.Start | lexer.go:331-350 | The first lookahead, past a leading byte order mark, column zero |
| Lexer.Lexer.Reset | lexer.go:325-329 | Goes to the position unless it is there already |
| Lexer.Lexer.FindRange | lexer.go:151-162 | The index of the first non-empty range that ends past the position |
| Lexer.Lexer.SetIncludedRanges | lexer.go:370-386 | Accepted exactly when no range ends before it starts or starts before the last one ended; refused, nothing changes |
| Lexer.MovedLands | lexer.go:143-178 | A move lands on the first included byte at or after the position, or at the end when there is none |
| Lexer.IntoRangeLands | lexer.go:197-218 | An advance stays in its range until it is used up and then lands on the first included byte of the later ranges; when they hold none it ends, at the start of the last range, or where it was when that was its own |
| Lexer.IntoRangePlace | lexer.go:197-218 | Where an advance ends up: at the start of the first later range that is not empty, or of the last one when all are |
| Lexer.StepsBackExactly | lexer.go:180-218 | Both directions: passing a character leads back exactly when there is a later range and the one landed in starts before the character ends |
| Lexer.StraddlingSteps | lexer.go:197-218 | A two-byte character across the end of a range with another range right behind, empty or not: passing it leads one byte back |
| LexerText.LookupFinds | lexer.go:112-141 | In a well-formed document looking up finds the code point, even when the chunk ends inside it |
| LexerText.StepReads | lexer.go:180-235 | Main result, over any one included range at code point boundaries: one advance goes from a code point to the next whatever the chunks; position is the byte offset and row and byte column, a valid cached column counts code points since the line or the range began; at the end no chunk is left |
| LexerText.StartReads | lexer.go:331-350 | Reading starts at the range's first code point that is not a byte order mark at the start of the document, in column zero, ready to advance; it is trapped there exactly when the range is empty and the document goes on |
| LexerText.LineStartIs | lexer.go:283-288 | The byte position less the byte column is where the line starts |
| LexerText.GetColumn | lexer.go:278-304 | Main result: the column is the number of code points since the line or the range began, whichever is later, a byte order mark at the start of the document not counted, and the lexer stands where it stood; it can still be advanced exactly when it was not trapped, and at the end, with the column not known, a chunk is left exactly when the range cannot be resumed |
| LexerText.ChunkTail | lexer.go:121 | What a chunk holds from a code point on is the whole code point and more, or a cut piece of it |
| LexerText.KeepsAChunk | lexer.go:278-304 | Both directions: going back for the column at the end of a range leaves a chunk there exactly when the document goes on and the range is empty or was cut right behind a newline |
| LexerText.ColumnCounts | lexer.go:82-86 | The column is the number of code points since the line or the range began, whichever is later, a byte order mark at the start of the document not counted |
| LexerText.MovedToLine | lexer.go:283-288 | Going back for the column leads to the line start, or to the range start when the line began before it, or stays at the end of a range cut right there |
| LexerText.RestartReads | parser_lex.go:22-24 | Resetting to any code point of the range and starting stands before it, ready to advance; the lexer is trapped exactly at the end of a range that cannot be resumed, with the column not known there before |
| LexerText.StepSettles | lexer.go:180-195 | No advance leads into the trap, because passing a newline makes the column known |
| LexerText.Scan | lexer.go:238-304 | Main result: any run of advances and column queries, in any order, from any place but the trap: every call is allowed, every column told is right, and the run ends where its advances lead |
| LexerText.TrappedInEmptyRange | lexer.go:278-304 | A concrete trap: the empty range between two letters, started and asked for the column, leaves a chunk that the next advance would read out of range |
| LexerText.TrappedBehindLine | lexer.go:278-304 | Another: the first of two lines, reset to its end, started and asked for the column |
| LexerText.DefaultFrames | lexer.go:314-317 | A new lexer stands unread on the default range, which frames every document its offsets can hold |
| LexerText.FreshChunk | lexer.go:103-110 | A chunk read at a code point holds all of it |
| LexerRanges.ReadAll | lexer.go:103-262 | Main result, over any list of included ranges at code point boundaries, empty and touching ones too: advancing to the end yields exactly the code points the ranges hold, in order, after any byte order mark at the start of the document, each at its byte offset, whatever the chunks |
| LexerRanges.ReadOne | lexer.go:238-262 | A round of reading: the code point stood before and its byte offset, and one step past it |
| LexerRanges.StepsOn | lexer.go:180-235 | One advance goes to the next code point any range holds, or to the end with no chunk left |
| LexerRanges.Enters | lexer.go:197-218 | From the start of a range, on to the first code point that it or a later one holds |
| LexerRanges.StartsAll | lexer.go:331-350 | start stands before the first code point to be read, past a leading byte order mark |
| LexerRanges.OneRange | lexer.go:370-386 | What is read of a single range |
| TableWire.NumbersSound | tables.go:181-191 | Bytes, 16-bit and 32-bit numbers, signed ones and flags are unpacked to what was packed |
| TableWire.SmallEntriesSound | tables.go:240-281 | So are slices, field entries, metadata bits and lexer modes |
| TableWire.ActionsSound | tables.go:283-306 | So are parse actions, with their flag bits and signed precedence |
| TableWire.LexEntriesSound | tables.go:308-330 | So are character ranges and lexer instructions |
| TableCodec.TableWriter.Rows | tables.go:205-306 | Entry after entry, appended |
| TableCodec.TableWriter.Entries | tables.go:193-306 | A length and the entries |
| TableCodec.TableWriter.Lists | tables.go:308-319 | A length and that many lists |
| TableCodec.TableWriter.Program | tables.go:321-342 | A program, or a zero instruction count for none |
| TableCodec.TableWriter.Encode | tables.go:91-130 | Every section in its order |
| TableCodec.EncodeTables | tables.go:52-56 | Magic, format and sections |
| TableCodec.TableReader.constructor | tables.go:71 | A reader at the first byte, with no error |
| TableCodec.TableReader.Fail | tables.go:359-363 | Only the first error is kept |
| TableCodec.TableReader.Raw | tables.go:365-376 | The next bytes, or zeros once an error is set; never past the end |
| TableCodec.TableReader.Count | tables.go:384-394 | A length only if its entries fit in what is left |
| TableCodec.TableReader.Rows | tables.go:413-562 | That many entries, in order |
| TableCodec.TableReader.Entries | tables.go:396-562 | A counted list |
| TableCodec.TableReader.Lists | tables.go:401-411 | A counted list of lists |
| TableCodec.TableReader.Program | tables.go:585-616 | A program, or none for a zero count |
| TableCodec.TableReader.Decode | tables.go:133-172 | Every section in its order, on any bytes |
| TableCodec.DecodeTables | tables.go:71-88 | The tables, or the first of: wrong magic, wrong format, a read that failed, bytes left over |
| TableCodec.DecodeEncode | tables.go:43-88 | Main result, both directions: decoding an encoding gives the tables back exactly when each of their programs holds an instruction |
| TableCodec.AcceptedEndsThere | tables.go:78-87 | For any accepted bytes, every longer blob that starts with them is refused for its trailing bytes |
| TableCodec.CutOrPaddedIsRefused | tables.go:43-88 | Main result: every strict prefix of an encoding and every extension of it is refused |
| TableCodec.TableWriter.constructor | tables.go:52 | An empty buffer |
| TableCodec.TableWriter.WriteHead | tables.go:93-105 | Counts, limits, version and name |
| TableCodec.TableWriter.WriteParsing | tables.go:107-116 | The parse tables, names, field maps and symbol data, in order |
| TableCodec.TableWriter.WriteSymbols | tables.go:117-126 | The alias, lexer mode, reserved word, supertype and scanner tables, in order |
| TableCodec.TableReader.U8 | tables.go:378 | The next byte |
| TableCodec.TableReader.U16 | tables.go:380 | The next two bytes, low first |
| TableCodec.TableReader.U32 | tables.go:382 | The next four bytes, low first |
| TableCodec.TableReader.ReadHead | tables.go:135-147 | What WriteHead wrote, field by field |
| TableCodec.TableReader.ReadParsing | tables.go:149-158 | What WriteParsing wrote, section by section |
| TableCodec.TableReader.ReadSymbols | tables.go:159-168 | What WriteSymbols wrote, section by section |

## Left out

- EditBytes.EditKeepsConsistent: offsets are natural numbers, so it speaks of documents whose 32-bit sums do not wrap; the statement is about bytes, the extents of an edited node follow the code but are not claimed consistent.
- ParseStacks.ParseStack.Merge: needs a rank on the graph, which makes the recursion end; without one LinkSplices.ApartMergeKeeps and LinkSplices.MergeWithoutDropKeeps speak of merges that end; dynamic precedence is computed as the code does and not claimed to be a maximum over paths; the reference counts of stack nodes, and the references links hold on subtrees, are not modelled, since an unreachable stack node is simply never read.
- ParseStacks.ParseStack.PopCount: with more than 64 ends to reach, the slices are shown to be some of the paths, and how many at least, not which ones.
- LinkSplices.MergeKeepsAcyclic: speaks of a merged head of one link, as every push makes; for any other merge AppendKeepsAcyclic decides link by link.
- Condense.CondenseStack: the error handler it may call is a parameter that keeps at least as many versions; which of several versions that compare alike or merge is kept, beside the one in front, is not claimed.
- Reduce.Reduce: all paths are accounted for when the caps on iterators and versions cannot intervene, counted as if every path ended on a node of its own; past that only that some path is. It asks that each push the reduction makes raises the rank (Reduce.WideReductionsLift says when it does); the choice between ambiguous children and the next-state table are parameters.
- Balance.BalanceSubtree: does not claim dynamic precedence, column dependence, fragility, parse state or repeat depth, because re-summarising changes them; it assumes hidden repetition symbols without aliases.
- ReuseCursor.ReuseNode: the range-difference test, the first-leaf test and breaking down the top of the stack are parameters; the statement holds for all of them.
- ReuseCursor.FitNodeIsDecided: trees without external tokens and nodes of positive width; in others the search may pass a node over, as ReuseNode's answer says.
- LexCorrect.CompiledMeans: both sides are stopped after the same number of passes, any number; code longer than a 32-bit index is not modelled.
- LexCorrect.UncoveredState: where the skipped statements test a condition before they move or answer, only one direction is stated, because whether they do then depends on the input.
- LexCorrect.FallingCase: one direction only in the same case.
- LexCorrect.FallingOn: of an earlier case, agreement when the next case is left; when that falls off its end too, FallingCase and FallingOn apply to it in turn, but that is not spelled out.
- Lexer.Lexer.GetLookahead: from a position outside the chunk and not just past it, where the program would panic or wrap, the model answers as at the chunk's end; no caller is in that state.
- LexerRanges.ReadAll: ranges at code point boundaries that start inside the document or at its end, and UTF-8 input; other ranges are covered by Lexer.MovedLands, Lexer.IntoRangeLands and Lexer.StepsBackExactly only, and other encodings are a decoding parameter.
- LexerText.GetColumn: one included range, whose points are those of the text; across ranges the code carries a known column on, over a newline between them too, and what that column means there is not stated.
- Ranges.SkipKeepsAnswers: windows from the position on; the parse loop, which sets the position and asks only from there on, is not modelled.
- TableCodec.DecodeEncode: lists hold at most 2^31 - 1 entries, as the reader demands; nil and empty lists are one value; the reader takes a fixed-width entry in one read where the code reads field by field, which is the same because its bytes were counted first.
- Lookaheads.ListLookaheads: repeat-free small states, as generated tables are.
- Cells whose count drops to zero leave the store at once; when Go's collector frees them is not modelled.
- popPending, popError, popAll, stack summaries and hasAdvancedSinceError: the same traversal with other callbacks, and bookkeeping.
- MarkEnd, finish and the token fields of the lexer; UTF-16 decoding.
- The compression around the codec: klauspost/compress is not part of this model.
- The full parse driver, lexing of tokens and error recovery, which need real grammar tables.
- External scanners, S-expression output, sibling and field lookups, name tables, corpus and golden readers, fetching grammars, and the C tokeniser.
