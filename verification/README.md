# Verified models of the xiangqi engine and of the embedded Lua 5.3.5

Two programs of this repository are modelled here in Dafny, with proofs of what they are for: the Chinese chess
engine of `src/bin/xiangqi`, and the parts of the Lua interpreter in `src/ext/lua` that have the most intricate
invariants. Code that works by changing things step by step is modelled by classes whose methods change the same
fields, proved against specification functions; the properties of those functions, and of whole runs, are lemmas
beside them.

| Files | What they model |
|---|---|
| `XqBoard`, `XqMoves`, `XqBounds`, `XqSearch`, `XqEngine`, `XqMeaning` | rules, check detection, move generators, making and taking back moves, alpha-beta with capture search and history table |
| `TableCore`, `TableSizes`, `LuaTable` | Lua tables: Brent's scatter table with relative links, array part, rehash, traversal |
| `GcState`, `GcMark`, `GcTraverse`, `GcAtomic`, `GcCycle`, `GcSurvive`, `GcRun`, `GcProgram`, `LuaGc`, `GcMeaning` | the incremental mark-and-sweep collector with weak tables, ephemerons, open upvalues and barriers, interleaved with any program |
| `CodeMachine`, `CodeSpec`, `CodeProof`, `CodeStat`, `LuaCode`, `CodeMeaning` | the single-pass code generator for logical expressions and comparisons, on a model of the virtual machine |
| `PatternSpec`, `LuaMatch`, `PatternMeaning` | the backtracking pattern matcher and `string.find` |
| `LuaSort`, `SortMeaning` | `table.sort` under any order function |
| `LuaOperators`, `OperatorMeaning` | operator precedence parsing |
| `LuaQuote`, `QuoteMeaning` | `%q` and the scanner's string literals |
| `LuaScope`, `ScopeMeaning` | resolution of names to locals, upvalues and globals |
| `LuaOpen` | open upvalues as views of stack slots |
| `ChunkFormat`, `LuaChunk`, `ChunkMeaning` | binary chunks: dump, buffered stream, load |
| `Shared` | an option type and a lemma about finite sets |

The files that end in `Meaning` tie the specification functions to things that need no definition: integers and
characters, rows and columns, bytes of a file, what a freed object is, what a compiled block leaves in a register. A
specification that is wrong in the same way as its method would fail there.

Some choices recur. A C pointer into an array is an index; a linked list that is threaded through an array keeps
its links, and a list whose order does not matter is a set. What the code takes from outside is a parameter: the
hash function of a table is any function into its nodes, the order function of a sort is any function of the
number of the call and its arguments, the reader of a stream is any sequence of pieces, the writer of a dump may
fail at any call, the character classes of the C library are any predicate. Errors that the code raises are
results. Ghost parameters carry what a proof needs and nothing else. A method that finds a run too complex, or a
size too large, says so in its result, and promises its main property in all other cases.

## Model

| member | source | states |
|---|---|---|
| XqBoard.CheckIsExact | src/bin/xiangqi/xq.cc:596-690 | `is_jiangjun` holds exactly when some enemy piece has a `can_piece_move` onto the own general's square or the generals face each other, on every board with legally placed pieces and both generals. |
| XqMoves.GenerationIsExact | src/bin/xiangqi/xq.cc:693-885 | The generated list contains exactly the moves that `can_piece_move` allows to a square without an own piece and that leave the own general unattacked; the generator of eating moves contains exactly the captures among them. Sound and complete, for any placed board. |
| XqMoves.GenerationIsDistinct | src/bin/xiangqi/xq.cc:1140-1314 | No move occurs twice in the list of all moves, nor in the list of eating moves. |
| XqMoves.GeneralNotTaken | src/bin/xiangqi/xq.cc:921-934 | A legal move never captures a general, because the side that has just moved is not in check. |
| XqMoves.GeneralsSurvive | src/bin/xiangqi/xq.cc:299-324 | Every legal move leads again to a position with legally placed pieces, both generals, and the mover out of check. |
| XqMoves.PlacedAfter | src/bin/xiangqi/xq.cc:299-308 | After a legal move every piece is on the board, generals and advisors in their palace, elephants on their side of the river. |
| XqBounds.ListsFit | src/bin/xiangqi/xq.cc:693-885 | The fixed arrays never overflow: at most 128 moves and at most 64 captures, in every placed position with no more pieces than at the start. |
| XqBounds.CountsNeverGrow | src/bin/xiangqi/xq.cc:299-308 | No move increases the number of pieces of a kind, so the bound above holds over a whole game. |
| XqBounds.StartIsSane | src/bin/xiangqi/data.h:85-102 | The starting board has legally placed pieces, both generals, no check, and the numbers of pieces that the bounds are about. |
| XqBounds.GamesStaySane | src/bin/xiangqi/xq.cc:299-324 | So every position of every game from the starting board is sane and within those bounds. |
| XqSearch.ScoreIsConserved | src/bin/xiangqi/xq.cc:258-308 | The difference between the incrementally kept `m_value_of_board` and the score recomputed from the board is the same before and after every move. |
| XqSearch.StandPatFits | src/bin/xiangqi/xq.cc:1100-1138 | If scores are bounded, the stand-pat value lies in the window of the search. |
| XqSearch.SearchStaysSearchable | src/bin/xiangqi/xq.cc:1045-1083 | Every position that the search visits satisfies what the search asks for, and its score has as much room as before. |
| XqSearch.PlainFits | src/bin/xiangqi/xq.cc:1045-1083 | If scores are bounded, the value of the unpruned search stays inside the full window. |
| XqSearch.PlainBestIsMaximum | src/bin/xiangqi/xq.cc:1045-1083 | The unpruned value of a list of moves is the maximum of the negated values of the replies, and at least the lost-game value. |
| XqSearch.OrderIsIrrelevant | src/bin/xiangqi/xq.cc:1085-1098 | The unpruned value depends only on which moves are in the list, not on the order that the history table gives them. |
| XqSearch.LoopRound | src/bin/xiangqi/xq.cc:1060-1079 | One round of the alpha-beta loop: cut, raise and ignore each keep the running result right for the window. |
| XqEngine.Engine.AddPiece | src/bin/xiangqi/xq.cc:258-272 | The board changes at one square, and the score by the value of that piece there. |
| XqEngine.Engine.DelPiece | src/bin/xiangqi/xq.cc:274-297 | The square becomes empty and the score loses the piece's value there. |
| XqEngine.Engine.MovePiece | src/bin/xiangqi/xq.cc:299-308 | The new board, score and depth are those of `Make`, and the captured piece is returned. |
| XqEngine.Engine.BackMovePiece | src/bin/xiangqi/xq.cc:310-318 | Exactly undoes `MovePiece`, from any position: board, score and depth are what they were. |
| XqEngine.Engine.CanJuMove | src/bin/xiangqi/xq.cc:501-522 | The walk from one square to the other answers whether the chariot reaches it: same row or column with only empty squares between. |
| XqEngine.Engine.CanPaoMove | src/bin/xiangqi/xq.cc:524-549 | The walk that counts pieces answers whether the cannon reaches the square: no piece between for a quiet move, exactly one for a capture. |
| XqEngine.PaoDecided | src/bin/xiangqi/xq.cc:524-549 | The number of pieces between two squares decides the cannon move, and nothing else about the line does. |
| XqEngine.Engine.CheckedByJuJs | src/bin/xiangqi/xq.cc:614-635 | Walking the four lines from the general finds exactly the checks by a chariot and the facing general. |
| XqEngine.Engine.CheckedByMa | src/bin/xiangqi/xq.cc:637-650 | The reversed horse jumps find exactly the checks by a horse whose leg is free. |
| XqEngine.Engine.CheckedByPao | src/bin/xiangqi/xq.cc:652-680 | Walking over one screen on each line finds exactly the checks by a cannon. |
| XqEngine.Engine.CheckedByBz | src/bin/xiangqi/xq.cc:682-691 | The squares in front and beside find exactly the checks by a pawn. |
| XqEngine.Engine.IsChecked | src/bin/xiangqi/xq.cc:596-612 | The four scans together decide check for the side to move. |
| XqEngine.Engine.TestMove | src/bin/xiangqi/xq.cc:921-934 | Says whether the move leaves the general safe, and leaves the whole engine state as it was. |
| XqEngine.Engine.TryMove | src/bin/xiangqi/xq.cc:879-886 | Appends the move exactly if it is wanted and safe; the rest of the array and the state stay. |
| XqEngine.Engine.GenerateSteps | src/bin/xiangqi/xq.cc:730-791 | The generators of general, advisor, elephant and horse (and pawn) append exactly the specified moves, in order, within the array. |
| XqEngine.Engine.GenerateJuRay | src/bin/xiangqi/xq.cc:793-819 | One line of the chariot: quiet moves up to the first piece, then the capture of an enemy piece. |
| XqEngine.Engine.GeneratePaoRay | src/bin/xiangqi/xq.cc:821-856 | One line of the cannon: quiet moves up to the screen, then the first piece behind it as a capture. |
| XqEngine.Engine.GenerateAllMoves | src/bin/xiangqi/xq.cc:693-728 | The array holds exactly the specified list of moves (or of captures), fits, and the engine state is restored. |
| XqEngine.Engine.SortByHistoryTable | src/bin/xiangqi/xq.cc:1085-1098 | The result is a permutation, falling in history score, and the unchanged order if the table is empty. |
| XqEngine.Engine.QuietMoves | src/bin/xiangqi/xq.cc:1116-1136 | The capture loop gives a value that is right for its window with respect to the unpruned capture search. |
| XqEngine.Engine.QuiescentSearch | src/bin/xiangqi/xq.cc:1100-1138 | The pruned capture search is right for its window with respect to the unpruned one, and restores the state. |
| XqEngine.Engine.Reply | src/bin/xiangqi/xq.cc:1060-1068 | Make, search the reply, take back: the value is right for the turned window and the state is restored. |
| XqEngine.Engine.SearchMoves | src/bin/xiangqi/xq.cc:1060-1079 | The loop over sorted moves is right for the window; above alpha, the index kept belongs to a move that reaches the value. |
| XqEngine.Engine.AlphaBeta | src/bin/xiangqi/xq.cc:1045-1083 | Fail-soft alpha-beta against the search without cuts: exact inside the window, a bound outside, whatever the history table holds, for any searchable position; at the root the kept index is named for the best move. Board, score, turn and depth are restored. |
| XqEngine.RootIndex | src/bin/xiangqi/xq.cc:1070-1081 | With bounded scores the index that the root loop keeps is that of a maximal move. |
| XqEngine.Engine.PlayBest | src/bin/xiangqi/xq.cc:360-393 | The engine plays a generated move, and with bounded scores one that maximises the unpruned value. |
| XqEngine.Engine.ComputerPlay | src/bin/xiangqi/xq.cc:360-393 | A turn either plays such a move or ends the game because there is none; the position stays searchable. |
| XqEngine.Engine.CheckGameOver | src/bin/xiangqi/xq.cc:384-391 | The game is over exactly if it was or if the side to move has no legal move; the position is restored. |
| XqMeaning.PieceMoveMeans | src/bin/xiangqi/xq.cc:459-562 | In rows and columns: the general goes one square inside a palace, the advisor one diagonally, the elephant two diagonally over a free eye on its own side of the river, the horse two and one with a free leg, the chariot along a free line, the cannon likewise or over exactly one piece to take, the pawn forward and, beyond the river, sideways; and nothing else is a move. |
| XqMeaning.CheckMeans | src/bin/xiangqi/xq.cc:596-691 | A side is in check exactly if an enemy piece can make such a move to its general, or the generals see each other on a free line. |
| XqMeaning.LegalMeans | src/bin/xiangqi/xq.cc:921-934 | A move is legal exactly if one's own piece makes it, not onto another one of one's own, and the general is not threatened afterwards. |
| XqMeaning.MembersMean | src/bin/xiangqi/xq.cc:693-728 | The generated moves are exactly these. |
| XqMeaning.ScoreIsMaterial | src/bin/xiangqi/xq.cc:258-297 | The score of a board is the material of red minus that of black, where each side's pieces are valued on the squares as seen from its own end. |
| XqMeaning.LeafMeans | src/bin/xiangqi/xq.cc:1100-1115 | Where the search ends, the value is what the mover has more than the other side, up to the start value of the score with the mover's sign. |
| XqMeaning.QuietIsMinimax | src/bin/xiangqi/xq.cc:1100-1138 | The capture search with turned signs has the value of a game in which red takes the most and black the least, and either may stop. |
| XqMeaning.PlainIsMinimax | src/bin/xiangqi/xq.cc:1045-1083 | The same for the search over all moves: a minimax on boards, by material, in which a side without a move has lost. |
| XqMeaning.BestWins | src/bin/xiangqi/xq.cc:1045-1083 | A best move of the search is a legal move after which red's minimax value is highest, if red moves, and lowest, if black does, among all legal moves. |
| XqMeaning.PlayTurn | src/bin/xiangqi/xq.cc:360-393 | A turn of the engine: without a legal move it gives up; otherwise it makes a legal one, and one that is best by minimax if table entries and start value are small; the game is over exactly if the other side then has no legal move. |
| TableCore.TakeOverScatter | src/ext/lua/ltable.c:492-513 | Putting a key into its free main position keeps the hash part well formed: acyclic chains, each key reachable from its main position, main positions held by their own keys. |
| TableCore.ChainInScatter | src/ext/lua/ltable.c:503-512 | Linking a new key behind the holder of its main position keeps the hash part well formed. |
| TableCore.RelocateScatter | src/ext/lua/ltable.c:486-502 | Moving a colliding node that is out of place to the free position, relinking its predecessor, keeps the hash part well formed. |
| TableCore.ChainInInserts | src/ext/lua/ltable.c:503-512 | No other key's value changes by that, and the new key is found. |
| TableCore.RelocateInserts | src/ext/lua/ltable.c:486-502 | The same for the relocation. |
| TableSizes.ComputeSizes | src/ext/lua/ltable.c:219-241 | The size found is the largest power of two such that more than half of the slots would be used, or 0, and the count is the number of keys that go to the array part. |
| TableSizes.CountArray | src/ext/lua/ltable.c:259-282 | The slice counts and their sum are those of the set of live array indices. |
| TableSizes.OptimalStep | src/ext/lua/ltable.c:225-238 | One round of the loop keeps the best candidate so far. |
| TableSizes.OptimalStop | src/ext/lua/ltable.c:225-238 | Stopping early is safe: no larger power of two can be more than half full. |
| LuaTable.Table.constructor | src/ext/lua/ltable.c:421-430 | A new table is well formed, with the shared dummy node, and gives nil for every key. |
| LuaTable.Table.Get | src/ext/lua/ltable.c:589-606 | Finds the cell of a key that is present and says that it is absent otherwise; what is read through the result is the value that the table as a map gives to the key. |
| LuaTable.Table.Walk | src/ext/lua/ltable.c:560-573 | The chain walk terminates and finds the key if and only if the hash part has it. |
| LuaTable.Table.Store | src/ext/lua/ltable.c:610-616 | A store through a cell changes the value of that key only, and no key changes its place. |
| LuaTable.Table.GetFreePos | src/ext/lua/ltable.c:441-450 | Returns a node without key and lowers the pointer, or nothing if all below it are used. |
| LuaTable.Table.FindPrevious | src/ext/lua/ltable.c:486-490 | The walk from the main position of the colliding key ends at the node that links to it. |
| LuaTable.Table.MoveAway | src/ext/lua/ltable.c:491-502 | Performs the relocation. |
| LuaTable.Table.ChainNew | src/ext/lua/ltable.c:503-512 | Performs the linking. |
| LuaTable.Table.Place | src/ext/lua/ltable.c:477-513 | In all three cases the key is inserted, no other value changes, and the hash part stays well formed. |
| LuaTable.Table.NewKey | src/ext/lua/ltable.c:461-514 | Inserts with a rehash if no node is free; the map is unchanged until the value is stored. It fails exactly for nil, for NaN, and for a key that the table `Refuses`: there is no free node, and the best array part leaves more keys for the hash part than 2^30. |
| LuaTable.Table.SetNodeVector | src/ext/lua/ltable.c:310-334 | A fresh, empty hash part with room for the given number of keys. |
| LuaTable.Table.Resize | src/ext/lua/ltable.c:347-384 | Any growth or shrinkage of both parts keeps the value of every key, if the hash part has room; reinsertion never triggers another rehash. |
| LuaTable.Table.MoveSlice | src/ext/lua/ltable.c:365-371 | The vanishing slice of the array part is reinserted without loss. |
| LuaTable.Table.MoveNodes | src/ext/lua/ltable.c:375-382 | The old nodes are reinserted, from the last to the first, without loss. |
| LuaTable.Table.CountHash | src/ext/lua/ltable.c:285-298 | The counts over the hash part are those of its live keys. |
| LuaTable.Table.NewSizes | src/ext/lua/ltable.c:395-409 | The new array size is the optimal one for all live integer keys and the extra key, and the hash size is the number of the others. |
| LuaTable.Table.Rehash | src/ext/lua/ltable.c:395-412 | Keeps every value, makes room for the extra key, and leaves an array part of the optimal size; it reports an overflow exactly if more than 2^30 keys do not fit into that, and then changes nothing. |
| LuaTable.FreeNodeExists | src/ext/lua/ltable.c:441-450 | Fewer keys than nodes leave a node free, so the insertion after a rehash finds one. |
| LuaTable.Table.Set | src/ext/lua/ltable.c:610-616 | Assignment: afterwards the key has the value, under both of its forms if it is an integer and a float at once, and every other key its old one; or it is refused, exactly for nil, NaN and overflow. For a key that is present it cannot fail, and no key changes its place. |
| LuaTable.NormalMeans | src/ext/lua/ltable.c:467-474 | Exactly two different keys are the same element: an integer and the float of that value. |
| LuaTable.Table.FloatsLookUpIntegers | src/ext/lua/ltable.c:594-599 | A float with an integral value looks up what the integer does, in every table. |
| LuaTable.Table.SetWholeFloat | src/ext/lua/ltable.c:467-470 | After `t[2.0] = v` one reads v under 2, and every other integer, float and other key keeps its value. |
| LuaTable.Table.Reserve | src/ext/lua/ltable.c:387-390 | Preallocating the array part before a list is stored changes no value and never overflows. |
| LuaTable.Table.Create | src/ext/lua/lapi.c:684-693 | `lua_createtable`: a table of the given sizes that gives nil for every key. |
| LuaTable.Table.Replay | src/ext/lua/ltable.c:589-616 | A run of any assignments and preallocations leaves under every key what was assigned to it last: the two-part structure refines a finite map over all runs. It stops early exactly at a nil or NaN key, or at one that the table refuses. |
| LuaTable.Table.FindIndex | src/ext/lua/ltable.c:159-184 | The position behind a present key; fails exactly for absent ones. |
| LuaTable.Table.Next | src/ext/lua/ltable.c:186-202 | The first live element behind the key, with its value, or the end. |
| LuaTable.WalkCovers | src/ext/lua/ltable.c:186-202 | No live slot is skipped. |
| LuaTable.TraversalIsExact | src/ext/lua/ltable.c:186-202 | A traversal during which only values change returns no key twice, ends, and returns every key that keeps a value throughout. |
| LuaTable.Table.Traverse | src/ext/lua/ltable.c:186-202 | A program that calls `next` and, after each step, assigns any values, nil included, to keys that the table has: it always ends, is given no key twice and only keys with a value at that moment, and is given every key that never loses its value; contents at each moment are those of the assignments so far. |
| GcCycle.AccessibleIsAllocated | src/ext/lua/lgc.c:697-723 | Safety: under the invariant, every object that a program can reach by any chain of references is in the heap and not dead. |
| GcCycle.PathIsLive | src/ext/lua/lgc.c:697-723 | Along every path of references all values are live. |
| GcCycle.Restarted | src/ext/lua/lgc.c:337-344 | A new cycle starts with empty lists and everything white. |
| GcCycle.Free | src/ext/lua/lgc.c:697-755 | Freeing a dead object during the sweep leaves no reference to it, and the invariant holds. |
| LuaGc.Collector.constructor | src/ext/lua/lstate.c:295-348 | The state with only the main thread satisfies the invariant. |
| LuaGc.Collector.ReallyMark | src/ext/lua/lgc.c:235-286 | Marks one white object, iterating through userdata; the marking invariant holds again and nothing outside a set that may be kept is marked. |
| LuaGc.Collector.IsCleared | src/ext/lua/lgc.c:139-147 | A weak reference is to be cleared exactly if its object is white and no string; strings are marked. |
| LuaGc.Collector.TraverseWeakValue | src/ext/lua/lgc.c:361-381 | While propagating, a table with weak values goes to `grayagain`; later it goes to `weak` only if it was risky (it has an array part or an unmarked value), and does so if it still is; no other list changes. |
| LuaGc.Collector.TraverseEphemeron | src/ext/lua/lgc.c:394-430 | Marks values whose keys are marked; says that it marked nothing exactly if the table has converged. It is linked into `ephemeron` only for an unmarked value under an unmarked key, and into `allweak` only if nothing but keys can be lost. |
| LuaGc.Collector.TraverseTable | src/ext/lua/lgc.c:451-471 | The traversal of a table by its mode keeps the tri-colour invariant. |
| LuaGc.Collector.TraverseProto | src/ext/lua/lgc.c:479-498 | The cached closure of a prototype is forgotten exactly if it is white; nothing else in the heap changes. |
| LuaGc.Collector.TraverseClosure | src/ext/lua/lgc.c:514-527 | Open upvalues are touched while propagating and marked in the atomic phase. |
| LuaGc.Collector.TraverseThread | src/ext/lua/lgc.c:530-553 | A thread is never black; in the atomic phase it goes back to the list of threads with open upvalues. |
| LuaGc.Collector.PropagateMark | src/ext/lua/lgc.c:559-600 | One gray object is traversed; white objects or gray objects become fewer. |
| LuaGc.Collector.PropagateAll | src/ext/lua/lgc.c:603-605 | Ends with no gray object left. `Linkage` says which tables it links into `weak` and `ephemeron`: only risky ones that were left to visit, and all visited ones that are risky still. |
| GcTraverse.ListsAtAtomic | src/ext/lua/lgc.c:982-989 | The atomic phase finds `weak` and `ephemeron` empty if no table that was visited in the step before was risky then, and does not if one of them is risky still. |
| LuaGc.WeakBeforeAtomic | src/ext/lua/lgc.c:982-989 | A run from a new state that reaches the beginning of the atomic phase with a table in `weak` that the program can reach. |
| LuaGc.Collector.RemarkUpvals | src/ext/lua/lgc.c:312-331 | Values of touched upvalues of unmarked threads are marked, and only marked threads with upvalues stay in the list. |
| LuaGc.Collector.ConvergeEphemerons | src/ext/lua/lgc.c:608-628 | Repeats passes until one marks nothing; then every ephemeron table has converged. |
| LuaGc.Collector.ClearValues | src/ext/lua/lgc.c:658-675 | The listed tables lose exactly their unmarked values that are no strings, with the entries of these values, and nothing else changes. |
| LuaGc.Collector.ClearKeys | src/ext/lua/lgc.c:639-651 | The listed tables lose exactly the entries whose keys are unmarked and no strings, and nothing else changes. |
| GcAtomic.KeysAreMarked | src/ext/lua/lgc.c:361-381 | When clearing begins, the keys of all marked weak-value tables are marked, even where the values are not. |
| GcAtomic.AtomicClosed | src/ext/lua/lgc.c:982-1026 | After the atomic phase no marked object refers to an unmarked one. |
| GcAtomic.Flip | src/ext/lua/lgc.c:1024-1025 | Exchanging the two whites makes exactly the unmarked objects dead. |
| GcAtomic.FlipSound | src/ext/lua/lgc.c:1024-1025 | No live object then refers to a dead one, if no metatable has been lost. |
| GcAtomic.FlipLost | src/ext/lua/lgc.c:1024-1025 | And if one has been lost, some live object does: the condition is exact. |
| GcAtomic.AtomicForgets | src/ext/lua/lgc.c:982-1026 | The atomic phase takes an entry out of a table only by the rule of its mode: weak values by the value, ephemerons by the key, all-weak tables by either, strong tables never; strings never count as gone; and it keeps the keys of weak values. |
| LuaGc.Collector.Atomic | src/ext/lua/lgc.c:982-1026 | The whole atomic phase: closed marking, exchanged whites, and what it may forget, mode by mode. Tables that waited in `allweak` before it are treated as all-weak. |
| LuaGc.Collector.SweepList | src/ext/lua/lgc.c:735-752 | Frees dead objects and whitens the others, at most the given number at a time. |
| LuaGc.Collector.SweepStep | src/ext/lua/lgc.c:1029-1042 | A step of the sweep goes on or changes to the next phase. |
| LuaGc.Collector.RestartCollection | src/ext/lua/lgc.c:337-344 | Marks the roots. |
| LuaGc.Collector.SingleStep | src/ext/lua/lgc.c:1045-1098 | Every step of every phase keeps the invariant, comes closer to the end of the cycle and marks nothing outside a set that may be kept. Only the atomic step takes entries out of tables, by the rules of their modes (any table that waited in `allweak` since before counts as all-weak), and what is left then has the roots and all that they hold, strongly or by the keys of ephemerons. |
| GcSurvive.AtomicSurvives | src/ext/lua/lgc.c:982-1026 | Across the atomic phase and the entry of the sweep every object keeps its contents, except for what the mode of a weak table lets go. |
| GcSurvive.StrongUntouched | src/ext/lua/lgc.c:982-1026 | An object that is no weak table, and did not wait as one, has lost nothing that a program can see. |
| GcSurvive.SurvivesTrans | src/ext/lua/lgc.c:1159-1176 | Survival composes over steps, where nothing dangles in between. |
| GcSurvive.AtomicCompletes | src/ext/lua/lgc.c:982-1026 | What the atomic phase leaves to the sweep has the roots and, in the heap as it was before, everything that its objects hold: by strong references, as the value of an ephemeron whose key is kept, as the key of a weak value, or as a string in an entry that stays. |
| GcSurvive.LeastIsKept | src/ext/lua/lgc.c:235-286 | The sets that a collection may keep have a least one. |
| GcSurvive.CourseClears | src/ext/lua/lgc.c:1159-1176 | The atomic step of a full collection leaves a set that is complete in the heap as it was when the collection began. |
| LuaGc.Collector.FullGc | src/ext/lua/lgc.c:1159-1176 | A full collection ends; nothing outside any set that may be kept survives; the survivors are complete (`Complete`) in the heap as it was, with the rule for ephemerons; and they have their contents but for what their modes let go. |
| LuaGc.Collector.New | src/ext/lua/lgc.c:208-217 | A new object is white and at the head of the list, and the invariant holds, in every phase. |
| LuaGc.Collector.Store | src/ext/lua/lgc.c:155-165 | A store followed by the forward barrier keeps the invariant in every phase and changes nothing else but marks. |
| LuaGc.Collector.StoreTable | src/ext/lua/lgc.c:171-178 | A store into a table followed by the backward barrier keeps the invariant. |
| LuaGc.Collector.SetMetatable | src/ext/lua/lapi.c:846-864 | `lua_setmetatable` keeps the invariant if and only if it is not the case that the collector is marking, the table waits in `allweak` and the metatable is white. |
| GcProgram.LoseInv | src/ext/lua/lapi.c:860-864 | In that case the invariant is lost, and nothing but that metatable is the reason. |
| LuaGc.LoseMetatable | src/ext/lua/lapi.c:860-864 | A run from a new state, by collector steps and API calls only, after which a metatable that the program can reach is dead. |
| LuaGc.Collector.SetStack | src/ext/lua/lgc.c:530-553 | Stores in stacks need no barrier. |
| LuaGc.Collector.SetRoots | src/ext/lua/lgc.c:289-293 | Neither do stores in the registry and in the metatables of basic types. |
| LuaGc.Collector.SetCache | src/ext/lua/lvm.c:632-651 | A closure is cached in its prototype without a barrier only if the prototype is not black. |
| LuaGc.Collector.PutUpvalue | src/ext/lua/lgc.c:185-191 | A store into a closed upvalue followed by its barrier keeps the invariant; while marking, the value is marked. |
| LuaGc.Collector.SetUpvalue | src/ext/lua/lvm.c:855-860 | Afterwards the upvalue reads the value, wherever it lives. |
| LuaGc.Collector.FindUpvalue | src/ext/lua/lfunc.c:57-80 | The open upvalue of a slot is the existing one, or a new one that is known from the list of threads. |
| LuaGc.Collector.CloseUpvalues | src/ext/lua/lfunc.c:83-96 | Exactly the open upvalues at or above the level get their own values; what upvalues read does not change. |
| LuaGc.Collector.JoinUpvalue | src/ext/lua/lapi.c:1287-1297 | A closure that takes over another upvalue keeps the invariant. |
| LuaGc.Collector.Do | src/ext/lua/lgc.c:1045-1098 | Any action of program or collector keeps the invariant and has exactly its effect; a collector step begins a cycle from the pause, comes strictly closer to the end of the cycle otherwise, and never lets more be kept. |
| LuaGc.Collector.Run | src/ext/lua/lgc.c:1045-1100 | Any interleaving of program actions and collector steps: each state satisfies the invariant and follows from the one before as its action says, and in none of them has anything reachable been freed; the run stops only before a store that `SetMetatable` excludes. |
| GcRun.StepNearer | src/ext/lua/lgc.c:1045-1098 | Every step outside the pause brings it nearer, by a number that depends on the heap, the white and gray objects and the rest of the list to sweep. |
| GcRun.StepsReachPause | src/ext/lua/lgc.c:1045-1098 | From any state, that number of consecutive steps comes to the pause. |
| GcRun.CycleCollects | src/ext/lua/lgc.c:1045-1098 | From the pause, consecutive steps come back to it within a bound quadratic in the number of objects; then nothing is left outside any set that could be kept when the cycle began, all that has to be left is, and tables have lost only what their modes allow. |
| LuaGc.StepsPause | src/ext/lua/lgc.c:1129-1149 | In any run of program and collector, a long enough row of collector steps comes to the pause. |
| LuaGc.StepsCollect | src/ext/lua/lgc.c:1129-1149 | In any run, a row of steps that begins in the pause and is longer than the bound has collected: a program cannot keep garbage by what it did before. |
| GcMeaning.RootsMean | src/ext/lua/lgc.c:337-343 | The main thread, the running one, the registry and the metatables of basic types are accessible. |
| GcMeaning.ObjectsMean | src/ext/lua/lgc.c:479-548 | What a program gets through each kind of object: metatables, values, fields, upvalues wherever they live, array slots, keys and values, stack slots, constants, inner prototypes and the cached closure. |
| GcMeaning.EntriesMean | src/ext/lua/lgc.c:639-676 | What a collection does to an entry, by the mode of its table: strong tables keep both, weak values keep their keys, an ephemeron keeps its value as long as its key is there; the entry is as before exactly if neither was freed, and has no value otherwise. |
| GcMeaning.CollectUnheld | src/ext/lua/lgc.c:1159-1176 | From a new collector: an object held by a weak value only, and an ephemeron's key held by its own value only, are freed by a full collection, the tables stay and their entries are empty. |
| GcMeaning.CollectHeld | src/ext/lua/lgc.c:1159-1176 | With the two objects in the stack, the same collection frees nothing and changes no entry. |
| CodeMachine.ChainJoin | src/ext/lua/lcode.c:116-129 | Linking the last jump of one list to the head of another makes one list of exactly the jumps of both. |
| CodeMachine.RunAppend | src/ext/lua/lcode.c:293-306 | A run goes on where code has been added behind; pending jumps stop it. |
| CodeMachine.RunRewritten | src/ext/lua/lcode.c:195-236 | Rewriting pending jumps and the tests before them does not change a run up to there. |
| CodeMachine.RunStops | src/ext/lua/lcode.c:179-188 | A run stops only at pending jumps, and with a value only behind a TESTSET that takes its jump. |
| CodeSpec.Discharges | src/ext/lua/lcode.c:242-245 | Giving the pending jumps their target makes all runs that were to arrive there arrive. |
| CodeSpec.EvalsPut | src/ext/lua/lcode.c:595-635 | An instruction with the value's result puts the value into the register on every run. |
| CodeSpec.EvalsFill | src/ext/lua/lcode.c:624-628 | Filling in the open register of the last instruction does so, too. |
| CodeSpec.ForkBranch | src/ext/lua/lcode.c:839-852 | A test with a jump behind it separates true from false, taking the value along where it must. |
| CodeSpec.EvalsNot | src/ext/lua/lcode.c:910-940 | Exchanging the lists, removing their values and negating the value in place computes the negation. |
| CodeSpec.Compose | src/ext/lua/lcode.c:1124-1139 | Joining the list of the first operand to that of the second computes `and` and `or`, with the value of the deciding operand. |
| CodeSpec.EvalsCompare | src/ext/lua/lcode.c:1037-1060 | The comparison instruction with exchanged operands or negated condition computes the comparison. |
| CodeSpec.EvalsLoads | src/ext/lua/lcode.c:680-690 | The two boolean loads behind a jump change nothing for runs that have a value. |
| CodeSpec.EvalsTestLoads | src/ext/lua/lcode.c:677-690 | Behind a comparison they are reached by falling through. |
| CodeSpec.EvalsPatched | src/ext/lua/lcode.c:691-696 | Patched to the end or to the loads, every jump arrives with the right value in the register. |
| CodeProof.MergeRun | src/ext/lua/lcode.c:64-83 | If no jump goes behind a LOADNIL at the end, widening it is the same as another LOADNIL behind it, on every run. |
| LuaCode.FuncState.constructor | src/ext/lua/lparser.c:529-549 | A new function has no code and nothing pending. |
| LuaCode.FuncState.FixJump | src/ext/lua/lcode.c:103-110 | The jump gets its offset, or the function is too complex, exactly if the offset does not fit into the field. |
| LuaCode.FuncState.Concat | src/ext/lua/lcode.c:116-129 | The result is a list of exactly the jumps of both lists, and only links of the first list change. It fails only in code longer than a jump reaches. |
| LuaCode.FuncState.PatchTestReg | src/ext/lua/lcode.c:195-207 | Says whether the jump takes a value, and gives the test its register or removes it. |
| LuaCode.FuncState.RemoveValues | src/ext/lua/lcode.c:213-216 | No jump of the list takes a value any more. |
| LuaCode.FuncState.NeedValue | src/ext/lua/lcode.c:659-666 | Whether some jump of the list takes no value. |
| LuaCode.FuncState.PatchListAux | src/ext/lua/lcode.c:224-236 | Every jump of the list gets its target and register. |
| LuaCode.FuncState.DischargeJpc | src/ext/lua/lcode.c:242-245 | The jumps to here get this place as their target. |
| LuaCode.FuncState.Code | src/ext/lua/lcode.c:293-306 | Emits behind discharged jumps. |
| LuaCode.FuncState.Jump | src/ext/lua/lcode.c:136-143 | Pending jumps to here are kept on hold behind the new one. |
| LuaCode.FuncState.CondJump | src/ext/lua/lcode.c:158-161 | A test and its pending jump. |
| LuaCode.FuncState.PatchToHere | src/ext/lua/lcode.c:252-255 | The list joins the jumps to here. |
| LuaCode.FuncState.CodeNil | src/ext/lua/lcode.c:64-83 | Sets the registers to nil on every run, whether the instruction before is widened or a new one is emitted; `lasttarget` makes the merge safe. |
| LuaCode.FuncState.AddK | src/ext/lua/lcode.c:428-452 | The constant has an index, and no other index changes. |
| LuaCode.FuncState.DischargeVars | src/ext/lua/lcode.c:556-590 | A variable becomes a value in a register or an instruction whose register is open. |
| LuaCode.FuncState.Discharge2Reg | src/ext/lua/lcode.c:595-635 | The value is in the register on every run that does not leave by a jump. |
| LuaCode.FuncState.Discharge2AnyReg | src/ext/lua/lcode.c:641-646 | The same with a register of its own. |
| LuaCode.FuncState.NegateCondition | src/ext/lua/lcode.c:825-830 | The condition of the comparison is negated. |
| LuaCode.FuncState.JumpOnCond | src/ext/lua/lcode.c:839-852 | A jump that is taken exactly if the value is as asked; a `not` is taken back instead of tested. |
| LuaCode.FuncState.JumpUnless | src/ext/lua/lcode.c:857-875 | Comparisons already jump, and constants need no jump. |
| LuaCode.FuncState.GoIfTrue | src/ext/lua/lcode.c:857-881 | Runs on which the value is true go on here; all others leave by the returned list. |
| LuaCode.FuncState.GoIfFalse | src/ext/lua/lcode.c:884-905 | The other way round. |
| LuaCode.FuncState.CodeOpposite | src/ext/lua/lcode.c:910-935 | Constants are folded, conditions negated, other values computed by NOT. |
| LuaCode.FuncState.CodeNot | src/ext/lua/lcode.c:910-940 | The code computes the negation. |
| LuaCode.FuncState.CodeLoads | src/ext/lua/lcode.c:680-690 | The boolean loads and the jump over them. |
| LuaCode.FuncState.CodeTestLoads | src/ext/lua/lcode.c:677-690 | The boolean loads behind a comparison. |
| LuaCode.FuncState.PatchBoth | src/ext/lua/lcode.c:691-699 | All jumps of both lists arrive with the value in the register, and the lists are empty. |
| LuaCode.FuncState.Exp2Reg | src/ext/lua/lcode.c:675-700 | On every run the value is in the register, and no jump is left. |
| LuaCode.FuncState.Exp2NextReg | src/ext/lua/lcode.c:703-708 | The same in the next free register. |
| LuaCode.FuncState.Exp2AnyReg | src/ext/lua/lcode.c:715-727 | The same in some register. |
| LuaCode.FuncState.Exp2Val | src/ext/lua/lcode.c:744-749 | The same in a register or as a constant. |
| LuaCode.FuncState.Exp2K | src/ext/lua/lcode.c:458-508 | Nil, booleans and numbers as constants. |
| LuaCode.FuncState.Exp2RK | src/ext/lua/lcode.c:758-776 | The same as an operand. |
| LuaCode.FuncState.FreeExps | src/ext/lua/lcode.c:407-414 | Registers are given back in the right order. |
| LuaCode.FuncState.CodeComp | src/ext/lua/lcode.c:1037-1060 | The code computes the comparison of the operands, evaluated from left to right. |
| LuaCode.FuncState.JoinLists | src/ext/lua/lcode.c:1124-1139 | `and` and `or` by joining lists. |
| LuaCode.FuncState.Simple | src/ext/lua/lparser.c:931-977 | Constants, locals and upvalues emit nothing yet. |
| LuaCode.FuncState.Compile | src/ext/lua/lparser.c:1048-1075 | Single-pass compilation of any expression over constants, locals and upvalues with `not`, `and`, `or` and comparisons: on every run the code computes the value that the language defines. It is given up only if the code might get too long for a jump (`Length`) or the expression needs too many registers (`Registers`). |
| LuaCode.FuncState.CompileLogical | src/ext/lua/lcode.c:1086-1139 | The second operand is compiled only where the first does not decide. |
| LuaCode.FuncState.CompileCompare | src/ext/lua/lcode.c:1086-1118 | The first operand is put in place before the second is compiled. |
| LuaCode.FuncState.StoreLocal | src/ext/lua/lcode.c:782-790 | The value is in the local on every run. |
| LuaCode.FuncState.Statement | src/ext/lua/lparser.c:1442-1459 | `local` with a value, `local` with names only, and assignment to a local do what the statement says to all locals. |
| CodeStat.PerformsMore | src/ext/lua/lparser.c:598-607 | Statements compose. |
| CodeStat.Finished | src/ext/lua/lcode.c:149-151 | With the last jumps discharged nothing is pending. |
| LuaCode.FuncState.Block | src/ext/lua/lparser.c:598-607 | A whole block and the RETURN behind it: running the finished code on the plain machine does to the locals exactly what the block says, for every initial register contents. A block that is short enough and needs fewer than 255 registers is never given up. |
| CodeStat.FromTheStart | src/ext/lua/lparser.c:598-607 | A function body runs so from its entry. |
| CodeMeaning.ListingOfLess | src/ext/lua/lvm.c:1095-1103 | The code of a comparison as the machine runs it: the jump follows if the outcome is as asked, and is skipped otherwise. |
| CodeMeaning.ListingOfLogic | src/ext/lua/lvm.c:1120-1129 | TESTSET keeps the deciding value and jumps, or goes on behind the jump. |
| CodeMeaning.ListingOfLoads | src/ext/lua/lvm.c:796-840 | The instructions that load constants, upvalues, negations and nils. |
| CodeMeaning.ComparisonsMean | src/ext/lua/lcode.c:1037-1060 | On a machine that orders integers as usual, the six comparisons of expressions with integer values are the six comparisons of those integers. |
| CodeMeaning.LogicMeans | src/ext/lua/lcode.c:857-942 | `and`, `or` and `not`, where only nil and false are not true. |
| CodeMeaning.CompileLocal | src/ext/lua/lparser.c:1442-1461 | `local x = e` is compiled unless it is too long or needs too many registers, and every run of the code leaves in the first register what the expression means. |
| CodeMeaning.CompileComparison | src/ext/lua/lcode.c:1037-1060 | For `local x = l op r` that is whether the integers compare as the operator, as written, says. |
| CodeMeaning.CompileChoice | src/ext/lua/lcode.c:1086-1140 | For `local x = c and a or b` that is a if c and a are true, and b otherwise. |
| CodeMeaning.CompileSequence | src/ext/lua/lparser.c:598-607 | Statements take effect one after the other. |
| PatternSpec.FirstIsBest | src/ext/lua/lstrlib.c:425-524 | The backtracking search finds exactly what the declarative meaning of the pattern asks for: the first match in its order of preference, or none, or its error. |
| PatternSpec.IsFirstUnique | src/ext/lua/lstrlib.c:425-524 | The meaning determines the outcome. |
| PatternSpec.LongestMeaning | src/ext/lua/lstrlib.c:361-374 | The greedy count is the longest run of single matches. |
| PatternSpec.BalanceMeaning | src/ext/lua/lstrlib.c:341-358 | The count of delimiters finds the first position where the string is balanced, and none exactly if there is none. |
| LuaMatch.MatchState.FindClassEnd | src/ext/lua/lstrlib.c:258-279 | The end of a class, or the right error for a malformed one. |
| LuaMatch.MatchState.MatchBracketClass | src/ext/lua/lstrlib.c:302-322 | Membership in a set with ranges, classes and complement. |
| LuaMatch.MatchState.SingleMatch | src/ext/lua/lstrlib.c:325-338 | Whether one character matches one class. |
| LuaMatch.MatchState.MatchBalance | src/ext/lua/lstrlib.c:341-358 | %b finds the balanced end or reports missing arguments. |
| LuaMatch.MatchState.CaptureToClose | src/ext/lua/lstrlib.c:250-255 | The last open capture. |
| LuaMatch.MatchState.StartCapture | src/ext/lua/lstrlib.c:389-400 | Opens a capture and undoes it if the rest does not match. |
| LuaMatch.MatchState.EndCapture | src/ext/lua/lstrlib.c:403-411 | Closes a capture and undoes it if the rest does not match. |
| LuaMatch.MatchState.MatchCapture | src/ext/lua/lstrlib.c:414-422 | A back reference matches the captured text. |
| LuaMatch.MatchState.MaxExpand | src/ext/lua/lstrlib.c:361-373 | The longest repetition first, then shorter ones. |
| LuaMatch.MatchState.MinExpand | src/ext/lua/lstrlib.c:376-386 | The shortest repetition first. |
| LuaMatch.MatchState.MatchFrontier | src/ext/lua/lstrlib.c:456-468 | %f matches at a transition into the set. |
| LuaMatch.MatchState.Match | src/ext/lua/lstrlib.c:425-524 | The result, the captures and the errors are those of the meaning, unless the recursion budget runs out; a budget longer than the pattern always suffices; captures are restored on failure. |
| LuaMatch.MatchState.Find | src/ext/lua/lstrlib.c:629-649 | The first place where the pattern matches, or only the first place behind an anchor. |
| LuaMatch.HasNoSpecials | src/ext/lua/lstrlib.c:580-588 | Whether the pattern has none of the special characters, across embedded zeros. |
| LuaMatch.MemFind | src/ext/lua/lstrlib.c:528-547 | The first occurrence of a string, or none exactly if there is none. |
| LuaMatch.StrFind | src/ext/lua/lstrlib.c:607-651 | `string.find`: the plain shortcut gives what matching gives, unless the pattern has a closing parenthesis and no special character. |
| LuaMatch.PlainSearchAgrees | src/ext/lua/lstrlib.c:580-628 | For patterns without special characters, plain search agrees with matching on every subject if and only if the pattern has no closing parenthesis. |
| PatternMeaning.BackReferenceMeans | src/ext/lua/lstrlib.c:242-247 | `%n` is the text of capture n, counted from one: the match goes on behind an equal text, fails otherwise, and is an error for `%0`, missing and open captures. |
| PatternMeaning.DoubledMeans | src/ext/lua/lstrlib.c:414-422 | `(.)%1` matches exactly where a character is followed by itself. |
| PatternMeaning.FindDouble | src/ext/lua/lstrlib.c:629-649 | The search for it gives the first such place, with its capture, and nothing only if there is none. |
| PatternMeaning.FindPrefix | src/ext/lua/lstrlib.c:629-649 | Behind an anchor only the first place counts. |
| PatternMeaning.CharactersMean | src/ext/lua/lstrlib.c:325-338 | Plain characters, the dot and escaped characters. |
| PatternMeaning.ClassesMean | src/ext/lua/lstrlib.c:282-300 | A class letter is the class of the C library, and its capital the complement. |
| PatternMeaning.SetsMean | src/ext/lua/lstrlib.c:302-322 | Ranges with both ends, single characters and complements. |
| PatternMeaning.BracketsMean | src/ext/lua/lstrlib.c:265-276 | A closing bracket that comes first belongs to the set. |
| PatternMeaning.GreedyMeans | src/ext/lua/lstrlib.c:361-373 | `.*x` and `.+x` match up to the last x of the subject, and not at all exactly if there is none. |
| PatternMeaning.LazyMeans | src/ext/lua/lstrlib.c:376-386 | `.-x` matches up to the first x. |
| PatternMeaning.OptionalMeans | src/ext/lua/lstrlib.c:486-503 | `.?x` takes the character if x follows it. |
| PatternMeaning.EndMeans | src/ext/lua/lstrlib.c:442-447 | `$` is the end of the subject at the end of a pattern, and a plain character elsewhere. |
| PatternMeaning.DelimitersMean | src/ext/lua/lstrlib.c:341-358 | `%b()` matches exactly up to where what opens is closed again. |
| PatternMeaning.FrontierMeans | src/ext/lua/lstrlib.c:456-468 | `%f[x]` matches exactly before an x that does not follow another one. |
| PatternMeaning.CapturesMean | src/ext/lua/lstrlib.c:389-411 | Captures have their place and length, position captures their place. |
| PatternMeaning.MalformedMeans | src/ext/lua/lstrlib.c:258-279 | The errors of patterns that are not well formed. |
| LuaSort.LeTransitive | src/ext/lua/ltablib.c:287-299 | The order that a strict weak order function induces is transitive. |
| LuaSort.Sorter.ScanUp | src/ext/lua/ltablib.c:315-321 | Stops at the first element not before the pivot, inside the range, or reports an invalid order function. |
| LuaSort.Sorter.ScanDown | src/ext/lua/ltablib.c:323-328 | The same downwards. |
| LuaSort.Sorter.Partition | src/ext/lua/ltablib.c:310-339 | Never leaves the range and permutes it, whatever the order function answers; with a strict weak order it splits the range around the pivot. |
| LuaSort.Sorter.ChoosePivot | src/ext/lua/ltablib.c:346-351 | The pivot lies in the middle half. |
| LuaSort.Sorter.SortEnds | src/ext/lua/ltablib.c:361-367 | First and last element in order. |
| LuaSort.Sorter.SortMiddle | src/ext/lua/ltablib.c:374-387 | Median of three. |
| LuaSort.Sorter.Divide | src/ext/lua/ltablib.c:390-394 | The pivot ends between the parts. |
| LuaSort.Sorter.Middle | src/ext/lua/ltablib.c:370-373 | The candidate is strictly inside the range. |
| LuaSort.NarrowUp | src/ext/lua/ltablib.c:396-406 | After the lower part is sorted only the upper is left. |
| LuaSort.NarrowDown | src/ext/lua/ltablib.c:396-406 | After the upper part is sorted only the lower is left. |
| LuaSort.Sorter.AuxSort | src/ext/lua/ltablib.c:357-408 | Terminates with logarithmic depth for any order function, permuting the range; with a strict weak order it sorts and never reports an invalid order. |
| LuaSort.Sorter.Sort | src/ext/lua/ltablib.c:411-425 | `table.sort`: a permutation in any case, sorted for a strict weak order, and an error exactly for too large arrays. |
| SortMeaning.SortAscending | src/ext/lua/ltablib.c:411-425 | Integers sorted with `<` ascend, are the same elements, and nothing else in the table changes. |
| SortMeaning.SortDescending | src/ext/lua/ltablib.c:411-425 | With `>` they descend. |
| LuaOperators.SubPrint | src/ext/lua/lparser.c:1048-1075 | After a printed expression the parser goes on as if it had just read that expression as an operand. |
| LuaOperators.ParseInvertsPrint | src/ext/lua/lparser.c:1019-1075 | Priorities and associativity: reading an expression printed with parentheses only where needed gives the expression. |
| LuaOperators.ParenthesesAreNeeded | src/ext/lua/lparser.c:1019-1075 | Leaving out such parentheses would be read as something else. |
| LuaOperators.LexState.Subexpr | src/ext/lua/lparser.c:1048-1075 | The method reads what the grammar function says, consumes exactly that, and restores the nesting count. |
| LuaOperators.LexState.Operand | src/ext/lua/lparser.c:871-888 | The same for an operand. |
| OperatorMeaning.TwoOperatorsMean | src/ext/lua/lparser.c:1025-1040 | For any two binary operators, `x a y b z` is grouped by the levels of the reference manual, to the left on the same level, and to the right for concatenation and exponentiation. |
| OperatorMeaning.UnaryMeans | src/ext/lua/lparser.c:1042-1062 | Unary operators bind before every binary operator but exponentiation. |
| OperatorMeaning.TokensMean | src/ext/lua/lparser.c:986-1007 | Minus and tilde are read as unary or binary operators by their place. |
| LuaQuote.AddQuoted | src/ext/lua/lstrlib.c:908-928 | `%q` writes the quoted form, with escapes that depend on the next character. |
| LuaQuote.ReadsBack | src/ext/lua/llex.c:366-426 | Scanning a quoted string gives the string and stops behind the quote. |
| LuaQuote.QuotingRoundTrips | src/ext/lua/lstrlib.c:908-928 | For any C library: every string is read back from its quoted form if and only if the carriage return counts as a control character. |
| LuaQuote.EveryStringIsReadBack | src/lib/libc/ctype.cc:32-117 | With the `iscntrl` of this repository every string is read back, whatever comes behind it, as long as the lines can be counted. |
| LuaQuote.LexState.IncLineNumber | src/ext/lua/llex.c:151-160 | Consumes any of the four line ends and counts one line. |
| LuaQuote.LexState.ReadHexaEsc | src/ext/lua/llex.c:319-324 | Two hexadecimal digits or the right error. |
| LuaQuote.LexState.ReadUtf8Esc | src/ext/lua/llex.c:327-350 | A code point up to 10FFFF in braces, encoded as UTF-8. |
| LuaQuote.LexState.ReadDecEsc | src/ext/lua/llex.c:353-363 | Up to three digits, at most 255. |
| LuaQuote.LexState.ReadEscape | src/ext/lua/llex.c:377-419 | Every escape sequence replaces the backslash by what it means. |
| LuaQuote.LexState.ReadString | src/ext/lua/llex.c:366-426 | The result is the string that the scanner's specification gives, and the stream stands behind it. |
| QuoteMeaning.LettersMean | src/ext/lua/llex.c:381-393 | The control characters and the characters that stand for themselves. |
| QuoteMeaning.HexMeans | src/ext/lua/llex.c:319-324 | Two hexadecimal digits, small or capital, are the byte with that value. |
| QuoteMeaning.DecimalsMean | src/ext/lua/llex.c:353-363 | Up to three decimal digits are the byte with that value, or an error above 255. |
| QuoteMeaning.Utf8Means | src/ext/lua/lobject.c:346-361 | Code points up to 10FFFF are encoded as RFC 3629 says, in one to four bytes. |
| QuoteMeaning.EuroMeans | src/ext/lua/llex.c:327-350 | An example, digit by digit. |
| QuoteMeaning.BreaksMean | src/ext/lua/llex.c:390-391 | A backslash before any line end is one newline. |
| QuoteMeaning.ZapMeans | src/ext/lua/llex.c:395-403 | `\z` skips white space and line ends. |
| QuoteMeaning.QuoteAll | src/ext/lua/lstrlib.c:908-928 | Every kind of escape that `%q` writes; a zero byte before a digit gets three digits. |
| LuaScope.LexState.SearchVar | src/ext/lua/lparser.c:244-251 | The last declaration of the name among the active locals. |
| LuaScope.LexState.SearchUpvalue | src/ext/lua/lparser.c:218-225 | The first upvalue of that name, or none. |
| LuaScope.LexState.MarkUpval | src/ext/lua/lparser.c:258-263 | Marks the block that declares the local. |
| LuaScope.LexState.NewUpvalue | src/ext/lua/lparser.c:228-241 | The new description refers to the variable that is visible in the enclosing function; it fails exactly if the function has 255 upvalues. |
| LuaScope.LexState.SingleVarAux | src/ext/lua/lparser.c:270-292 | Resolves a name to the innermost visible declaration through any number of functions, creating upvalues on the way that all refer to it. It fails exactly if some function on the way needs a new upvalue and has no room (`NoRoom`). |
| LuaScope.LexState.SingleVar | src/ext/lua/lparser.c:295-306 | A name without declaration is a field of the environment, which is resolved in turn; the failing cases are exact. |
| LuaScope.LexState.NewLocalVar | src/ext/lua/lparser.c:175-184 | A new local is not visible yet; it fails exactly if the function has 200 variables. |
| LuaScope.LexState.AdjustLocalVars | src/ext/lua/lparser.c:202-208 | New locals become visible. |
| LuaScope.LexState.EnterBlock | src/ext/lua/lparser.c:439-448 | A block begins at the present number of locals. |
| LuaScope.LexState.LeaveBlock | src/ext/lua/lparser.c:473-496 | The locals of the block go out of sight, and upvalues are to be closed exactly if one of them has been captured. |
| LuaScope.LexState.OpenFunc | src/ext/lua/lparser.c:529-549 | A new function sees nothing of its own. |
| LuaScope.LexState.CloseFunc | src/ext/lua/lparser.c:552-573 | Gives its upvalue descriptions and leaves the others as they were. |
| LuaScope.LexState.constructor | src/ext/lua/lparser.c:1612-1623 | The main function has `_ENV` as its upvalue. |
| ScopeMeaning.UpvaluesMean | src/ext/lua/lparser.c:228-241 | What the descriptions of upvalues say: a register of the enclosing function, or one of its upvalues. |
| ScopeMeaning.Shadowed | src/ext/lua/lparser.c:270-306 | A reference to a shadowing local through two functions leads to the register of that local by way of the function between; its block has to close it; behind the block the name is the first local again, and an unknown name is global. |
| LuaOpen.Thread.Declare | src/ext/lua/lvm.c:803-811 | A variable in a slot without open upvalue is a new cell. |
| LuaOpen.Thread.GetLocal | src/ext/lua/lvm.c:803-806 | A slot reads the cell of its variable. |
| LuaOpen.Thread.SetLocal | src/ext/lua/lvm.c:803-806 | A store into a slot is a store into the cell. |
| LuaOpen.Thread.GetUpvalue | src/ext/lua/lvm.c:831-835 | An upvalue reads its cell, whether open or closed. |
| LuaOpen.Thread.SetUpvalue | src/ext/lua/lvm.c:855-860 | A store through an upvalue is a store into its cell, seen by the local and by all closures. |
| LuaOpen.Insert | src/ext/lua/lfunc.c:57-80 | Inserting into the list sorted by level keeps it sorted, complete and consistent with the cells. |
| LuaOpen.ClosedOne | src/ext/lua/lfunc.c:83-96 | Closing the first upvalue of the list keeps its cell. |
| LuaOpen.CloseEnds | src/ext/lua/lfunc.c:83-96 | When the loop ends exactly the slots below the level are left. |
| LuaOpen.Thread.FindUpval | src/ext/lua/lfunc.c:57-80 | The upvalue of a slot is the cell of its variable, shared if it exists already and new otherwise. |
| LuaOpen.Thread.Retain | src/ext/lua/lvm.c:641-648 | One more reference. |
| LuaOpen.Thread.Release | src/ext/lua/lgc.c:678-683 | A closed upvalue without references is freed; an open one waits. |
| LuaOpen.Thread.Close | src/ext/lua/lfunc.c:83-96 | Upvalues of the closed slots keep their cells and values, or are freed if nothing refers to them. |
| ChunkFormat.FunctionBack | src/ext/lua/lundump.c:202-216 | Loading a dumped function gives what `Loaded` says and stops right behind it, whatever comes next. |
| ChunkFormat.FunctionShort | src/ext/lua/lundump.c:202-216 | Every proper beginning of a dumped function is refused as truncated, wherever it ends. |
| ChunkFormat.HeaderDecides | src/ext/lua/lundump.c:236-252 | A header is accepted by exactly the machines with the same sizes, byte order and number format; otherwise the error is a mismatch. |
| ChunkFormat.OrderShows | src/ext/lua/lundump.c:248-249 | The number 0x5678 never reads as itself in the other byte order. |
| ChunkFormat.ChunkBack | src/ext/lua/lundump.c:258-278 | The same for a whole chunk, with the number of upvalues. |
| ChunkFormat.ChunkShort | src/ext/lua/lundump.c:51-54 | Every proper beginning of a dumped chunk, behind the byte that has been read to recognise it, is refused as truncated: never loaded and never taken for another error. |
| ChunkFormat.LoadedExactly | src/ext/lua/ldump.c:166-181 | Without stripping the loaded function equals the dumped one, strings by contents, if and only if no nested function lacks a source that the function around it has. |
| ChunkFormat.LoadedStripped | src/ext/lua/ldump.c:147-163 | With stripping it is the function without source, lines and names. |
| ChunkMeaning.IntsMean | src/ext/lua/ldump.c:58-60 | Counts and lines are four bytes in the order of the machine. |
| ChunkMeaning.IntegersMean | src/ext/lua/ldump.c:68-70 | Integers are eight bytes in two's complement. |
| ChunkMeaning.StringsMean | src/ext/lua/ldump.c:73-87 | The length and one, in a byte or behind 255 in eight, and the contents. |
| ChunkMeaning.ConstantsMean | src/ext/lua/ldump.c:98-125 | Every constant with the byte of its type. |
| ChunkMeaning.HeaderMeans | src/ext/lua/ldump.c:184-197 | The 33 bytes of the header on a machine with 64 bits and the low byte first. |
| ChunkMeaning.FunctionMeans | src/ext/lua/ldump.c:166-181 | All bytes of the function of an empty chunk, field by field. |
| ChunkMeaning.FileMeans | src/ext/lua/ldump.c:203-214 | Header, number of upvalues, function. |
| ChunkMeaning.StripMeans | src/ext/lua/ldump.c:147-163 | What is left of debug information when it is stripped, and when the source is that of the enclosing function. |
| LuaChunk.Zio.Fill | src/ext/lua/lzio.c:23-35 | The next piece of the reader, or the end. |
| LuaChunk.Zio.GetC | src/ext/lua/lzio.h:20-20 | The next byte of the stream. |
| LuaChunk.Zio.Read | src/ext/lua/lzio.c:48-67 | Exactly the next bytes of the stream, however the reader splits it, and the number of missing ones. |
| LuaChunk.DumpState.DumpBlock | src/ext/lua/ldump.c:40-46 | A writer that has failed is not called again, and empty blocks are not written. |
| LuaChunk.DumpState.DumpString | src/ext/lua/ldump.c:73-87 | Length plus one in one byte or behind 255, or zero for no string. |
| LuaChunk.DumpState.DumpConstants | src/ext/lua/ldump.c:98-125 | Every constant with its tag. |
| LuaChunk.DumpState.DumpUpvalues | src/ext/lua/ldump.c:137-144 | Upvalue descriptions without names. |
| LuaChunk.DumpState.DumpDebug | src/ext/lua/ldump.c:147-163 | Lines, locals and upvalue names, or three empty lists. |
| LuaChunk.DumpState.DumpFunction | src/ext/lua/ldump.c:166-181 | The writer has got the dumped form of the function, or a beginning of it if it has failed. |
| LuaChunk.DumpState.DumpProtos | src/ext/lua/ldump.c:128-134 | The nested functions, with this function's source as the one to leave out. |
| LuaChunk.DumpState.DumpHeader | src/ext/lua/ldump.c:184-196 | The header of the machine. |
| LuaChunk.DumpState.Dump | src/ext/lua/ldump.c:202-214 | The whole chunk, or a beginning of it. |
| LuaChunk.LoadState.LoadBlock | src/ext/lua/lundump.c:51-54 | The next bytes, or the error that the chunk is truncated. |
| LuaChunk.LoadState.LoadString | src/ext/lua/lundump.c:88-104 | A string, or none. |
| LuaChunk.LoadState.LoadConstants | src/ext/lua/lundump.c:118-149 | A list of constants. |
| LuaChunk.LoadState.LoadUpvalues | src/ext/lua/lundump.c:166-177 | A list of upvalue descriptions. |
| LuaChunk.LoadState.LoadDebug | src/ext/lua/lundump.c:180-199 | Lines, locals and upvalue names. |
| LuaChunk.LoadState.LoadFunction | src/ext/lua/lundump.c:202-216 | Result, error and remaining stream are those of the format, for any input. |
| LuaChunk.LoadState.LoadProtos | src/ext/lua/lundump.c:152-163 | The nested functions; recursion ends because every function takes at least one byte. |
| LuaChunk.LoadState.CheckHeader | src/ext/lua/lundump.c:236-252 | Accepts exactly what the format asks for. |
| LuaChunk.LoadState.Undump | src/ext/lua/lundump.c:258-278 | A whole chunk. |
| LuaChunk.DumpAndLoad | src/ext/lua/ldo.c:767-781 | Dumping and loading again, through a writer that may fail and a reader that may split the bytes anywhere, gives the round trip and takes exactly the dumped bytes; on another machine it is refused; where the writer has failed half-way and nothing follows, the chunk is refused as truncated. |

## Findings

Two properties that the code is meant to have are false of it. Each is stated with its exact condition.

1. **A metatable can be freed while it is in use.** A table with weak keys and values that is traversed while the
   collector propagates is linked to `allweak` and left gray (`lgc.c:451-471`). It is not traversed again in that
   cycle. `lua_setmetatable` uses the forward barrier (`lapi.c:860-864`), which acts only on black
   objects, so a white metatable given to such a table is not marked, and the sweep frees it.
   `Collector.SetMetatable` proves that the invariant is kept if and only if it is not the case that the collector
   is marking, the table is in `allweak` and the metatable is white (`Loses`); `LoseMetatable` is a run that gets
   there from a new state; `FlipLost` shows that nothing later repairs it. `Collector.Run` is about all runs up to
   such a store.
2. **Plain search is not always equivalent to matching.** `string.find` searches plainly when the pattern has none
   of the characters in `SPECIALS` (`lstrlib.c:580-588`). A closing parenthesis is not among them, although the
   matcher treats it as the end of a capture and raises an error. `PlainSearchAgrees`: the two agree on all
   subjects if and only if the pattern has no closing parenthesis.

An assertion of the source does not always hold, which does no harm. `atomic` asserts that the lists `weak` and
`ephemeron` are empty (`lgc.c:987`), but the step before it propagates what barriers have made gray since propagation
ended (`lgc.c:1062-1065`), and links weak tables then. `WeakBeforeAtomic` is a run that gets there: a table with weak
values is stored in a closed upvalue. `ListsAtAtomic` is about all states: the assertion holds if no table that the step
visits was risky (`Risky`: an array part or an unmarked value with weak values, an unmarked value under an unmarked key
in an ephemeron table), so also if nothing was gray; it fails if such a table is risky still after the step. Between
the two lie the states in which the step itself marks what such a table holds weakly; there the order of the gray list
decides, which this model leaves open. `Collector.Atomic` does not need the assertion.

The quoted form of `%q` is right for the C library of this repository (`EveryStringIsReadBack`). With another one it
is if and only if the carriage return counts as a control character there (`QuotingRoundTrips`).

A binary chunk gives back the dumped function, except that a nested function without a source gets that of the
function around it. `LoadedExactly` says exactly when that makes no difference.

## Left out

Chinese chess:

- The numbers of the table `position_value` are a parameter of the engine.
- XqEngine.Engine.PlayBest: claims that the move is a best one only where scores stay inside the window of the search
  (`Bounded`), because `m_value_of_board` is never initialised in the source and its start value is a parameter here.
- Scores and history counts are unbounded integers.
- `min_max`, `nega_max`, `comput_eat_first`, `is_siqi`, the hash table and everything about the window are not part
  of this model.
- The step generators of the general, the advisor, the elephant and the horse are one method with a table of steps.

Tables:

- Memory errors, dead keys, `luaH_getn` and the cache of absent metamethods are not part of this model.
- LuaTable.Table.Resize: asks for a hash part that is large enough for what has to go there, because every call from
  outside grows both parts and `rehash` counts what it needs.

Collector:

- Finalizers and userdata with `__gc` are left out, so the lists `finobj` and `tobefnz` are empty.
- Gray lists are sets: every result is for any order of traversal. The amount of work in a step, the pace of the
  collector, the limit `GCSWEEPMAX` and the shrinking of stacks and buffers are not modelled.
- Reference counts of upvalues are in `LuaOpen`, and not in the collector's model.
- The mode of a table is given with its metatable; in the source it is read from the field `__mode` when the table
  is traversed.
- `luaC_fix` and objects under construction are not part of this model.
- LuaGc.Collector.Run: ends before a store that loses a metatable, because the property is false behind it.

Code generator:

- Arithmetic, concatenation, indexing, calls, constant folding of numbers, upvalue stores, several targets or values
  in one statement and control statements are left out.
- LuaCode.FuncState.Block: promises nothing about what is left of code that is given up as too complex, and bounds the
  length of the code from above only.
- Line information, `LOADKX` and the limits of instruction fields other than jumps are left out.
- The search for a constant goes through the list; the scanner's table that the source uses is not modelled.

Matcher, sort, operators, quoting:

- `gmatch`, `gsub`, `push_captures` and the limit of string lengths are left out.
- LuaSort.Sorter.Sort: does not model an order function that raises an error or changes the array that is being sorted.
- LuaMatch.MatchState.Match: says nothing of captures when the budget for nested calls is used up, as the search ends with
  an error then.
- Primary expressions other than names and parenthesised expressions are left out of the operator grammar.
- Integers and floats of `%q` are left out.

Variables, upvalues and chunks:

- `goto` and `break` out of a block, and the code that closes upvalues, are left out of the model of scopes.
- Coroutines and several threads are in the collector's model only.
- After `zgetc` has met the end of the stream its count has wrapped around; nothing reads on then, and the model does
  not say what it would read.
- LuaChunk.LoadState.LoadFunction: gives the result `Untrusted` for input that no dump contains and on which the loader
  would use memory that is not its own. Memory errors for large counts are left out.
