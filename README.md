# A verified model of the Go-training app's core logic

This Dafny project models the sequential, UI-independent logic of a Go
training web application: its capture engine, its SGF reader, the three
training stores that walk a parsed game tree against the user's moves, the
engine game's coordinate codec and response handling, the problem-list
bucketing and locking, and the practice-session analytics.  Every operation
is written in the form the source gives it (loops stay loops with
invariants, objects whose fields change become classes), and the properties
the source promises are proved about it.

| file | module | models |
|---|---|---|
| wrappers.dfy | Wrappers | `null` / `undefined` results as `Option` |
| js_text.dfy | JsText | the JavaScript string operations relied on: `indexOf`, `includes`, `split`, `parseInt`, decimal rendering |
| records.dfy | Records | a JavaScript object used as a record: keys in insertion order, assignment overwrites or appends |
| grid.dfy | Grid | the 19x19 grid, orthogonal neighbours, groups and liberties shared by both capture engines |
| go_logic.dfy | GoLogic | `resolveBoardState` and its flood fills (src/utils/goLogic.ts) |
| sgf_replay.dfy | SgfReplay | the stand-alone replay script parse_sgf_bg.py on a two-dimensional array |
| sgf_parser.dfy | SgfParser | `parseSGF` (src/utils/sgfParser.ts) as a class over an arena of nodes |
| sgf_roundtrip.dfy | SgfRoundTrip | the SGF FF[4] game trees the parser is meant for, and the proof that it reads their text back |
| joseki_loader.dfy | JosekiLoader | `parseSGFCoords`, `convertSGFToJosekiTree` and the cache of `loadJosekiFile` |
| game_store.dfy | GameStore | the joseki challenge store (src/store/gameStore.ts) |
| tesuji_store.dfy | TesujiStore | the tesuji problem store (src/store/tesujiStore.ts) |
| joseki_store.dfy | JosekiStore | the joseki practice store (src/store/josekiStore.ts) |
| ai_mode.dfy | AiMode | the engine game component (src/components/AIMode.tsx) |
| problem_list.dfy | ProblemList | bucketing, locking and the mistake view of src/components/ProblemList.tsx |
| analytics.dfy | Analytics | the session tallies and aggregations of src/services/analyticsService.ts |

Main results:

- **Captures.** `GoLogic.ResolvedCaptureIff`: after a move on the board, all
  stones of an adjacent opponent group disappear exactly when the group has
  no liberty.  `ResolvedKeepsMover` and `MoveNeverRemoved` show that the
  mover's stones always stay, the move included, because the suicide check
  is computed and then ignored.  `ResolvedLength` gives the result's length.
  The replay script's engine (`SgfReplay.RemoveCaptured`) removes exactly
  the dead stones of a colour, judged on the board before any removal.
- **Parsing.** `SgfParser.ParseShape` shows that the nodes are always well
  linked.  `SgfRoundTrip.ParseRoundTrip` shows that any well-formed game
  tree, printed and followed by any text, parses back to the intended
  nodes.  `JosekiLoader.ConvertIdsDistinct` and `ConsecutiveDisjoint` show
  that converted node ids never repeat.
- **Stores.** Each action is a method whose `ensures` gives the whole new
  state.  Its timers are explicit operations: `JosekiStore.Fire`,
  `GameStore.DemoStep` and `GameStore.RefutationStep`.
  `GameStore.RefutationReplay` shows that the replay plays at most five
  stones and then restores the board.
- **Engine game.** `AiMode.GtpRoundTrip` and `AiMode.FromGtpSpec` cover the
  GTP vertex codec.  The lemmas from `FirstRatedUsed` to `MoveIffBare` state
  the response-scanning rules.  `RateStep` states the first-sample baseline.
- **Problem list.** `ProblemList.ExactlyOneBucket`, `FlatOrder`,
  `NestedEntries` and `LockedIff` cover bucketing, ordering and locking.
- **Analytics.** `Analytics.Analytics` keeps the invariant
  |attempted| = |solved| + mistakes.  `AccuracyRounds` pins the rounded
  percentage.  `StatsSpec`, `TalliedTotal` and `ActivitySpec` state the
  group-by sums.

## Model

| member | source | states |
|---|---|---|
| Grid.NeighborsOfOnBoard | src/utils/goLogic.ts:35-42 | from an on-board point, at most four neighbours, and they are exactly the adjacent on-board points |
| Grid.NeighborsOnBoard | src/utils/goLogic.ts:35-42 | no neighbour of an on-board point is off the board, so no off-board point is ever a liberty |
| Grid.NeighborsSymmetric | src/utils/goLogic.ts:35-42 | on the board, q is a neighbour of p exactly when p is a neighbour of q |
| Grid.HasLibertyAdd | src/utils/goLogic.ts:62-79 | a set gains a liberty by adding a point exactly when that point has an empty on-board neighbour |
| Grid.LibertiesNonEmpty | src/utils/goLogic.ts:83-88 | the set of empty neighbours of a group is non-empty iff the group has a liberty |
| Grid.ClosureClosed | src/utils/goLogic.ts:55-81 | the iterated flood-fill step contains its seed and is closed under same-coloured neighbours |
| Grid.ClosureLeast | src/utils/goLogic.ts:55-81 | the flood-fill closure lies inside every closed superset of its seed |
| Grid.GroupExists | src/utils/goLogic.ts:92-114 | every start point has a group: a least closed set containing it |
| Grid.Group | src/utils/goLogic.ts:92-114 | the group of colour c grown from start satisfies the least-closed-set characterisation |
| Grid.IsGroupUnique | src/utils/goLogic.ts:92-114 | the characterisation determines the group uniquely |
| Grid.GroupColour | src/utils/goLogic.ts:64-67 | apart from the start, every member of a group carries the group's colour |
| Grid.GroupHasStart | src/utils/goLogic.ts:47-49 | the start point belongs to its group |
| Grid.GroupClosed | src/utils/goLogic.ts:59-67 | a group contains every same-coloured neighbour of its members |
| Grid.GroupLeast | src/utils/goLogic.ts:59-67 | any closed set holding the start holds the whole group |
| Grid.GroupOnBoard | src/utils/goLogic.ts:35-42 | a group grown from an on-board point stays on the board |
| Grid.GroupOfMember | src/utils/goLogic.ts:119-130 | on the board, growing from any stone of a group gives the same group, so marking a group's stones as checked loses nothing |
| GoLogic.FindIndex | src/utils/goLogic.ts:21 | the index of the first stone on the point, or -1 exactly when no stone is there |
| GoLogic.ScanNeighbours | src/utils/goLogic.ts:59-80 | the loop over one point's neighbours marks and pushes exactly its unvisited same-coloured neighbours and reports whether one of them is empty |
| GoLogic.ScanForLiberty | src/utils/goLogic.ts:163-171 | the loop that breaks at the first empty neighbour: it reports a liberty exactly when the point has one, and otherwise pushes every unvisited same-coloured neighbour |
| GoLogic.FillStep | src/utils/goLogic.ts:55-81 | one pop-and-scan step keeps the flood-fill invariant: popped and stacked points stay inside the group, and every popped point has its neighbours marked |
| GoLogic.FillShrinks | src/utils/goLogic.ts:55-81 | each step visits a new point or shortens the stack, so the fill terminates |
| GoLogic.FillDone | src/utils/goLogic.ts:55-81 | once the stack is empty, the popped points are exactly the group |
| GoLogic.FillFoundLiberty | src/utils/goLogic.ts:68-70 | an empty neighbour found while filling is a liberty of the whole group |
| GoLogic.CheckGroup | src/utils/goLogic.ts:46-89 | checkGroup returns true exactly when the group grown from the start point has an empty on-board neighbour |
| GoLogic.PushStone | src/utils/goLogic.ts:100 | pushing the popped point with the group's colour adds exactly that point and keeps every entry of that colour |
| GoLogic.GroupStep | src/utils/goLogic.ts:98-112 | one round pops a point that was not listed yet, lists it with the group's colour, and keeps the stack free of repeats and of listed points |
| GoLogic.GetGroupStones | src/utils/goLogic.ts:92-114 | getGroupStones lists exactly the points of the group, each point once, each with the colour asked for |
| GoLogic.SelfMapCheckGroup | src/utils/goLogic.ts:156-175 | the suicide test with early exit still returns exactly whether the group of the move has a liberty on the rebuilt map |
| GoLogic.BuildBoard | src/utils/goLogic.ts:28 | the forEach builds the board map in which later stones overwrite earlier ones on the same point |
| GoLogic.CoordsOfAppend | src/utils/goLogic.ts:132 | the points of concatenated stone lists are the union of their points |
| GoLogic.MarkChecked | src/utils/goLogic.ts:129 | every point of the group is added to the checked set |
| GoLogic.MarkGroup | src/utils/goLogic.ts:119-130 | the group of an unchecked on-board opponent stone shares no point with the groups already checked, and marking it keeps the checked set made of whole groups |
| GoLogic.UniqueConcat | src/utils/goLogic.ts:132 | pushing a group with no point in common with the captured list keeps every point listed once |
| GoLogic.CaptureAdjacent | src/utils/goLogic.ts:117-135 | the captured list covers exactly the points of the liberty-less opponent groups reached from unchecked neighbours, and for a move on the board lists each point once, since each group is examined once |
| GoLogic.FilterCaptured | src/utils/goLogic.ts:138-140 | the filter keeps exactly the stones whose point no captured stone occupies, in order |
| GoLogic.ResolveBoardState | src/utils/goLogic.ts:14-191 | resolveBoardState equals the specification: place the move, remove the captured groups; the suicide result is computed and ignored |
| GoLogic.InCoordsOf | src/utils/goLogic.ts:21 | a point is occupied iff some stone of the list stands on it |
| GoLogic.PlacedCases | src/utils/goLogic.ts:20-26 | on an empty point the move is appended; on an occupied one it overwrites the first stone there in place |
| GoLogic.CoordsOfSameAt | src/utils/goLogic.ts:23 | two lists with the same point at every index occupy the same points |
| GoLogic.PlacedUnique | src/utils/goLogic.ts:20-26 | placing a move on a list without shared points keeps that property, contains the move, adds exactly its point, and grows by one only when the point was empty |
| GoLogic.OverwriteUnique | src/utils/goLogic.ts:22-23 | overwriting the stone on the move's point keeps points unique and the set of points unchanged |
| GoLogic.AppendUnique | src/utils/goLogic.ts:24-25 | appending a move on an empty point keeps points unique and adds its point |
| GoLogic.BoardOfKeys | src/utils/goLogic.ts:28 | the map's keys are exactly the occupied points |
| GoLogic.BoardOfUnique | src/utils/goLogic.ts:28 | with unique points, the map gives each stone its own colour |
| GoLogic.CapturedFromSound | src/utils/goLogic.ts:121-135 | every captured point lies in a liberty-less opponent group at one of the neighbours |
| GoLogic.CapturedFromComplete | src/utils/goLogic.ts:119-133 | a liberty-less opponent group at an unchecked on-board neighbour is captured whole, even when another neighbour of the same group evaluated it first |
| GoLogic.CapturedAreOpponent | src/utils/goLogic.ts:123 | captured points hold stones of the opponent colour |
| GoLogic.CaptureDead | src/utils/goLogic.ts:121-133 | for a move on the board, an adjacent opponent group without liberty is captured whole |
| GoLogic.AliveNotCapturedFrom | src/utils/goLogic.ts:121-133 | no point of an opponent group that has a liberty is captured from on-board neighbours |
| GoLogic.CaptureAlive | src/utils/goLogic.ts:121-133 | for a move on the board, no point of an adjacent opponent group with a liberty is captured |
| GoLogic.SurvivorsMembers | src/utils/goLogic.ts:138-140 | a stone survives the filter iff it was in the list and its point was not captured |
| GoLogic.SurvivorsInOrder | src/utils/goLogic.ts:138-140 | the survivors are a subsequence of the placed stones |
| GoLogic.SurvivorsLength | src/utils/goLogic.ts:138-140 | with unique points, the filter removes exactly one stone per captured occupied point |
| GoLogic.SomeStoneKept | src/utils/goLogic.ts:138-140 | a group point that is not captured keeps its stone |
| GoLogic.AllStonesRemoved | src/utils/goLogic.ts:138-140 | every stone on a captured point is removed |
| GoLogic.GroupRemovedIff | src/utils/goLogic.ts:117-140 | the filter removes all stones of an adjacent opponent group iff the group has no liberty |
| GoLogic.ResolvedCaptureIff | src/utils/goLogic.ts:46-89 | for a move on the board, all stones of an adjacent opponent group disappear exactly when the group has no liberty (also lines 117-140) |
| GoLogic.CapturedIsDeadAdjacent | src/utils/goLogic.ts:117-135 | every captured point lies in a liberty-less opponent group next to the move; groups not adjacent to the move are never captured |
| GoLogic.ResolvedRemovesOnlyDeadAdjacent | src/utils/goLogic.ts:117-140 | a stone that disappears was in a liberty-less opponent group next to the move |
| GoLogic.ResolvedKeepsMover | src/utils/goLogic.ts:117-140 | stones of the mover's colour are never removed (also lines 177-190) |
| GoLogic.MoveNeverRemoved | src/utils/goLogic.ts:177-190 | the move itself always survives, even with no liberties, because the suicide outcome is unused |
| GoLogic.ResolvedInOrder | src/utils/goLogic.ts:138-140 | surviving stones keep their relative order |
| GoLogic.ResolvedLength | src/utils/goLogic.ts:20-26 | result length is the input length, plus one when the point was empty, minus the number of captured stones (also lines 138-140) |
| SgfReplay.CellsOnBoard | parse_sgf_bg.py:8 | the 19x19 board's cells are exactly the on-board points |
| SgfReplay.Snapshot | parse_sgf_bg.py:8 | reading the array as a map only yields on-board points |
| SgfReplay.SnapshotAt | parse_sgf_bg.py:8 | a point is in the map iff its cell is occupied, with the cell's colour |
| SgfReplay.LibertiesAdd | parse_sgf_bg.py:26-28 | the liberties of a group grown by one point are the old ones plus that point's empty neighbours |
| SgfReplay.ScanPoint | parse_sgf_bg.py:26-30 | one point's neighbour loop adds exactly its empty neighbours as liberties and pushes exactly its unvisited same-coloured neighbours |
| SgfReplay.ElemsPop | parse_sgf_bg.py:23 | popping the last element removes only that element from the stack's contents |
| SgfReplay.PopVisited | parse_sgf_bg.py:24 | skipping an already visited point keeps the flood-fill invariant |
| SgfReplay.PopNew | parse_sgf_bg.py:25-30 | visiting a new point keeps the invariant and shrinks the part of the group not yet visited |
| SgfReplay.PopDone | parse_sgf_bg.py:22 | once the stack is empty, the visited points are exactly the group |
| SgfReplay.GroupLiberties | parse_sgf_bg.py:16-31 | an empty point gives no group and 0; otherwise the point's connected group and the number of distinct empty points next to it |
| SgfReplay.RemoveDead | parse_sgf_bg.py:33-42 | stones of other colours stay; a stone of colour c stays iff its group has a liberty |
| SgfReplay.DeadGroup | parse_sgf_bg.py:38-40 | every stone of a group without liberties is itself dead, so the whole group may be collected |
| SgfReplay.Extend | parse_sgf_bg.py:40 | extending the list keeps its prefix and adds exactly the group's points |
| SgfReplay.CollectCaptured | parse_sgf_bg.py:34-40 | the row-by-row scan collects exactly the dead stones of colour c, judged on the unchanged board |
| SgfReplay.ClearCells | parse_sgf_bg.py:41-42 | exactly the collected cells become empty, all others keep their value |
| SgfReplay.RemoveCaptured | parse_sgf_bg.py:33-42 | the board after remove_captured is the old board without its dead stones of colour c |
| SgfReplay.RemoveDeadLeavesLiving | parse_sgf_bg.py:33-42 | after removal every remaining stone of colour c belongs to a group with a liberty |
| SgfReplay.FindMoves | parse_sgf_bg.py:5 | every match of the move pattern is a colour B or W and two letters a to s |
| SgfReplay.FindMovesText | parse_sgf_bg.py:5 | the pattern reads back exactly the moves of a record written as move nodes |
| SgfReplay.MoveCoord | parse_sgf_bg.py:46-47 | each letter's offset from a is a column and row on the board |
| SgfReplay.PlayOnResult | parse_sgf_bg.py:48-50 | after a step the opponent has no dead stone left, the new stone stands with the mover's colour, and no stone of the mover was removed |
| SgfReplay.PlaceStone | parse_sgf_bg.py:48 | the move's cell takes the mover's colour and nothing else changes |
| SgfReplay.Replay | parse_sgf_bg.py:45-50 | the board ends as the first 80 moves (or all, if fewer) replayed on the start board, with the opponent's captures after each |
| SgfReplay.Output | parse_sgf_bg.py:53-58 | the output lists every occupied cell exactly once, in row-major order, tagged with its colour |
| SgfReplay.ReplayRecord | parse_sgf_bg.py:4-58 | the listed stones are exactly those of the replayed board, in row-major order |
| SgfParser.SkipWs | src/utils/sgfParser.ts:13-15 | the position never moves backwards, and never past the end of the text |
| SgfParser.SkipWsStops | src/utils/sgfParser.ts:13-15 | exactly the whitespace is passed: it stops at the first non-blank character or at the end |
| SgfParser.KeyEnd | src/utils/sgfParser.ts:19-21 | the key's end lies between its start and the end of the text |
| SgfParser.KeyEndMaximal | src/utils/sgfParser.ts:19-21 | the key is the maximal run of upper-case letters at the position |
| SgfParser.ValueScan | src/utils/sgfParser.ts:30-45 | a value stops at an unescaped closing bracket, or at the end of the text when it is left open |
| SgfParser.ValuesScan | src/utils/sgfParser.ts:28-49 | the value loop stops at the end or at a character that is not an opening bracket; it only adds values, and adds one exactly when an opening bracket is at the start |
| SgfParser.ValuesScanStep | src/utils/sgfParser.ts:28-49 | one value is read, its closing bracket skipped if present, then whitespace, and the loop goes on |
| SgfParser.Property | src/utils/sgfParser.ts:17-55 | parseProperty succeeds iff an upper-case letter is at the position; failure consumes nothing and leaves the table unchanged; on success it stops where the value scan after the key and blanks stops, a key not followed by an opening bracket has no values and leaves the table as it was, and otherwise its values replace the key's entry |
| SgfParser.NodeLoop | src/utils/sgfParser.ts:59-68 | the property loop only moves forward and stays within the text |
| SgfParser.NodeLoopEnd | src/utils/sgfParser.ts:60-63 | after the blanks, a semicolon or bracket ends the node with its properties unchanged |
| SgfParser.NodeLoopNext | src/utils/sgfParser.ts:64-67 | otherwise one property is read, or one character that cannot start a key is skipped, or the loop goes on |
| SgfParser.AddChild | src/utils/sgfParser.ts:85-87 | pushing a child never changes how many nodes there are |
| SgfParser.TreeLoop | src/utils/sgfParser.ts:74-102 | the tree loop only moves forward and only adds nodes |
| SgfParser.TreeLoopNode | src/utils/sgfParser.ts:82-89 | a semicolon makes a node under the current one, which becomes current and first if none was |
| SgfParser.TreeLoopVariation | src/utils/sgfParser.ts:90-93 | an opening bracket reads a whole variation under the current node, which stays current |
| SgfParser.TreeLoopOther | src/utils/sgfParser.ts:94-99 | a closing bracket ends the tree and returns the first node; any other character is skipped |
| SgfParser.Parser.constructor | src/utils/sgfParser.ts:9-11 | the parser starts at position 0 with node counter 0 and no nodes |
| SgfParser.Parser.SkipWhitespace | src/utils/sgfParser.ts:13-15 | the loop moves index to where SkipWs says and changes nothing else |
| SgfParser.Parser.ReadValue | src/utils/sgfParser.ts:29-45 | the loop gathers exactly the value ValueScan describes and stops where it does |
| SgfParser.Parser.ReadKey | src/utils/sgfParser.ts:18-21 | the key read is the text from the old index to the maximal run's end |
| SgfParser.Parser.ReadValues | src/utils/sgfParser.ts:25-49 | the values gathered and the final position are those of ValuesScan |
| SgfParser.Parser.ParseProperty | src/utils/sgfParser.ts:17-55 | the result, position and the node's table follow Property; other nodes are untouched |
| SgfParser.Parser.NodeStep | src/utils/sgfParser.ts:59-68 | one round of the loop changes only node n's table, and stops exactly where NodeLoop stops |
| SgfParser.Parser.ParseNode | src/utils/sgfParser.ts:57-70 | a new node numbered by the counter is appended under the parent, with the properties NodeLoop reads |
| SgfParser.Parser.TreeNode | src/utils/sgfParser.ts:82-89 | the new node is made and pushed onto the current node's children |
| SgfParser.Parser.TreeVariation | src/utils/sgfParser.ts:90-93 | the recursive call builds exactly the nodes TreeLoop gives for the variation |
| SgfParser.Parser.StepNode | src/utils/sgfParser.ts:82-89 | a `;` after blanks makes one node under the current node, notes it as first if none was, makes it current, and agrees with TreeLoop |
| SgfParser.Parser.StepVariation | src/utils/sgfParser.ts:90-93 | a `(` after blanks reads the whole variation under the current node, which stays current, and agrees with TreeLoop |
| SgfParser.Parser.TreeStep | src/utils/sgfParser.ts:78-99 | one round always consumes a character and agrees with TreeLoop |
| SgfParser.Parser.ParseTree | src/utils/sgfParser.ts:74-102 | parseTree builds exactly the nodes of TreeLoop, stops where it stops and returns its first node |
| SgfParser.ParseSgf | src/utils/sgfParser.ts:9-112 | parseSGF's nodes and root are those of the functional parse |
| SgfParser.ExtendsTrans | src/utils/sgfParser.ts:82-93 | adding nodes in two stages adds nodes and changes no earlier parent or table |
| SgfParser.MadeShape | src/utils/sgfParser.ts:85-87 | a made node is appended with the next id, the parent, the properties and no children; earlier nodes keep their links (also line 58) |
| SgfParser.MadeIds | src/utils/sgfParser.ts:58 | node ids stay equal to their creation order |
| SgfParser.MadeParents | src/utils/sgfParser.ts:58 | every node with a parent is listed among that parent's children (also line 86) |
| SgfParser.MadeChildren | src/utils/sgfParser.ts:58 | every child comes after its parent and names it as parent (also line 86) |
| SgfParser.MadeOrder | src/utils/sgfParser.ts:86 | children stay listed in creation order |
| SgfParser.MadeLinked | src/utils/sgfParser.ts:84-87 | making a node under the current node keeps the whole node set well linked |
| SgfParser.TreeLoopLinked | src/utils/sgfParser.ts:74-102 | the tree loop keeps the nodes well linked, only adds nodes, and returns a node that exists |
| SgfParser.TreeLoopLinkedNode | src/utils/sgfParser.ts:82-89 | the node case of the tree loop keeps the nodes well linked |
| SgfParser.TreeLoopLinkedVariation | src/utils/sgfParser.ts:90-93 | the variation case of the tree loop keeps the nodes well linked |
| SgfParser.ParseShape | src/utils/sgfParser.ts:104-111 | nothing is parsed unless the first non-blank character is an opening bracket; the result is well linked and the root has no parent |
| SgfParser.WellLinkedForward | src/utils/sgfParser.ts:84-89 | in well-linked nodes every child comes after its parent, so walking children always moves forward |
| SgfRoundTrip.ValueRound | src/utils/sgfParser.ts:30-45 | an escaped value followed by a closing bracket reads back as the value |
| SgfRoundTrip.ValuesRound | src/utils/sgfParser.ts:28-49 | printed values read back as themselves, in order |
| SgfRoundTrip.KeyRound | src/utils/sgfParser.ts:19-21 | a printed upper-case key ends exactly after its letters |
| SgfRoundTrip.PropRound | src/utils/sgfParser.ts:17-55 | a printed property reads back as its key and values and is stored in the table |
| SgfRoundTrip.PropsAtStart | src/utils/sgfParser.ts:19-23 | a non-empty printed property list starts with an upper-case letter |
| SgfRoundTrip.PropsAtHead | src/utils/sgfParser.ts:19-28 | a printed property list that is not empty starts, with no blank, at its first key's letters, followed by its bracketed values, after which the value scan stops and the rest of the list follows |
| SgfRoundTrip.PropsReads | src/utils/sgfParser.ts:59-68 | a printed property list followed by a node end is read property by property: each property is met with no blank before it, is not a node end, and the property reader stores its values |
| SgfRoundTrip.PropsSteps | src/utils/sgfParser.ts:59-68 | properties read that way take the node loop to the node end, with exactly their values in the table |
| SgfRoundTrip.PropsRound | src/utils/sgfParser.ts:57-70 | a printed property list, followed by a node end, reads back as its table |
| SgfRoundTrip.SeqAtHead | src/utils/sgfParser.ts:82-83 | a printed sequence starts with a semicolon and its first node's properties |
| SgfRoundTrip.SeqReads | src/utils/sgfParser.ts:82-84 | a printed sequence followed by a `;`, `(` or `)` is read node by node, each node's properties ending where the next `;` or a bracket is |
| SgfRoundTrip.SeqStepJoin | src/utils/sgfParser.ts:82-89 | one node step followed by the loop over the rest of the sequence is the loop over the whole sequence |
| SgfRoundTrip.SeqSteps | src/utils/sgfParser.ts:82-89 | a sequence read node by node makes each node under the one before it, the first under the current node, notes the first node made, and leaves the last one current |
| SgfRoundTrip.BuildSeqForm | src/utils/sgfParser.ts:82-93 | the nodes made for a tree are its sequence's chain of nodes, then its variations under the last node of that chain |
| SgfRoundTrip.SeqRound | src/utils/sgfParser.ts:74-102 | a printed sequence with its variations, closed by a bracket, makes exactly the nodes BuildSeq gives and stops just past the bracket |
| SgfRoundTrip.TreeAtParts | src/utils/sgfParser.ts:90-96 | a printed tree is an opening bracket, a sequence, variations and a closing bracket |
| SgfRoundTrip.ForestStart | src/utils/sgfParser.ts:90-96 | printed variations closed by a `)` start with a bracket, so the node before them ends there |
| SgfRoundTrip.ForestAtParts | src/utils/sgfParser.ts:90-96 | the first of printed variations is a `(`, its sequence, its own variations and a `)`, and the other variations follow it |
| SgfRoundTrip.ForestReads | src/utils/sgfParser.ts:90-96 | printed variations are read tree by tree: bracket, sequence node by node, nested variations, bracket |
| SgfRoundTrip.TreeRound | src/utils/sgfParser.ts:74-102 | past the `(` of a tree read that way, the loop makes exactly that tree's nodes under the current node, returns its first node if it has one, and stops just past its `)` |
| SgfRoundTrip.VariationJoin | src/utils/sgfParser.ts:90-93 | at a `(`, the loop reads the inner variation to where it stops and then goes on from there with the same current node and first node |
| SgfRoundTrip.VariationAt | src/utils/sgfParser.ts:90-93 | at an opening bracket the variation is read, then the loop goes on from where it stopped with the same current node |
| SgfRoundTrip.ForestRoundStep | src/utils/sgfParser.ts:90-93 | at a variation's `(` the loop makes that tree's nodes under the current node, which stays current, and goes on just past its `)` |
| SgfRoundTrip.ForestRoundEmpty | src/utils/sgfParser.ts:94-96 | at a `)` the loop stops just past it, with the nodes and the first node unchanged |
| SgfRoundTrip.ForestRoundCons | src/utils/sgfParser.ts:90-96 | variations read one after another and closed by a `)` make each tree's nodes in turn under the current node and stop just past the `)` |
| SgfRoundTrip.ForestRound | src/utils/sgfParser.ts:78-96 | printed variations, closed by a bracket, make exactly the nodes BuildForest gives |
| SgfRoundTrip.ParseTreeRead | src/utils/sgfParser.ts:104-109 | a text whose one tree, read from its start, has nodes parses to that tree's nodes with node 0 as the root |
| SgfRoundTrip.ParseTreeAt | src/utils/sgfParser.ts:104-109 | a text starting with a printed game tree parses to BuildSeq's nodes rooted at node 0 |
| SgfRoundTrip.EscText | src/utils/sgfParser.ts:34-38 | an escaped value's text is recognised as that value |
| SgfRoundTrip.ValuesText | src/utils/sgfParser.ts:28-49 | printed values are recognised value by value |
| SgfRoundTrip.PropsText | src/utils/sgfParser.ts:17-55 | printed properties are recognised property by property |
| SgfRoundTrip.SeqText | src/utils/sgfParser.ts:82-89 | a printed sequence is recognised node by node |
| SgfRoundTrip.TreeText | src/utils/sgfParser.ts:74-102 | a printed tree is recognised as that tree |
| SgfRoundTrip.ForestText | src/utils/sgfParser.ts:90-93 | printed variations are recognised tree by tree |
| SgfRoundTrip.ParseRoundTrip | src/utils/sgfParser.ts:9-112 | any well-formed game tree, printed and followed by any text, parses back to its nodes with node 0 as the root |
| SgfRoundTrip.BuildSeqExtends | src/utils/sgfParser.ts:82-93 | building a sequence only adds nodes |
| SgfRoundTrip.BuildForestExtends | src/utils/sgfParser.ts:90-93 | building variations only adds nodes |
| SgfRoundTrip.BuildSeqChain | src/utils/sgfParser.ts:84-89 | a sequence's nodes are made one after another, each with its table, each under the one before |
| SgfRoundTrip.ParseMainLine | src/utils/sgfParser.ts:74-102 | parsing a printed tree puts the main line first, in order, each node the child of the one before |
| SgfRoundTrip.RootHasChild | src/utils/sgfParser.ts:90-93 | a root followed by variations gets node 1, the first variation's first node, as its first child |
| JosekiLoader.LabelInjective | src/data/joseki_loader.ts:74 | distinct counter values give distinct node-n labels |
| JosekiLoader.AlphabetAt | src/data/joseki_loader.ts:94 | the alphabet has 26 letters, a at place 0 through z at place 25 |
| JosekiLoader.IndexOfLetter | src/data/joseki_loader.ts:96-97 | indexOf finds a lower-case letter at its offset from a |
| JosekiLoader.IndexOfOther | src/data/joseki_loader.ts:96-97 | a text holding a character outside a..z is not found in the alphabet, giving -1 |
| JosekiLoader.LetterIndex | src/data/joseki_loader.ts:96-97 | the lower-cased character's index is its letter position, ignoring case, or -1 |
| JosekiLoader.ParseSgfCoordsSpec | src/data/joseki_loader.ts:92-99 | below two characters both coordinates are -1; otherwise each is the case-insensitive letter position of the first two characters; all lie in -1..25 |
| JosekiLoader.Convert | src/data/joseki_loader.ts:49-90 | converting a node always advances the counter |
| JosekiLoader.ConvertAll | src/data/joseki_loader.ts:85-87 | the mapped children are one per SGF child, and the counter never goes back |
| JosekiLoader.IdRange | src/data/joseki_loader.ts:74 | the labels between two counter values number exactly their difference |
| JosekiLoader.IdRangeAppend | src/data/joseki_loader.ts:74 | adjacent label ranges join into one (also line 86) |
| JosekiLoader.IdRangeAt | src/data/joseki_loader.ts:74 | the i-th label of a range is the label of its start plus i |
| JosekiLoader.ConvertIds | src/data/joseki_loader.ts:85-87 | the ids of a converted tree, in pre-order, are the labels of the counter values it used (also line 74) |
| JosekiLoader.ConvertAllIds | src/data/joseki_loader.ts:85-87 | the ids of converted children, in order, are the labels of the counter values they used |
| JosekiLoader.ConvertIdsDistinct | src/data/joseki_loader.ts:47 | one id per node, the root's first, all distinct (also line 74) |
| JosekiLoader.IdRangeDistinct | src/data/joseki_loader.ts:74 | labels of one range are pairwise distinct |
| JosekiLoader.ConsecutiveDisjoint | src/data/joseki_loader.ts:47 | two trees converted one after the other never share an id, because the counter is module-wide (also line 74) |
| JosekiLoader.ConvertMirrors | src/data/joseki_loader.ts:49-90 | conversion keeps the tree's shape and reads each node's colour, coordinates, comment and tenuki and bad-move flags from its properties |
| JosekiLoader.ConvertAllMirrors | src/data/joseki_loader.ts:85-87 | every converted child mirrors its SGF child |
| JosekiLoader.JosekiLoader.constructor | src/data/joseki_loader.ts:27 | the counter starts at 0 and the cache empty (also line 47) |
| JosekiLoader.JosekiLoader.ConvertSgfToJosekiTree | src/data/joseki_loader.ts:49-90 | the method returns the tree and advances the counter exactly as Convert says, leaving the cache alone |
| JosekiLoader.JosekiLoader.LoadJosekiFile | src/data/joseki_loader.ts:29-45 | a cached tree is returned unchanged; a failed fetch or a text without root gives null with nothing cached; otherwise the converted root is cached and returned |
| JosekiStore.FirstWhere | src/store/josekiStore.ts:41 | find returns the first child from i on that satisfies the test, or none exactly when no child does (also line 55) |
| JosekiStore.StartIndex | src/store/josekiStore.ts:39-45 | below a metadata root the line starts at a child, and there is none exactly when the root has no children |
| JosekiStore.NextIndex | src/store/josekiStore.ts:49-62 | a step exists iff some child is on the board; it takes the first good child, and a bad move only when no child is good and it is the first child on the board |
| JosekiStore.RestSteps | src/store/josekiStore.ts:49-62 | each node of the line after n is the child NextIndex picks from the node before it |
| JosekiStore.RestOnBoard | src/store/josekiStore.ts:49-62 | every node of the line after n is on the board |
| JosekiStore.RestEnd | src/store/josekiStore.ts:49-64 | the line stops at a node none of whose children is on the board |
| JosekiStore.RestShape | src/store/josekiStore.ts:49-64 | each node of the line is the child NextIndex picks from the one before, is on the board, and the last node has no child on the board |
| JosekiStore.BestSequenceShape | src/store/josekiStore.ts:35-66 | the line is empty only below a childless metadata root; it starts at the root or at the first non-bad child of a metadata root; each later node follows NextIndex and the line stops only where no child is on the board |
| JosekiStore.GetBestSequence | src/store/josekiStore.ts:35-66 | the loop builds exactly the best line |
| JosekiStore.MatchAt | src/store/josekiStore.ts:138 | the first child at the clicked point, or none exactly when no child is there |
| JosekiStore.Responses | src/store/josekiStore.ts:176 | the valid responses are exactly the children that are not bad and are not tenuki |
| JosekiStore.FloorIndex | src/store/josekiStore.ts:179 | flooring a fraction in [0, 1) times the number of valid responses always gives an index below that number |
| JosekiStore.Response | src/store/josekiStore.ts:176-180 | the reply is a child; it is a valid response whenever one exists, and the first child otherwise |
| JosekiStore.JosekiStore.constructor | src/store/josekiStore.ts:68-80 | the initial state, with no pending timer |
| JosekiStore.JosekiStore.RunDemo | src/store/josekiStore.ts:276-308 | without a tree nothing happens; otherwise one interval over the best line is scheduled and the state is unchanged |
| JosekiStore.JosekiStore.Reset | src/store/josekiStore.ts:226-235 | the board is cleared in Demo Mode and the demonstration is scheduled again |
| JosekiStore.JosekiStore.SelectType | src/store/josekiStore.ts:82-97 | the loaded tree becomes root and current node, the board is cleared, the phase is DEMO and the demonstration is scheduled |
| JosekiStore.JosekiStore.StartPractice | src/store/josekiStore.ts:99-130 | without a tree nothing happens; otherwise White practice starts from the root and Black's first move of the best line is scheduled |
| JosekiStore.JosekiStore.NextProblem | src/store/josekiStore.ts:219-224 | it does exactly what startPractice does |
| JosekiStore.JosekiStore.PlayMove | src/store/josekiStore.ts:132-217 | outside practice nothing changes; a miss or a bad move changes only the message; a correct move is played in the phase's colour and schedules success at a leaf or tenuki, otherwise the reply |
| JosekiStore.JosekiStore.HandlePhaseSuccess | src/store/josekiStore.ts:238-248 | White's phase goes to TRANSITION and schedules Black's; Black's phase completes; otherwise nothing changes |
| JosekiStore.BlackPhaseState | src/store/josekiStore.ts:250-274 | without a root child nothing changes; otherwise the phase is PRACTICE_BLACK, the board holds exactly the first Black move and, if present, its first White answer, the last of them is current node and last move, Black's prompt shows and isCorrect is cleared |
| JosekiStore.JosekiStore.StartBlackPhase | src/store/josekiStore.ts:250-274 | the store's state becomes BlackPhaseState of the old state, and the timers are untouched |
| JosekiStore.JosekiStore.Fire | src/store/josekiStore.ts:167-207 | running a pending timer does what its closure does, the Black-phase timeout leaving exactly BlackPhaseState of the old state; the demo interval stops outside DEMO, plays the next node in its colour, or stops with the finished message (also lines 121-128, 242-244, 285-307) |
| TesujiStore.DecodeCoord | src/store/tesujiStore.ts:33-39 | a decoded point always lies on the 19x19 board |
| TesujiStore.Encode | src/store/tesujiStore.ts:104 | the two letters built from a board point are the key playMove compares against |
| TesujiStore.DecodeEncode | src/store/tesujiStore.ts:33-39 | decoding the letters of a point gives the point back, and whatever decodes has those letters first (also line 104) |
| TesujiStore.IsCoordIff | src/store/tesujiStore.ts:104 | on the board, a move value matches the click iff it is the point's two letters (also line 111) |
| TesujiStore.DecodeRejects | src/store/tesujiStore.ts:34-37 | decoding fails exactly for strings shorter than two characters or with a letter past s |
| TesujiStore.Decoded | src/store/tesujiStore.ts:46-49 | at most one stone per value |
| TesujiStore.DecodedSpec | src/store/tesujiStore.ts:46-49 | each stone has the property's colour and a board point taken from some value, and every value that decodes gives a stone |
| TesujiStore.SetupBlackFirst | src/store/tesujiStore.ts:42-59 | setup stones lie on the board, are black or white, and list all AB stones before all AW stones |
| TesujiStore.PushDecoded | src/store/tesujiStore.ts:46-49 | the forEach appends exactly the stones of the values that decode (also lines 53-56) |
| TesujiStore.GetSetupStones | src/store/tesujiStore.ts:42-59 | the method returns the setup stones of the node |
| TesujiStore.FindMove | src/store/tesujiStore.ts:110-112 | the first child with the side to move's move at the point, or none exactly when no child has it |
| TesujiStore.Verdict | src/store/tesujiStore.ts:140-146 | a leaf is judged wrong exactly when its comment contains 失败 or Wrong, and correct otherwise |
| TesujiStore.OutcomeOf | src/store/tesujiStore.ts:100-163 | an advance goes to a matching child of the current node, a leaf exactly when it has no children; a miss means no child matches; otherwise the click is ignored |
| TesujiStore.TesujiStore.constructor | src/store/tesujiStore.ts:62-69 | the initial state: no problem, Black to play |
| TesujiStore.TesujiStore.LoadProblem | src/store/tesujiStore.ts:71-97 | a text without tree changes only the message; otherwise the setup stones form the board, the root is current, play starts and the side to move follows PL |
| TesujiStore.TesujiStore.PlayMove | src/store/tesujiStore.ts:99-164 | an ignored click changes nothing; a miss sets wrong; an advance adds one stone, moves to the child, passes the turn, and at a leaf sets the verdict |
| TesujiStore.TesujiStore.Retry | src/store/tesujiStore.ts:166-175 | the root and the setup stones come back, play resumes, and Black is to move whatever PL said |
| GameStore.DecodeEncode | src/store/gameStore.ts:35-49 | decodeCoord reads back the pair of any two encoded characters |
| GameStore.DecodeCoordDomain | src/store/gameStore.ts:42-48 | decodeCoord succeeds exactly on strings of two or more characters, and only the first two count |
| GameStore.DecodeOffBoard | src/store/gameStore.ts:42-46 | with no range check, zz decodes to (25, 25), off the board |
| GameStore.MoveRules | src/store/gameStore.ts:51-70 | a B value wins over W; the move is the decoded first value with colour 1 or -1, and none when that value does not decode or no move property is present |
| GameStore.Decoded | src/store/gameStore.ts:80-85 | at most one stone per value |
| GameStore.DecodedSpec | src/store/gameStore.ts:80-85 | each stone has the colour and comes from a decodable value, and every decodable value gives its stone |
| GameStore.DecodedColour | src/store/gameStore.ts:83 | every stone has the property's colour |
| GameStore.SetupWhiteFirst | src/store/gameStore.ts:88-91 | every AW stone comes before every AB stone |
| GameStore.ProcessProps | src/store/gameStore.ts:78-86 | the forEach appends exactly the decoded stones |
| GameStore.GetSetupStones | src/store/gameStore.ts:73-94 | the method returns the setup stones of the root |
| GameStore.FirstMatchFrom | src/store/gameStore.ts:284-294 | the first child whose move is the click in the user's colour, or none exactly when no child matches |
| GameStore.FindMatch | src/store/gameStore.ts:284-294 | the loop with break finds that first match |
| GameStore.FullChain | src/store/gameStore.ts:326-329 | the chain only moves forward in the tree and is empty exactly at a leaf |
| GameStore.DemoChain | src/store/gameStore.ts:377-382 | the demonstration chain has at most limit nodes, all below the start |
| GameStore.FullChainLinks | src/store/gameStore.ts:326-329 | the chain starts at the first child, each node is its predecessor's first child, and it ends at a leaf |
| GameStore.DemoChainPrefix | src/store/gameStore.ts:377-382 | the demonstration plays the main line cut after limit moves |
| GameStore.WalkMainLine | src/store/gameStore.ts:372-382 | the loop collects exactly the demonstration chain |
| GameStore.WalkVariation | src/store/gameStore.ts:324-329 | the loop collects exactly the full first-child chain |
| GameStore.MovesOf | src/store/gameStore.ts:356 | one possible move per chain node |
| GameStore.Present | src/store/gameStore.ts:357-362 | no more stones than moves |
| GameStore.PresentStep | src/store/gameStore.ts:355-363 | playing one step and then the rest is the same as playing from that step |
| GameStore.RunFrom | src/store/gameStore.ts:342-364 | firing the interval from any step plays the remaining present moves and reaches the restore |
| GameStore.RefutationReplay | src/store/gameStore.ts:338-364 | left alone, the replay plays the present moves among the first five, at most five stones, and then restores the saved board |
| GameStore.Pool | src/store/gameStore.ts:113-115 | the pool only holds library patterns |
| GameStore.Others | src/store/gameStore.ts:113 | the candidates are library patterns other than the current one |
| GameStore.PoolAvoidsCurrent | src/store/gameStore.ts:111-118 | while the library holds another pattern, the pick never repeats the current one |
| GameStore.OthersNonEmpty | src/store/gameStore.ts:113-115 | a library with another pattern gives a non-empty candidate list |
| GameStore.GameStore.constructor | src/store/gameStore.ts:100-108 | the initial state: 100 chips, WELCOME, no timer running |
| GameStore.GameStore.DeductChips | src/store/gameStore.ts:425 | chips drop by the amount but never below zero; nothing else changes |
| GameStore.GameStore.RunDemo | src/store/gameStore.ts:367-423 | without a node nothing happens; without moves only the error message is set; otherwise the moves are collected and the interval started |
| GameStore.GameStore.DemoStep | src/store/gameStore.ts:393-422 | the interval stops outside STUDY or at the end with the finished message, and otherwise plays the step's move unless its point is taken |
| GameStore.GameStore.BeginStudy | src/store/gameStore.ts:160-177 | the root, setup board, STUDY and pattern are set, then the demonstration starts (also lines 135-145) |
| GameStore.GameStore.LoadSgf | src/store/gameStore.ts:152-181 | a text with no game tree changes nothing; otherwise a custom pattern is studied |
| GameStore.GameStore.LoadRandomJoseki | src/store/gameStore.ts:110-150 | the chosen pattern from the pool is studied, or a parse error message is set |
| GameStore.GameStore.StartChallenge | src/store/gameStore.ts:183-203 | with a pattern, play restarts at the re-parsed root from the setup stones in the chosen colour |
| GameStore.GameStore.CheckAiTurn | src/store/gameStore.ts:205-270 | at a leaf the line is finished; an opponent move on the first child is played; the user's own move waits; anything else ends the line without the reward |
| GameStore.GameStore.TriggerRefutation | src/store/gameStore.ts:321-365 | REFUTATION with the variation's comment; one new timer is added after those still pending, which are kept: for an empty chain the retry prompt, otherwise a replay from step 0 that saves the board without its last stone |
| GameStore.GameStore.RefutationStep | src/store/gameStore.ts:332-364 | pending timer k plays its replay's next step, restores that replay's saved board, or brings back PLAYING with the retry message; a finished timer is removed, and the other timers are unchanged |
| GameStore.GameStore.PlayMove | src/store/gameStore.ts:272-319 | only while PLAYING; the main-line match advances with praise; another match advances, costs 20 chips and starts the refutation; a miss costs 20 chips and flashes |
| GameStore.GameStore.ClearFlash | src/store/gameStore.ts:317 | only the flash is cleared |
| GameStore.GameStore.EnterWelcome | src/store/gameStore.ts:426 | WELCOME with an empty board, no node and no setup |
| GameStore.GameStore.SetFeedback | src/store/gameStore.ts:427 | only the message changes |
| GameStore.GameStore.Reset | src/store/gameStore.ts:428 | only the status goes back to WELCOME |
| AiMode.ColLettersAt | src/components/AIMode.tsx:11 | the 19 column letters are A to T without I |
| AiMode.ColumnLetter | src/components/AIMode.tsx:22 | indexOf finds a column letter at its column |
| AiMode.NoColumn | src/components/AIMode.tsx:22 | a text holding a character that is not a column letter is not found, giving -1 |
| AiMode.UpperColumn | src/components/AIMode.tsx:20-22 | indexOf on the upper-cased first character gives the column, ignoring case, or -1 |
| AiMode.FromGtpSpec | src/components/AIMode.tsx:18-26 | empty text, pass and resign give no point; otherwise the first character's column and 19 minus the parsed rest, when both exist |
| AiMode.GtpRoundTrip | src/components/AIMode.tsx:12-26 | every board point survives the round trip through its GTP vertex |
| AiMode.ToGtpOffBoard | src/components/AIMode.tsx:13 | off-board points are sent as pass, which decodes to no point |
| AiMode.FromGtpExamples | src/components/AIMode.tsx:18-26 | I is not a column, and the row is not range-checked |
| AiMode.FromGtpPassAnyCase | src/components/AIMode.tsx:18-26 | pass is recognised in any letter case |
| AiMode.Decodable | src/components/AIMode.tsx:268 | only decodable tokens stay, one point per token at most, with a column on the board (also line 362) |
| AiMode.DecodableAppend | src/components/AIMode.tsx:268 | the filter keeps the order of the tokens (also line 362) |
| AiMode.Coloured | src/components/AIMode.tsx:270-274 | one PV stone per move (also lines 365-369) |
| AiMode.ColouredSpec | src/components/AIMode.tsx:270-274 | stone k is move k with order k + 1, the first has the starting colour and colours alternate (also lines 365-369) |
| AiMode.PvSpec | src/components/AIMode.tsx:362-369 | undecodable tokens are dropped before numbering; the stones are the decodable tokens in order, with alternating colours from the first (also lines 268-274) |
| AiMode.ScanLines | src/components/AIMode.tsx:254-283 | the line loop computes the scan function |
| AiMode.NoRatedScan | src/components/AIMode.tsx:259-263 | with no rated info line there is no win rate and no variation |
| AiMode.RatedKept | src/components/AIMode.tsx:262 | once a win rate is taken, later lines change neither it, the score nor the variation |
| AiMode.RatedScan | src/components/AIMode.tsx:259-264 | any rated line gives a win rate |
| AiMode.FirstRatedUsed | src/components/AIMode.tsx:259-276 | win rate, score and variation all come from the first rated info line |
| AiMode.WinrateIffRated | src/components/AIMode.tsx:259-264 | there is a win rate exactly when some line is rated |
| AiMode.NonPlayStep | src/components/AIMode.tsx:257-281 | a line that is not a play line keeps a move already set |
| AiMode.MoveKept | src/components/AIMode.tsx:257-281 | a move already set is kept by every later line that is not a play line |
| AiMode.ScanPrefix | src/components/AIMode.tsx:256 | the scan of i + 1 lines is the scan of i lines and one more step |
| AiMode.PlayStep | src/components/AIMode.tsx:257-258 | a play line sets the move to its second word |
| AiMode.LastPlayWins | src/components/AIMode.tsx:257-258 | the last play line decides the move when it names one |
| AiMode.NoBareScan | src/components/AIMode.tsx:257-281 | with no play line and no bare vertex line there is no move |
| AiMode.BareStep | src/components/AIMode.tsx:279-281 | a bare vertex line sets a move not yet set |
| AiMode.FirstBareWins | src/components/AIMode.tsx:279-281 | with no play line the move is the first bare vertex line |
| AiMode.MoveIffBare | src/components/AIMode.tsx:279-281 | with no play line there is a move exactly when some line is a bare vertex |
| AiMode.FirstPv | src/components/AIMode.tsx:357-374 | the first info line with a non-empty PV, or none exactly when there is no such line |
| AiMode.EngineMove | src/components/AIMode.tsx:284-307 | resign ends the game for Black and pass only says so, neither places a stone; an occupied vertex is refused with a message and stops the handler; only a vertex on an empty point places a White stone |
| AiMode.RateStep | src/components/AIMode.tsx:310-348 | the sample is appended to the history; the first only sets the baseline; later ones classify the move by the drop in Black's win rate |
| AiMode.StaleOccupiedCheck | src/components/AIMode.tsx:298-306 | with the check reading the mount-time board, an engine move onto an occupied point is not refused: playStone ignores it silently and the win-rate step runs, unlike the intended check (also lines 151-154) |
| AiMode.AiGame.constructor | src/components/AIMode.tsx:49-81 | the initial component state |
| AiMode.AiGame.PlayStone | src/components/AIMode.tsx:184-200 | an occupied point leaves the stones alone; otherwise the move is resolved with captures; the last move is set either way |
| AiMode.AiGame.Opened | src/components/AIMode.tsx:122-137 | the socket is connected with the start message |
| AiMode.AiGame.Closed | src/components/AIMode.tsx:139-149 | the socket is disconnected, thinking stops and the reconnect message shows |
| AiMode.AiGame.HandleUserClick | src/components/AIMode.tsx:202-210 | an empty point is selected unless thinking, disconnected or reviewing |
| AiMode.AiGame.ConfirmMove | src/components/AIMode.tsx:212-238 | the selected point is played as Black, the engine is awaited with the timeout armed, and the selection cleared |
| AiMode.AiGame.CancelMove | src/components/AIMode.tsx:240-242 | only the selection is cleared |
| AiMode.AiGame.ThinkingTimeout | src/components/AIMode.tsx:229-232 | a pending timeout stops thinking with the retry message |
| AiMode.AiGame.UndoLastMove | src/components/AIMode.tsx:83-110 | a White stone on top goes with the stone under it, a Black one alone; one history entry goes; the engine is asked for a hint |
| AiMode.AiGame.HandleGenmove | src/components/AIMode.tsx:246-350 | thinking stops; on success the scan's variation, the engine move (with the corrected occupancy check, which reads the current stones) and the win-rate step are applied |
| AiMode.AiGame.HandleAnalyze | src/components/AIMode.tsx:352-378 | thinking stops; on success the first non-empty PV, coloured from Black, becomes the hint |
| AiMode.AiGame.HandleBackendResponse | src/components/AIMode.tsx:244-379 | the answer is dispatched on its command, with a missing response read as empty text; a genmove answer goes to the corrected handler |
| AiMode.AiGame.ResetGame | src/components/AIMode.tsx:381-398 | the board, history and result are cleared with the new-game message |
| ProblemList.Insert | src/components/ProblemList.tsx:81-88 | inserting one entry adds exactly that entry |
| ProblemList.SortEntries | src/components/ProblemList.tsx:81-88 | sorting is a permutation of the entries (also lines 110, 112-114) |
| ProblemList.InsertSorted | src/components/ProblemList.tsx:81-88 | insertion keeps a sorted list sorted under the category order |
| ProblemList.SortSorted | src/components/ProblemList.tsx:81-88 | the result is sorted by rank, then by the collation key (also lines 110, 112-114) |
| ProblemList.SortKeys | src/components/ProblemList.tsx:81-88 | sorting keeps exactly the same names |
| ProblemList.InsertDistinct | src/components/ProblemList.tsx:81-88 | inserting a new name keeps names distinct |
| ProblemList.SortDistinct | src/components/ProblemList.tsx:81-88 | sorting keeps names distinct |
| ProblemList.Filter | src/components/ProblemList.tsx:65 | the bucket holds exactly the problems whose key is that name (also lines 72, 104) |
| ProblemList.FilterEmpty | src/components/ProblemList.tsx:80 | a bucket is empty exactly when no problem has that key |
| ProblemList.OccursFront | src/components/ProblemList.tsx:61-78 | a problem with another key changes neither whether a key occurs nor its bucket |
| ProblemList.GroupedSpec | src/components/ProblemList.tsx:56-78 | the forEach makes a record with distinct names in which each name holds exactly its problems in order, and names are the initial ones plus those that occur (also lines 98-105) |
| ProblemList.NonEmpty | src/components/ProblemList.tsx:80 | exactly the non-empty buckets are kept |
| ProblemList.NonEmptyDistinct | src/components/ProblemList.tsx:80 | dropping empty buckets keeps names distinct |
| ProblemList.NonEmptyAll | src/components/ProblemList.tsx:80 | a record without empty buckets is left as it is |
| ProblemList.GroupedNonEmpty | src/components/ProblemList.tsx:98-105 | a record built only by pushing has no empty bucket |
| ProblemList.SortedView | src/components/ProblemList.tsx:80-89 | the view's names are distinct and sorted, each bucket holds exactly its problems and is non-empty, and a name appears exactly when a problem has it |
| ProblemList.InitialEmpty | src/components/ProblemList.tsx:58-59 | the four category names and Other start with distinct names and empty buckets |
| ProblemList.Rank | src/components/ProblemList.tsx:82-83 | the rank is a category's position in the map, or 4 for any other name |
| ProblemList.FirstEntry | src/components/ProblemList.tsx:70-76 | the first category with a keyword found in the title or label, or none exactly when no category matches |
| ProblemList.BucketOfSpec | src/components/ProblemList.tsx:61-78 | an explicit category wins; otherwise a problem goes to the first category whose keyword it mentions, and else to Other |
| ProblemList.FlatEntries | src/components/ProblemList.tsx:53-90 | without groups, the flat view has distinct names, each holding exactly its problems, non-empty, and a name appears exactly when some problem goes there |
| ProblemList.ExactlyOneBucket | src/components/ProblemList.tsx:61-78 | every problem appears in exactly one bucket, the one BucketOf names |
| ProblemList.FlatOrder | src/components/ProblemList.tsx:81-88 | the four known categories come first in map order, then all other names in collation order |
| ProblemList.BucketFor | src/components/ProblemList.tsx:63-77 | the loop with break finds the bucket BucketOf names |
| ProblemList.BuildFlat | src/components/ProblemList.tsx:53-90 | the method builds exactly the flat view |
| ProblemList.GroupRecordSpec | src/components/ProblemList.tsx:98-105 | the group record has distinct names; a group exists exactly when a problem has it, and holds exactly its problems grouped by category |
| ProblemList.NestedEntries | src/components/ProblemList.tsx:94-115 | with groups, groups are distinct, present iff used and sorted; each group's categories are distinct, present iff used in the group, hold exactly their problems and are sorted |
| ProblemList.NestedKeys | src/components/ProblemList.tsx:107-114 | the nested view's group names are distinct and exactly the groups that occur |
| ProblemList.SortedGroups | src/components/ProblemList.tsx:112-114 | the groups are sorted by their collation key, with names distinct and exactly those in use |
| ProblemList.GroupRecordKeys | src/components/ProblemList.tsx:98-100 | the record's group names are distinct and exactly those in use |
| ProblemList.NestedGroup | src/components/ProblemList.tsx:107-111 | each group's category list is the sorted grouping of that group's problems |
| ProblemList.BuildNested | src/components/ProblemList.tsx:94-115 | the method builds exactly the nested view |
| ProblemList.ViewChoice | src/components/ProblemList.tsx:50-54 | with groups the flat view is empty and the nested one is not; without groups the nested view is empty (also lines 94-95) |
| ProblemList.FindIndex | src/components/ProblemList.tsx:166 | the first position of the id, or -1 exactly when absent |
| ProblemList.LockedIff | src/components/ProblemList.tsx:164-171 | a problem is locked iff it is unsolved, the mode is ALL, it has a category list, it is not first there, and the problem before it is not completed |
| ProblemList.NeverLocked | src/components/ProblemList.tsx:162-165 | the first problem, a solved problem, and any problem outside ALL mode are never locked |
| ProblemList.Click | src/components/ProblemList.tsx:196-197 | a click selects the problem exactly when it is not locked |
| ProblemList.MistakeProblems | src/components/ProblemList.tsx:149-153 | outside MISTAKES mode the list is empty; in it, exactly the problems whose id is a mistake |
| ProblemList.MistakesInOrder | src/components/ProblemList.tsx:152 | the mistake list keeps the order of the problems |
| Records.IndexOf | src/components/ProblemList.tsx:64 | the position of the first entry with the name, or none exactly when absent (also lines 100, 103) |
| Records.GetMember | src/components/ProblemList.tsx:64-65 | with distinct names, looking up an entry's name gives that entry's value |
| Records.GetSome | src/components/ProblemList.tsx:64-65 | a name that is found is bound to its value |
| Records.PutSpec | src/components/ProblemList.tsx:64-65 | assigning a name keeps names distinct and positions stable, appends a new name, and changes only that name's value |
| Analytics.MulLe | src/services/analyticsService.ts:78 | multiplying by a non-negative factor keeps the order |
| Analytics.AccuracyRounds | src/services/analyticsService.ts:76-78 | the accuracy is the percentage rounded to the nearest integer, halves up; 0..100 when no more are solved than tried; 100 when all are solved, 0 when none (also lines 130-132) |
| Analytics.Analytics.constructor | src/services/analyticsService.ts:10-15 | no session and empty tallies |
| Analytics.Analytics.StartSession | src/services/analyticsService.ts:18-45 | without a user nothing changes; otherwise the tallies reset and the session id is the inserted row's id when it is non-empty, else null |
| Analytics.Analytics.RecordProblemResult | src/services/analyticsService.ts:48-70 | the problem is always tallied, solved or as a mistake; the database is synced exactly when a session id is set |
| Analytics.Analytics.EndSession | src/services/analyticsService.ts:73-96 | without a session nothing happens; otherwise the rounded accuracy is reported, user stats are recomputed, and session and tallies reset |
| Analytics.Sum | src/services/analyticsService.ts:116-128 | one session counted per row |
| Analytics.Having | src/services/analyticsService.ts:123-127 | exactly the rows with the key (also lines 249-253) |
| Analytics.HavingEmpty | src/services/analyticsService.ts:124 | no rows have the key exactly when the key does not occur (also line 250) |
| Analytics.OccursFront | src/services/analyticsService.ts:116-128 | a row with another key changes neither whether a key occurs nor its rows |
| Analytics.TalliedSpec | src/services/analyticsService.ts:247-254 | the tally record has distinct keys, and each present key holds the totals of exactly its rows (also lines 123-127) |
| Analytics.TotalUpdate | src/services/analyticsService.ts:125-127 | replacing one tally changes the grand total by the difference |
| Analytics.TotalPut | src/services/analyticsService.ts:124-127 | assigning a tally changes the grand total by the difference |
| Analytics.TalliedTotal | src/services/analyticsService.ts:116-128 | the per-mode tallies add up to the overall totals |
| Analytics.StatsSpec | src/services/analyticsService.ts:109-132 | sessions count the rows, each mode holds the totals of its rows, the modes add up to the totals, and the overall accuracy is the percentage solved rounded half up (0 when nothing was tried) |
| Analytics.StatsStep | src/services/analyticsService.ts:117-121 | one more row adds its attempted, solved and mistakes to the running totals |
| Analytics.UpdateUserStats | src/services/analyticsService.ts:99-150 | nothing without a user or with no rows; otherwise exactly the aggregate of the rows |
| Analytics.UsersSpec | src/services/analyticsService.ts:257-262 | the active users are exactly the non-empty user ids of the rows |
| Analytics.UserSetsSpec | src/services/analyticsService.ts:257-262 | each day present holds exactly the users of that day's rows |
| Analytics.Entries | src/services/analyticsService.ts:264-268 | one entry per day |
| Analytics.EntriesAt | src/services/analyticsService.ts:264-268 | each entry carries its day's tallies and the size of its user set, or 0 |
| Analytics.ActivitySpec | src/services/analyticsService.ts:247-268 | dates are distinct and exactly those of the rows; each day counts exactly its rows, problems, solved and distinct active users |
| Analytics.EntriesSessions | src/services/analyticsService.ts:264-268 | the entries' sessions add up to the tallies' total |
| Analytics.ActivitySessions | src/services/analyticsService.ts:247-268 | every row is counted in exactly one day |
| Analytics.FetchRecentActivity | src/services/analyticsService.ts:235-273 | the three loops compute exactly the activity of the rows, or none when the query gives nothing |
| JsText.NatStr | src/data/joseki_loader.ts:74 | the decimal text of a number has at least one digit and ends in a digit |
| JsText.NatStrInjective | src/data/joseki_loader.ts:74 | different numbers have different decimal texts |
| JsText.IndexFrom | src/data/joseki_loader.ts:96-97 | indexOf gives -1 or a place where the needle occurs |
| JsText.IndexFromMisses | src/data/joseki_loader.ts:96-97 | -1 means the needle occurs nowhere from the start on |
| JsText.IncludesIff | src/store/tesujiStore.ts:142 | includes is true exactly when the text contains the pattern |
| JsText.Split | src/components/AIMode.tsx:256 | split gives at least one part, two once the separator occurs, and no part holds the separator |
| JsText.SplitJoin | src/components/AIMode.tsx:256 | joining the parts with the separator gives back the text |
| JsText.JoinSplit | src/components/AIMode.tsx:256 | splitting the joined parts gives back the parts |
| JsText.SkipSpace | src/components/AIMode.tsx:23 | parseInt skips exactly the leading white space |
| JsText.DigitEnd | src/components/AIMode.tsx:23 | the digits read are the maximal run of digits |
| JsText.NatStrValue | src/components/AIMode.tsx:16 | the digits of a number read back as that number (also line 23) |
| JsText.ParseIntNatStr | src/components/AIMode.tsx:16 | parseInt of a number's decimal text gives the number (also line 23) |
| JsText.IndexFromFirst | src/data/joseki_loader.ts:96-97 | indexOf gives the first place where the needle occurs |

Several definitions model a source function directly and carry no contract
of their own; the rows of the lemmas and methods named here state what they
mean:

- `AiMode.ToGtp` (src/components/AIMode.tsx:12-16): `GtpRoundTrip`, `ToGtpOffBoard`.
- `AiMode.FromGtp` (src/components/AIMode.tsx:18-26): `FromGtpSpec`, `FromGtpExamples`, `FromGtpPassAnyCase`, `GtpRoundTrip`.
- `AiMode.ScanLine`, `AiMode.ScanAll` (src/components/AIMode.tsx:254-283): `ScanLines`, `NoRatedScan`, `RatedKept`, `RatedScan`, `FirstRatedUsed`, `WinrateIffRated`, `PlayStep`, `LastPlayWins`, `BareStep`, `FirstBareWins`, `MoveIffBare`.
- `AiMode.Played` (src/components/AIMode.tsx:184-200): `AiMode.AiGame.PlayStone`.
- `GameStore.DecodeCoord` (src/store/gameStore.ts:35-49): `DecodeEncode`, `DecodeCoordDomain`, `DecodeOffBoard`.
- `GameStore.GetMoveFromNode` (src/store/gameStore.ts:51-70): `MoveRules`.
- `GameStore.SetupOf` (src/store/gameStore.ts:73-94): `SetupWhiteFirst`, `ProcessProps`, `GetSetupStones`.
- `GameStore.ReplayTick` (src/store/gameStore.ts:342-364): `RunFrom`, `RefutationReplay`, `GameStore.GameStore.RefutationStep`.
- `JosekiLoader.ParseSgfCoords` (src/data/joseki_loader.ts:92-99): `ParseSgfCoordsSpec`.
- `JosekiLoader.MoveOf`, `CommentOf`, `TenukiOf`, `DontOf` (src/data/joseki_loader.ts:49-90): `ConvertMirrors`, `ConvertAllMirrors`.
- `TesujiStore.SetupOf` (src/store/tesujiStore.ts:42-59): `SetupBlackFirst`, `PushDecoded`, `GetSetupStones`.
- `TesujiStore.VerdictText` (src/store/tesujiStore.ts:140-146): `Verdict`, `TesujiStore.TesujiStore.PlayMove`.
- `ProblemList.BucketOf` (src/components/ProblemList.tsx:61-78): `BucketOfSpec`, `ExactlyOneBucket`, `BucketFor`.
- `ProblemList.Locked` (src/components/ProblemList.tsx:164-171): `LockedIff`, `NeverLocked`, `Click`.
- `Analytics.Accuracy` (src/services/analyticsService.ts:76-78): `AccuracyRounds`.
- `Analytics.StatsOf` (src/services/analyticsService.ts:109-132): `StatsSpec`, `UpdateUserStats`.
- `Analytics.Activity` (src/services/analyticsService.ts:247-268): `ActivitySpec`, `ActivitySessions`, `FetchRecentActivity`.
- `SgfParser.Parse` (src/utils/sgfParser.ts:104-111): `ParseShape`, `ParseSgf`, `SgfRoundTrip.ParseRoundTrip`.
- `SgfReplay.PlayOn`, `SgfReplay.ReplayOn` (parse_sgf_bg.py:45-50): `PlayOnResult`, `Replay`.
- `JosekiStore.BestSequence` (src/store/josekiStore.ts:35-66): `BestSequenceShape`, `GetBestSequence`.

## Left out

- Network and storage I/O are outside the model. This covers the Supabase reads and writes, `fetch` in `loadJosekiFile`, the engine socket's `send` and the file read in parse_sgf_bg.py. What a read returns, and whether it succeeded, is a parameter: `userPresent`, `InsertOutcome`, the session rows, the fetched text, and the engine's `success` and response. The values a write would store are returned or left out.
- The replay script's `print` of a JavaScript array literal is not modelled. `SgfReplay.ReplayRecord` returns the placements that would be printed.
- Timers are explicit operations, and delays and concurrency are not modelled. The joseki store keeps each pending closure in `timers`, and `Fire(k)` runs any one of them. In the game store, each firing of an interval is a step method; every wrong move adds its own replay to `refutations`, and `RefutationStep(k)` fires any one of them, so an earlier replay that is still running goes on adding its moves and later restores its own saved board, as in the source. The one-shot timeouts (`checkAiTurn` after 500 ms, `startChallenge(-1)` after 1500 ms, clearing the flash after 1000 ms) are public methods whose scheduling is not recorded.
- The engine socket's reconnect interval, `connectToAI`, the commands sent on open, the difficulty slider and its `kata-set-param` are not modelled. They are transport, not state.
- `parseAIInfo`'s regular expressions and `parseFloat` are a parameter (`info: string -> Info`).
- Win rates and score leads are exact reals, not IEEE doubles. The blunder message's `toFixed` formatting is kept as an uninterpreted pair of numbers.
- Analytics.Accuracy: this is exact integer rounding of 100·correct/total, with halves rounded up. The source's `Math.round((correct / total) * 100)` rounds the double, so it can differ at exact halves: 29 of 200 is 14.499999999999998 as a double and rounds to 14, while the model gives 15.
- `Math.random()` is a parameter. JosekiStore takes it as the fraction num/den with num < den. GameStore takes the index `choice` into the pool.
- GameStore.GameStore.LoadRandomJoseki: this requires `choice` to be below the pool's size. An empty library, where `pool[0]` is undefined and reading its title throws, is therefore not modelled.
- `localeCompare` is an abstract collation key `collate: string -> int`. The base-sensitivity and numeric options of the real collator, and its locale data, are not modelled, and names with equal keys keep their insertion order.
- Object key order is modelled as insertion order. JavaScript lists integer-like keys ("1", "2") first, in numeric order, in `Object.keys` and `Object.entries`; this reordering is not modelled.
- Keys inherited from `Object.prototype` are not modelled. For example, a category named "constructor" reads a truthy function from the record in the source; the model reads it as absent.
- Strings are sequences of Unicode scalar values, not UTF-16 code units. `slice(0, 10)`, `includes`, `charCodeAt` and `toLowerCase` would differ on characters outside the Basic Multilingual Plane.
- React scheduling is simplified: each handler's setters apply in order to the current state. The history refs read the history from before the sample is appended, as the source's effects do.
- AiMode.AiGame.HandleGenmove / HandleBackendResponse: these model the intended occupancy check, which reads the current stones (`EngineMove`). The source's handler, installed at mount, reads the first render's empty board, so it never refuses an engine move onto an occupied point. That as-written behaviour is stated only by `AiMode.StaleOccupiedCheck` (see Findings), not by these methods.
- GoLogic.CaptureAdjacent: "each point listed once" is proved for moves on the board only. Off the board, `getNeighbors`' one-sided bounds make adjacency asymmetric, so two opponent groups grown from off-board points may share points, and the list may then repeat them.
- Rendering is not modelled: the JSX and SVG, the chart, ghost stones, status icons, button classes, accordion state and ProblemList's auto-expand effect (src/components/ProblemList.tsx:118-147).
- The dashboard queries of src/services/analyticsService.ts:152-233 (`fetchAllUsers`, `fetchUserSessions` and the rest) are display aggregation outside the core.
- The date filter and ordering of `fetchRecentActivity`'s query run in the database. The rows arrive as a parameter, in the order returned.
- The `persist` middleware of the game store (chips kept in local storage) is not modelled.
- The tsumego store is not part of this model.
- Console logging is not modelled.

## Findings

| source | as written | input that shows it | evidently intended | confidence | as-written member | corrected member |
|---|---|---|---|---|---|---|
| src/components/AIMode.tsx:298-306 | The socket's message handler is installed once, at mount, and so is the `handleBackendResponse` it closes over. That handler's occupancy check reads the `stones` of the first render, which is an empty board. An engine move onto an occupied point is therefore never refused: `playStone`'s own guard keeps the stones, but the last-move mark moves, no error is shown, and the win-rate step runs. (also lines 151-154) | Black stone at D4 (point (3, 15)), engine answers `play D4` | the check reads the current stones, so the move is refused with "AI走棋错误，请重试" and the handler stops | not executed | AiMode.StaleOccupiedCheck | AiMode.EngineMove |
