# Verified models of the embedded Lua runtime and of the telnet engine

The server embeds a Lua 5.1 runtime (`lib/lua51`) and a telnet protocol engine (`lib/libtelnet`), and brings its own MD5
(`src/common/md5.cc`). This project models the parts of the three that carry the most state, and proves what they are
for. Code that changes things in place is modelled in place: the collector, the table, the code generator's instruction
array, the matcher, the lexer, the chunk reader and writer, the telnet tracker and the MD5 context are classes, and every
method is proved against a function of the old state. What those functions mean is then proved as lemmas.

| component | files | subject |
|---|---|---|
| collector | `gcstate`, `gcmark`, `gcsweep`, `gcmutate`, `gccycle`, `gcbits`, `collector` | the incremental two-white tri-colour collector, interleaved with a program that allocates, stores through barriers, writes its stack, captures and closes upvalues and interns strings |
| tables | `tablehash`, `tablesizes`, `table` | array part plus chained scatter hash with Brent's variation, as a finite map; rehash, the border, traversal |
| boolean code | `boolvm`, `boolcode`, `boolact`, `boolruns`, `boolsound`, `boolright`, `boolexact`, `booltrace` | generation of code for `and`, `or`, `not` and comparisons, what the machine computes with it, and what it evaluates in which order |
| boolean code in place | `boolthreads`, `boolneat`, `boolpatch`, `boolexec` | the same generator on one instruction array with jump lists threaded through the offsets |
| patterns | `pattern`, `matcher`, `patternways`, `patterncaptures`, `patternclasses` | the backtracking matcher, the order of preference it realises, and what captures and classes stand for |
| chunks | `chunk`, `dumper`, `loader`, `chunkloads`, `chunkrefusals`, `chunklayout` | dumping and loading precompiled functions, refusing what is no dump |
| quoting | `quoted`, `literals` | `%q` and the lexer's string literals |
| sorting | `sorting` | `table.sort` on an array |
| telnet | `telnetstream`, `telnet`, `telnetq`, `telnetpeers`, `telnetlink`, `telnetnotices` | the byte-wise state machine, escaping, the option negotiation of section 7 of RFC 1143 between two engines, and what programs are told of it |
| digest | `md5` | buffering and padding of MD5, with the block transformation as a parameter |
| shared | `bytes`, `numbers` | bytes and little-endian numbers; powers of two |

How the pieces of a component hang together:

- Collector. `GcState.Inv` holds before and after every operation. It says where each object is listed, that upvalue lists
  descend and strings are interned once, that no living object refers to a dead one, and, while marking, that no black
  object refers to a white one. Slots hold addresses (positive) or other values (one non-positive number for each).
- Boolean code. `BoolAct.Act` says, on the expression itself, how a run leaves its code and which value a waiting jump
  carries. `BoolSound` proves that the generated code does just that, for every expression; `BoolRight` and `BoolExact`
  say when that is the value of the expression; `BoolTrace` that the code reads globals and compares in the order of
  short-circuit evaluation; `BoolPatch` and `BoolExec` carry it to threaded lists, offsets and the machine's loop.
- Patterns. `Pattern.DoMatch` follows the recursion of the source. `PatternWays` reads a pattern as a list of items and
  says what each may take of the subject, without any search; the two agree on every pattern, errors included.
- Telnet. `TelnetStream.Fold` is the engine byte by byte. `TelnetQ` has one option in one direction, `TelnetPeers` all
  options of two engines, whose moves are steps of those pairs, and `TelnetLink` the same engines fed byte by byte, whose
  runs are runs of `TelnetPeers`. `TelnetNotices` holds what a program is told against the states of its engine.

## Findings

1. **A literal takes over carried values** (`lib/lua51/lcode.cc:547-550`, `lib/lua51/lcode.cc:575-578`). A literal operand
   that decides a jump emits an unconditional one, and `luaK_jump` (`lib/lua51/lcode.cc:59-66`) appends to its list every
   jump that waits for the position. If such a jump carries a value, the value ends up in the register instead of the
   literal: `((g0 or g1) and true) or g2` is `g0` (`BoolExact.LiteralJumpKeepsValue`). For an expression over different
   globals, with literals anywhere, the code is right in all environments if and only if none of the ways a run can take
   through it, which are computed from the expression alone, carries a value past a literal (`BoolExact.CodeExact`). For
   `(y and true) or z`, `(y and false) and z`, `(y or true) or z` and `(y or false) and z`, where the literal's jump is
   always taken, that is whether a jump of `y` that waits there may carry (`BoolExact.LiteralExact`), and the value
   computed is stated for every environment (`BoolRight.DecidedComputes`); the four other shapes are always right
   (`BoolRight.PassedSafe`). For all expressions, comparisons and locals included, the code is right if no literal meets
   a jump that may carry (`BoolRight.SafeRight`), in particular without literals (`BoolRight.ConstantFreeSafe`). Without
   comparisons only the value suffers, never the choice of the operands that are evaluated (`BoolTrace.LiteralsKeepOrder`).
2. **Also across statements.** The jump around the block of `if y then end` waits for the next statement, so that
   `if g0 then end local v = true or z` leaves `v` false or nil when `g0` is (`BoolExact.StatementBeforeGlobal`). For `y`
   over different globals the variable is true in all environments if and only if no run of `y` can bring a value along
   (`BoolExact.StatementExact`); without literals in `y` that is so if and only if no jump of `y` may carry a value and
   `y` does not end with a load (`BoolExact.OnceBrings`). For any next expression `x` over other globals the exact
   condition is `BoolExact.BehindExact`; for all expressions it is enough that no literal of `x` can meet a value that
   waits (`BoolExact.SafeBehind`).
3. **An option asked for again too early is never requested** (`lib/libtelnet/libtelnet.c:340-343`,
   `lib/libtelnet/libtelnet.c:398-401`). In `Q_WANTNO_OP` the answer to the pending disabling moves the engine to
   `Q_WANTYES` without sending anything, where section 7 of RFC 1143 sends the new request. Over all runs of two engines
   an option is held the same way on both sides, once nothing is in flight, if and only if that branch was never taken
   for it (`TelnetPeers.EnginesAgree`), and nothing the programs do later repairs it (`TelnetQ.PartedRun`). Programs
   that never ask again for an option whose disabling is pending are safe (`TelnetPeers.PatientAgree`).
4. **A missing source name does not survive a dump** (`lib/lua51/ldump.cc:131`, `lib/lua51/lundump.cc:167`). A null source
   is loaded as the parent's, or as `=?`; the round trip holds if and only if every function has a source, the nesting
   is within the limit and the code check accepts (`ChunkLoads.RoundTrip`). Functions made by the parser
   (`lib/lua51/lparser.cc:345`) and by the loader itself always have one.
5. **A quoted string with many newlines does not read back** where the lexer's line counter would reach its maximum
   (`lib/lua51/llex.cc:127-135`); it does in all other cases (`Quoted.RoundTrip`).
6. **The end of our own option is told as the end of the other side's** (`lib/libtelnet/libtelnet.c:394-397`). When the
   other side confirms that we drop an option, the event is WONT and not DONT. If it does the option itself, the program
   was then last told that it has stopped (`TelnetNotices.OwnEndMisleads`). Over every run, while the other side does an
   option the last notice about that says so if and only if, since it began, every such confirmation was followed by a
   DONT in `Q_WANTNO_OP`, which is told as WILL (`TelnetNotices.HimNoticesFollow`); about what we do ourselves the last
   notice always says so (`TelnetNotices.UsNoticesFollow`). A WONT in `Q_WANTNO_OP` is told as DO
   (`lib/libtelnet/libtelnet.c:340-343`, `lib/libtelnet/libtelnet.c:398-401`).
7. **The MD5 context is not cleared.** `memset(ctx, 0, sizeof(ctx))` clears 8 bytes, the size of a pointer: two of the four
   words of the digest stay (`Md5.Context.Final`).

## Model

| member | source | states |
|---|---|---|
| GcCollector.Collector.Run | lib/lua51/lgc.cc:556-607 | After any interleaving of program actions and collector steps the invariant holds, and everything reachable from the roots is in the heap and not dead |
| GcCollector.Collector.Perform | lib/lua51/lgc.cc:610-633 | Each action of the program or the collector does to the objects and roots what it is for (a store or a push leaves the value in its slot and all others alone) and keeps the invariant, at any moment of the cycle, provided its arguments are living objects, new addresses are free, and slots with open upvalues are closed before they are cut |
| GcCollector.Collector.SingleStep | lib/lua51/lgc.cc:556-607 | One step in any phase keeps the invariant, keeps every living object's references and every fixed object, and brings the cycle strictly nearer to its end, whatever the phase |
| GcCollector.Collector.FullGc | lib/lua51/lgc.cc:636-659 | From any phase: afterwards exactly the objects that were reachable, or are fixed, are in the heap, with the same references |
| GcCollector.Collector.PropagateMark | lib/lua51/lgc.cc:277-320 | Blackening the first gray object keeps the tri-colour invariant, marks only what is within the limits of the cycle, and whites or the gray list shrink |
| GcCollector.Collector.Atomic | lib/lua51/lgc.cc:525-553 | The uninterrupted end of marking leaves alive only what the limits of the cycle allow, although threads and tables changed under the marking, and turns the whites over |
| GcCollector.Collector.SweepObject | lib/lua51/lgc.cc:407-428 | The sweep passes or frees the object it stands at, with a thread's open upvalues: the living keep their references, no dead one comes alive unless fixed, and fewer are left to sweep |
| GcCollector.Collector.SweepOpen | lib/lua51/lgc.cc:407-416 | Sweeping a thread's open upvalues leaves only upvalues of the current white in its list |
| GcCollector.Collector.BarrierF | lib/lua51/lgc.cc:662-672 | If at most one reference of a black object broke the invariant, the forward barrier restores it, while marking and while sweeping |
| GcCollector.Collector.BarrierBack | lib/lua51/lgc.cc:675-683 | The backward barrier restores the invariant of a black table whatever was stored in it |
| GcCollector.Collector.LinkUpval | lib/lua51/lgc.cc:695-711 | An upvalue that has just closed enters the main list with its colour and its barrier such that the whole invariant holds |
| GcCollector.Collector.FindUpval | lib/lua51/lfunc.cc:53-79 | Yields a living open upvalue for the stack slot; no object but possibly the new one comes or changes, so two closures that capture a slot share it, and a dead one is brought back |
| GcCollector.Collector.CloseUpvals | lib/lua51/lfunc.cc:96-113 | Exactly the open upvalues of the thread at or above the level are closed: each living one keeps the value its slot had, dead ones go, every other object and list is as it was |
| GcCollector.Collector.SetUpval | lib/lua51/lvm.cc:447-452 | Assigns through an open upvalue to the shared stack slot and to a closed one with a barrier; nothing else changes but colours |
| GcCollector.Collector.InternString | lib/lua51/lstring.cc:75-93 | Yields the one living string with these bytes: found, brought back if it was dead, or new; afterwards no other string has them |
| GcCollector.Collector.Resize | lib/lua51/lstring.cc:22-47 | Rehashing the string table loses no string and moves each to its bucket; it is refused while strings are swept |
| GcCollector.Collector.StoreTable | lib/lua51/lgc.h:89-97 | A store into a table at any moment of the cycle, followed by the backward barrier, keeps the invariant; afterwards that slot, possibly one more than there were, holds the value, every other slot what it held, and nothing else has changed but colours |
| GcCollector.Collector.StoreObject | lib/lua51/lgc.h:86-94 | The same for a function, a prototype or a userdata with the forward barrier |
| GcCollector.Collector.WriteStack | lib/lua51/lapi.cc:45-45 | A stack slot written or pushed without a barrier at any moment of the cycle: it holds the value, all others what they held, no other object changes, and the invariant stays |
| GcCollector.Collector.constructor | lib/lua51/lgc.cc:501-512 | The state a program starts in has the invariant |
| GcState.ReachableAlive | lib/lua51/lgc.cc:378-404 | The invariant forbids that an object the program can reach is freed or about to be |
| GcSweep.KeptReachable | lib/lua51/lgc.cc:407-428 | A step of the collector changes nothing about which objects are reachable |
| GcMark.FlipInv | lib/lua51/lgc.cc:545-549 | When nothing is gray any more, turning the whites over makes exactly the marked objects the living ones |
| GcMutate.OneString | lib/lua51/lstring.cc:75-93 | Equal strings are the same object |
| GcBits.TestSpared | lib/lua51/lgc.cc:412-419 | The sweep's exclusive or and mask on the mark byte keep an object exactly if it has not the other white or is fixed |
| GcBits.TestDead | lib/lua51/lgc.h:69-70 | The mask of `isdead` is true exactly for the other white |
| GcBits.Revive | lib/lua51/lgc.h:72-72 | Flipping the white bits of a dead object gives it the current white |
| GcBits.Whiten | lib/lua51/lgc.cc:34-35 | `makewhite` gives the current white, whatever colour there was |
| GcBits.Flip | lib/lua51/lgc.cc:545-545 | The other white of the state's byte, with its fixed bit, is the byte of the turned-over state |
| Tables.Table.Set | lib/lua51/ltable.cc:494-505 | Afterwards the table is the old map with this one key changed or removed; nil and NaN are refused without a change; it can fail only with 2^26 entries |
| Tables.Table.Get | lib/lua51/ltable.cc:469-488 | Yields what the map has for the key, wherever it is stored |
| Tables.Table.GetNum | lib/lua51/ltable.cc:435-449 | The shortcut for integers agrees with the map too |
| Tables.Table.Find | lib/lua51/ltable.cc:476-487 | Following the links from the main position finds a key exactly if it is in the node vector |
| Tables.Table.NewKey | lib/lua51/ltable.cc:399-429 | A new key gets a slot and no other entry is lost or changed, whether it takes a slot over in place, moves the colliding key away, goes to a free slot, or first makes the table grow; after growing it never grows again |
| Tables.Table.MoveAway | lib/lua51/ltable.cc:409-422 | A colliding key out of its main position moves to the free slot, its predecessor is found, and all keys stay reachable |
| Tables.Table.Rehash | lib/lua51/ltable.cc:333-349 | The map is the same, the array part has the best size for the keys with the new one, and there is room for the new key, so that inserting it cannot rehash again |
| Tables.Table.Resize | lib/lua51/ltable.cc:297-324 | Rebuilding both parts with other sizes keeps the map, also when the array part shrinks while it is being emptied |
| Tables.Table.ResizeArray | lib/lua51/ltable.cc:327-330 | Enlarging the array part keeps the map, keys moving over from the node vector |
| TableSizes.ComputeSizes | lib/lua51/ltable.cc:189-208 | From the counts by slices: the largest power of two more than half of which would be in use, and the number of keys that go there |
| TableSizes.NumUseArray | lib/lua51/ltable.cc:222-244 | Counts the indices with a value, each in its slice between powers of two |
| TableSizes.NumUseHash | lib/lua51/ltable.cc:247-260 | Counts the keys with a value, and the candidates for an array part in their slices |
| TableSizes.Best | lib/lua51/ltable.cc:189-208 | Stopping at the half of the total, or when all are counted, loses no larger size |
| TableHash.TakeOver | lib/lua51/ltable.cc:401-402 | A main position without a value is taken over with its links in place, and lookups of all other keys still succeed |
| TableHash.Append | lib/lua51/ltable.cc:423-428 | Linking a free slot behind the main position keeps every key reachable and every chain finite |
| TableHash.Move | lib/lua51/ltable.cc:411-421 | Moving the colliding key keeps every key reachable and every chain finite, with at most one link into a slot |
| Tables.Table.GetN | lib/lua51/ltable.cc:560-579 | The length is a border: 0 or an index with a value, whose successor has none |
| Tables.Table.UnboundSearch | lib/lua51/ltable.cc:532-553 | Doubling and halving find a border, and so does the linear search when the doubling would overflow |
| Tables.Table.FindIndex | lib/lua51/ltable.cc:137-159 | The position of a key, dead keys included, or the error exactly if it has none |
| Tables.Table.Next | lib/lua51/ltable.cc:162-178 | The first entry behind the position of the given key, with its value in the map; none exactly if no entry follows |
| Tables.Table.Traverse | lib/lua51/ltable.cc:162-178 | A traversal during which fields are assigned or cleared and the collector kills keys visits no key twice, only keys that were there, and every key that stays |
| Tables.Table.RemoveEntry | lib/lua51/lgc.cc:62-66 | A key killed by the collector keeps its place, so that a traversal can go on from it |
| BoolSound.CompileMeans | lib/lua51/lcode.cc:697-789 | For every expression, with or without literals, in every environment and behind any code: the generated code leaves by the exit, with the value and with the carried value that `Act` says, registers in use keep their values, and all jumps inside have a target |
| BoolSound.ExpressionToNextReg | lib/lua51/lcode.cc:390-420 | Computed into the next register, every expression leaves there the final value of its run; no jump of it is left without a target but those behind it |
| BoolSound.ExpressionToLocal | lib/lua51/lcode.cc:472-478 | The same for the assignment to a local variable, whose register the expression may read |
| BoolSound.LeftIs | lib/lua51/lcode.cc:390-420 | What is in the register after a run from the first instruction is `Computed`, whatever precedes in the function, backward jumps included |
| BoolSound.GoIfTrueArrives | lib/lua51/lcode.cc:539-564 | A run goes on exactly if the value is true, and else leaves by the false list with the value or none |
| BoolSound.GoIfFalseArrives | lib/lua51/lcode.cc:567-591 | The mirror image |
| BoolSound.CodeNotMeans | lib/lua51/lcode.cc:594-626 | The negation exchanges the lists and no jump carries a value afterwards |
| BoolSound.CodeCompMeans | lib/lua51/lcode.cc:681-694 | A comparison leaves a jump that is taken exactly if it holds, with `>` and `>=` turned over |
| BoolRuns.ExecPatch | lib/lua51/lcode.cc:150-160 | A run of patched code goes where the unpatched one stopped, on to the value target with the value stored if the test carries one, and else to the other target |
| BoolRight.SafeRight | lib/lua51/lcode.cc:59-66 | The code computes the value of the expression in every environment if no literal that decides a jump meets a waiting jump that may carry a value |
| BoolRight.ConstantFreeSafe | lib/lua51/lcode.cc:697-789 | An expression without literals and constants never does, so its code always computes its value |
| BoolRight.DecidedComputes | lib/lua51/lcode.cc:547-578 | For `(y and true) or z`, `(y and false) and z`, `(y or true) or z` and `(y or false) and z`, with `y` and `z` free of literals: the value is that of `y` where a jump of `y` carries it to the literal, and else that of the expression |
| BoolRight.PassedSafe | lib/lua51/lcode.cc:539-591 | `(y and true) and z`, `(y and false) or z`, `(y or true) and z` and `(y or false) or z`, whose literal never jumps, meet the condition of `SafeRight` |
| BoolExact.CodeExact | lib/lua51/lcode.cc:539-591 | For every expression of `and`, `or`, `not` over different globals and any literals: the code is right in all environments if and only if no way a run can take carries a value past a literal |
| BoolExact.LiteralExact | lib/lua51/lcode.cc:547-578 | For the four shapes whose literal always jumps, with `z` any expression without literals: right in all environments if and only if no jump of `y` that waits for the literal may carry a value |
| BoolExact.LiteralJumpKeepsValue | lib/lua51/lcode.cc:575-578 | `((g0 or g1) and true) or g2` computes `g0` wherever `g0` is neither nil nor false, and should compute true |
| BoolExact.StatementBefore | lib/lua51/lcode.cc:59-66 | After `if y then end`, `true or z` computes the value that the run of `y` brings along, if it brings one, and else true |
| BoolExact.StatementExact | lib/lua51/lparser.cc:1141-1162 | For `y` over different globals and any literals: after `if y then end`, `true or z` is true in all environments if and only if no run of `y` can bring a value along |
| BoolExact.OnceBrings | lib/lua51/lcode.cc:539-564 | Without literals in `y`, a run can bring one along if and only if a jump of either list may carry a value or `y` ends with a load |
| BoolExact.BehindExact | lib/lua51/lparser.cc:1141-1162 | For two expressions over different globals with any literals: the code of `x` after `if y then end` is right in all environments if and only if no way through `x` carries a value past a literal, given what `y` can bring along |
| BoolExact.SafeBehind | lib/lua51/lcode.cc:59-66 | For all expressions: after `if y then end` the code of `x` computes its value if none of its literals can meet a waiting value |
| BoolExact.StatementBeforeGlobal | lib/lua51/lparser.cc:1141-1162 | After `if g0 then end`, `true or z` computes `g0` where that is nil or false |
| BoolTrace.CompileSpeaks | lib/lua51/lcode.cc:697-789 | For every expression, in every environment and behind any code: a run that arrives reads globals and compares as `Act` evaluates, in that order and with those values, and a run that has left by an outer jump does neither |
| BoolTrace.EvaluatesIs | lib/lua51/lcode.cc:390-420 | The same for the code of a whole expression with its value put into a register: loading the exits adds nothing |
| BoolTrace.EvaluationOrder | lib/lua51/lcode.cc:718-759 | Where no literal takes over a value, the reads and comparisons are exactly those of short-circuit evaluation from left to right, in order |
| BoolTrace.LiteralsKeepOrder | lib/lua51/lcode.cc:539-591 | Without comparisons that holds for all literals, also where the value computed is wrong |
| BoolPatch.FuncState.PatchListAux | lib/lua51/lcode.cc:150-160 | Following the links of a list while overwriting them aims every jump of it, and only those, as the list held as a sequence is aimed; no second target is needed if all jumps carry a value |
| BoolPatch.FuncState.Concat | lib/lua51/lcode.cc:185-196 | Appending one threaded list to another changes the last link only |
| BoolPatch.FuncState.NeedsValue | lib/lua51/lcode.cc:122-128 | True exactly if some jump of the list carries no value |
| BoolPatch.FuncState.RemoveValues | lib/lua51/lcode.cc:144-147 | Turns exactly the value-carrying tests of the list into plain ones and leaves the links |
| BoolPatch.FuncState.Exp2Reg | lib/lua51/lcode.cc:390-411 | In place, with all three lists threaded through the offsets, as in the model; no other list's links change |
| BoolPatch.FuncState.GoIfTrue | lib/lua51/lcode.cc:539-564 | In place, as in the model, the pending list and both lists of the expression stay intact together |
| BoolPatch.FuncState.CodeNot | lib/lua51/lcode.cc:594-626 | In place, as in the model, the lists exchanged |
| BoolPatch.FuncState.Compile | lib/lua51/lparser.cc:828-853 | Code for any expression generated in place is the model's, and its descriptor's lists are the model's, threaded |
| BoolExec.Execute | lib/lua51/lvm.cc:537-581 | The loop of the machine on finished code with offsets runs as the model of the code runs, and performs the same reads and comparisons |
| BoolExec.Evaluate | lib/lua51/lcode.cc:414-420 | End to end: generated in place behind the code so far and run on offsets, an expression leaves what `Computed` says in the register; if it is safe that is its value, and what was read and compared is what short-circuit evaluation does |
| Matcher.MatchState.Match | lib/lua51/lstrlib.cc:365-440 | The backtracking matcher on one array of captures computes `DoMatch`, whose meaning is `PatternWays.MatchIsBest`, errors included, and whenever it fails the level and all captures below it are as they were |
| Matcher.MatchState.StartCap | lib/lua51/lstrlib.cc:329-340 | Opens a capture and takes it back if the rest fails |
| Matcher.MatchState.EndCap | lib/lua51/lstrlib.cc:343-351 | Closes the innermost open capture and opens it again if the rest fails |
| Matcher.Find | lib/lua51/lstrlib.cc:507-532 | Yields the first start from which there is a way through the pattern, with the end and the captures of the preferred way, and nothing exactly if no start has one; an anchor allows only the first start; an error is that of the first start that has one |
| PatternWays.MatchIsBest | lib/lua51/lstrlib.cc:186-440 | For every pattern and subject, with captures, back references, `%b`, `%f` and malformed patterns: matching fails exactly if there is no way through the items, and else ends as the way that is first in greedy and lazy order, with its captures or its error. Parentheses open and close the innermost capture where they are passed, a back reference takes a copy of the captured bytes, `%b` ends where the closing bytes first balance the opening ones, `%f` stands between a byte outside the set and one inside |
| PatternWays.YieldsOnce | lib/lua51/lstrlib.cc:365-440 | That determines the result |
| PatternCaptures.MatchCaptures | lib/lua51/lstrlib.cc:329-351 | A match has as many captures as parentheses open; each begins where the match passed its parenthesis and ends where it passed the partner that balances it in the pattern, or is a position, or is open if there is no partner |
| PatternClasses.ClassReads | lib/lua51/lstrlib.cc:202-275 | A class written as a dot, a character, a letter behind `%` or a set of characters, ranges and letters, complemented or not, is found to end where it does and matches just the bytes it stands for |
| PatternClasses.ClassInString | lib/lua51/lstrlib.cc:202-223 | No class reaches over the end of the pattern; what would is the right one of two errors |
| PatternWays.PreferredStrict | lib/lua51/lstrlib.cc:301-326 | That order is strict, so the best choice is unique |
| ChunkDumper.Dumper.Dump | lib/lua51/ldump.cc:153-164 | Writes exactly the bytes of the chunk if the writer never fails, and else a prefix of them up to the failure, whose status it returns |
| ChunkLoader.Zio.Read | lib/lua51/lzio.cc:57-71 | Yields the next bytes, however the reader splits them, or all there are and how many are missing |
| ChunkLoader.Loader.Undump | lib/lua51/lundump.cc:196-208 | The result, or the error, depends only on the joined bytes, and the call count is back where it was |
| ChunkRefusals.HeaderNeeded | lib/lua51/lundump.cc:183-190 | Only what begins with the twelve bytes of a dump's header is read; all else is refused |
| ChunkRefusals.TagNeeded | lib/lua51/lundump.cc:98-129 | A constant with an unknown tag is an error wherever it stands in the list |
| ChunkRefusals.CountNeeded | lib/lua51/lundump.cc:61-67 | A count whose highest bit is set is an error |
| ChunkRefusals.AnyByte | lib/lua51/lundump.cc:76-88 | Any byte but zero is read as true, and any byte ends a string |
| ChunkRefusals.ChunkExtends | lib/lua51/lundump.cc:196-208 | A chunk, or an error in it, is read without regard to what follows |
| ChunkRefusals.CutOff | lib/lua51/lundump.cc:48-52 | A chunk that is cut off anywhere is refused as ending unexpectedly |
| ChunkRefusals.DumpCutOff | lib/lua51/lundump.cc:48-52 | So is every proper prefix of a dump that loads |
| ChunkLayout.Layout | lib/lua51/ldump.cc:129-164 | The order and the bytes of the parts of a dump, for a function with one instruction, one constant and one nested function |
| ChunkLayout.HeadLayout | lib/lua51/ldump.cc:131-137 | The bytes of source, lines and the four small fields |
| ChunkLayout.ConstantsLayout | lib/lua51/ldump.cc:80-105 | The bytes of a constant of every kind |
| ChunkLayout.DebugLayout | lib/lua51/ldump.cc:111-127 | The bytes of line numbers, local variables and upvalue names, and of their absence |
| ChunkLoads.RoundTrip | lib/lua51/lundump.cc:161-180 | Loading a dumped function gives it back if and only if every function has a source, the nesting is within the limit and the code check accepts |
| ChunkLoads.ChunkLoadsRestored | lib/lua51/lundump.cc:161-180 | A dumped chunk, stripped or not, loads as the restored tree with sources filled in and debug information left out, or not at all, and all bytes are read |
| ChunkLoads.RestoredSame | lib/lua51/ldump.cc:129-141 | The elided sources come back as they were exactly if none is missing |
| Quoted.AddQuoted | lib/lua51/lstrlib.cc:696-723 | Appends the quoted form |
| Quoted.Lexer.ReadString | lib/lua51/llex.cc:276-329 | The lexer's loop yields the text, the rest and the line, or the error, that the function on the input says, whose meaning is `Literals.PieceReads` |
| Literals.PieceReads | lib/lua51/llex.cc:288-325 | Each piece of a literal is read as the byte it stands for: a plain byte, a byte behind a backslash, the codes 7 to 13 by the letters `abtnvfr`, a code by one to three decimal digits, a line end as a newline; a code over 255 is an error, and so is a line too many |
| Literals.LiteralReads | lib/lua51/llex.cc:276-329 | A literal made of any such pieces stands for their bytes, its line ends are counted and what follows the closing quote is left, exactly if the line counter has room |
| Literals.Unclosed | lib/lua51/llex.cc:280-287 | A literal cannot end at the end of the input, behind a backslash or not, nor at a bare line end |
| Quoted.RoundTrip | lib/lua51/lstrlib.cc:696-723 | A quoted string reads back as itself, with the input behind it untouched and its newlines counted, exactly if the line counter has room for them |
| Sorting.Sort | lib/lua51/ltablib.cc:256-265 | Under a strict weak order: sorted, a permutation, the slots outside the list unchanged, no error, and recursion no deeper than the logarithm of the length |
| Sorting.AuxSort | lib/lua51/ltablib.cc:193-254 | The same for every part of the array it is called on |
| Sorting.Partition | lib/lua51/ltablib.cc:216-236 | For any comparison at all: permutes, stays next to the part and reports an invalid order; under a strict weak order the pivot ends between smaller and larger elements |
| Telnet.Tracker.Receive | lib/libtelnet/libtelnet.c:790-838 | However the input is cut into pieces, state, option table, buffer and events, adjacent data joined, are those of the bytes one by one |
| Telnet.Tracker.Process | lib/libtelnet/libtelnet.c:639-787 | One piece of input, processed in runs, has the effect of its bytes one by one; what the bytes of a verb do is `TelnetStream.VerbArrives` |
| TelnetStream.VerbArrives | lib/libtelnet/libtelnet.c:659-699 | IAC, 251 to 254 and an option have the effect of receiving WILL, WONT, DO or DONT for that option, and no other |
| TelnetStream.ProxyPassesOn | lib/libtelnet/libtelnet.c:269-286 | In proxy mode a verb is told and nothing else changes, and a request is sent as it is |
| TelnetStream.CommandArrives | lib/libtelnet/libtelnet.c:682-687 | Every other command is reported |
| TelnetStream.CommandInside | lib/libtelnet/libtelnet.c:749-778 | A command inside a subnegotiation ends it with a warning and then has the effect it has outside |
| Telnet.Tracker.BufferByte | lib/libtelnet/libtelnet.c:602-637 | The subnegotiation buffer grows by its table of sizes and keeps its bytes, and refuses a byte exactly at the limit |
| Telnet.Tracker.Negotiate | lib/libtelnet/libtelnet.c:266-409 | Each verb changes its option, answers and notifies as `Negotiation` says, whose answers are stated by `TelnetPeers.AnswersSent` and whose notices by `TelnetNotices.HimTold` and `UsTold`; in proxy mode it only notifies |
| TelnetNotices.HimTold | lib/libtelnet/libtelnet.c:294-349 | What a verb changes about the other side is told once, by the states before and after: WILL where it begins, WONT where it ends, nothing where nothing changes or a request is refused |
| TelnetNotices.UsTold | lib/libtelnet/libtelnet.c:351-408 | The same for what we do with DO and DONT, but for the confirmation of our own end, which is told as WONT |
| TelnetNotices.UsNoticesFollow | lib/libtelnet/libtelnet.c:351-408 | Over every run of received bytes and requests: while we do an option, the last notice about that says so |
| TelnetNotices.HimNoticesFollow | lib/libtelnet/libtelnet.c:394-401 | Over every such run: while the other side does an option, the last notice about that says so if and only if, since it began, every DONT that confirmed our own end was followed by one in `Q_WANTNO_OP` |
| TelnetNotices.OwnEndMisleads | lib/libtelnet/libtelnet.c:394-397 | A run that ends with the other side doing the option and the program last told WONT |
| Telnet.Tracker.NegotiateOption | lib/libtelnet/libtelnet.c:847-924 | A request of the program is sent only if the option's state asks for it, and is remembered otherwise |
| Telnet.Tracker.SendAll | lib/libtelnet/libtelnet.c:929-966 | What the sending calls put on the wire is their encoding, every IAC byte doubled |
| TelnetStream.RoundTrip | lib/libtelnet/libtelnet.c:929-966 | The receiver is told exactly what was sent, call by call, if and only if no payload is over the limit; else it reports an overflow |
| TelnetStream.FoldSplit | lib/libtelnet/libtelnet.c:639-787 | Receiving in two parts is receiving the whole |
| TelnetQ.AgreementExact | lib/libtelnet/libtelnet.c:336-343 | Over every run of requests and deliveries for one option: with nothing in flight the ends agree if and only if neither was told of a disabling in `Q_WANTNO_OP` |
| TelnetQ.RunSound | lib/libtelnet/libtelnet.c:289-410 | Until then what is in flight is always coherent and no delivery is a protocol error |
| TelnetQ.PartedRun | lib/libtelnet/libtelnet.c:336-343 | Afterwards no further requests and deliveries mend the disagreement |
| TelnetQ.AgreementNeedsPatience | lib/libtelnet/libtelnet.c:847-924 | If the programs stop asking, the ends come to agree if and only if at that moment neither is in `Q_WANTNO_OP` |
| TelnetQ.DiesOut | lib/libtelnet/libtelnet.c:289-410 | Once the programs stop asking, at most five deliveries are left for an option, agreed or not |
| TelnetQ.Disagreement | lib/libtelnet/libtelnet.c:340-343 | A run of seven steps from the start ends with one end waiting, the other disabled and nothing in flight |
| TelnetPeers.MoveIsStep | lib/libtelnet/libtelnet.c:266-410 | Every request and delivery of two engines is a step for one option in one direction and leaves all others alone |
| TelnetPeers.MovesAreEvents | lib/libtelnet/libtelnet.c:259-263 | What the moves put in flight are, spelled in bytes, the bytes the engine's events send |
| TelnetPeers.AnswersSent | lib/libtelnet/libtelnet.c:266-409 | The bytes of the answer to a verb by the state it finds: an offer is taken exactly if it is supported, an end is confirmed, a late agreement is taken back, nothing else is answered |
| TelnetPeers.RequestsSent | lib/libtelnet/libtelnet.c:847-924 | A request goes out exactly if it leaves a settled state, and otherwise the state remembers what is wanted |
| TelnetLink.LinkRunIs | lib/libtelnet/libtelnet.c:639-699 | Every run of two engines that exchange single bytes is a run of `TelnetPeers`, forgetting the same options, warning at the same steps, and as patient |
| TelnetLink.LinkAgrees | lib/libtelnet/libtelnet.c:336-401 | Over every run of two fresh engines on byte channels: with no byte in flight neither is inside a verb, and an option is held the same way if and only if no engine forgot to ask for it; if none forgets, no program is warned |
| TelnetLink.PatientLinkAgrees | lib/libtelnet/libtelnet.c:266-409 | If no program asks again for what it is still waiting to be rid of, no program is warned, and with no byte in flight every option is held the same way |
| TelnetPeers.EnginesAgree | lib/libtelnet/libtelnet.c:336-401 | Over every run of two fresh engines: with nothing in flight, an option is held the same way in a direction if and only if no engine forgot to ask for it there; and if none ever forgets, no verb is a protocol error |
| TelnetPeers.StoppingAgrees | lib/libtelnet/libtelnet.c:847-924 | Once the programs stop asking, an option comes to be held the same way if and only if no engine then drops it while its program wants it again |
| TelnetPeers.PatienceSuffices | lib/libtelnet/libtelnet.c:847-924 | Programs that never ask again for an option whose disabling is pending leave no engine with anything to forget |
| TelnetPeers.PatientAgree | lib/libtelnet/libtelnet.c:266-410 | For such programs, over every run of two fresh engines: no verb is a protocol error, and with nothing in flight every option is held the same way in both directions |
| TelnetPeers.EnginesDisagree | lib/libtelnet/libtelnet.c:398-401 | For every option, a run of two fresh engines ends in silence with one waiting for it and the other without it |
| TelnetPeers.NegotiationDiesOut | lib/libtelnet/libtelnet.c:266-410 | Once the programs stop asking, the deliveries left are bounded, whatever happened before |
| TelnetPeers.RunsAreSound | lib/libtelnet/libtelnet.c:266-410 | That bound applies to every state two fresh engines can come to |
| TelnetPeers.WorkFew | lib/libtelnet/libtelnet.c:266-410 | The bound is ten for every option |
| Md5.Context.Update | src/common/md5.cc:92-137 | The context stands for the concatenation of everything fed to it: whole blocks hashed, the rest buffered, the bit count right with its carry |
| Md5.Context.Final | src/common/md5.cc:143-179 | The blocks hashed are the padded message and the digest is that of the message; two of the four state words are left in memory |
| Md5.DigestOf | src/common/md5.cc:92-179 | However a message is split into calls, the digest is that of the whole |
| Md5.PaddedParts | src/common/md5.cc:143-171 | The padded message is the message, a byte 128, as few zero bytes as possible and the number of bits in eight bytes |
| Md5.StartBytes | src/common/md5.cc:77-86 | The start value is that of section 3.3 of RFC 1321, byte by byte |
| Md5.DigestWords | src/common/md5.cc:176-178 | Every four bytes of a digest are the word of that place |
| Md5.PaddedInjective | src/common/md5.cc:143-179 | Below 2^61 bytes different messages have different padded forms |

## Left out

Collector:

- Finalizers of userdata, weak tables, and the memory accounting that paces the collector (`luaC_step`): the collector may
  step at any moment instead. `luaC_freeall`, stack shrinking and writes to upvalues through the C interface.
- The order within a bucket of the string table, and upvalue lists as linked nodes: the lists are sequences.
- A table's references are a sequence; which of them are keys and which values is the subject of the table part.
- Only strings are made fixed. The mark bits that are neither colours nor the fixed bit are 0 in the tests the collector
  makes; the lemmas about the tests hold for all their values.
- The allocator: an operation that allocates is given the address.

Tables:

- Tables.Table.Set: after a table overflow (2^26 entries or more) nothing is promised about the table.
- Number keys are integers or opaque: rounding of floating-point keys is not modelled, the hash function is arbitrary.
- Metatables and their cached flags, and the barrier after a store (it is in the collector part).

Boolean code:

- Operands are locals, globals and constants, a global standing for all operands that take one instruction to load. Calls,
  indexing, arithmetic with constant folding, concatenation, upvalues and `nil` literals (whose loads are merged) are not
  modelled.
- BoolExact.CodeExact: different globals, literals, `and`, `or` and `not`. Where globals recur, or with locals and
  comparisons beside literals, `CompileMeans` says what the code computes and `SafeRight` gives one direction.
- Side effects of reads and comparisons (metamethods) are events without an effect of their own on later values.
- The parser's precedence climbing: expressions are given as trees. Limits on registers and constants, line information.

Patterns, chunks, quoting, sorting:

- `gmatch`, `gsub`, the plain search of `find`, the limits of the C stack; character classes are those of the C locale.
- PatternClasses.ClassReads: not for sets in which a range ends with `%`, whose end the source finds by another reading
  than the one it matches by. What a caller of the matcher does with captures that are still open.
- Chunks are those of a machine with 32-bit `int`, 64-bit `size_t` and little-endian order. The code check is a parameter.
- The limits on the lexer's buffer; numerals and long strings.
- Sorting.AuxSort: under a strict weak order; with other comparisons it need not end, and `Partition` says what holds.

Telnet:

- Compression, the splitting of ZMP, TTYPE, ENVIRON and MSSP payloads, `telnet_printf`, the growth of the option array, and
  handlers that call the engine while it calls them.

Digest:

- The four rounds of `MD5Transform` are a parameter; the machine is little-endian.
