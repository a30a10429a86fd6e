# Verified model of a CNC controller

The repository is a CNC controller in C++. This project models its hardest
self-contained logic in Dafny and proves what that logic is for. Code that
updates objects, arrays or cursors in place is modelled by classes and methods
with loops; each is proved equal to a function of the old state, and the laws
are proved about those functions, over every input, run or interleaving. For
each of the main operations one module (`...Meaning`, `...Laws`,
`EmergencyStopTicks`, `IpcBridgeService`) states independently of those
functions, in the terms of a user of the machine, what the operation has to
do, and proves that it does exactly that.

| files | subject |
|---|---|
| `DigitalIoLanguage`, `DigitalIoCompiler`, `DigitalIoDebounce`, `DigitalIoMachine` | the digital I/O language, its compiler and its per-tick virtual machine |
| `DigitalIoText`, `DigitalIoMeaning`, `DigitalIoAcceptance` | what a digital I/O text means, read off its words: its lines, the outputs it lights, whether it compiles and what a refusal asserts |
| `NgcSyntax`, `NgcSemantics`, `NgcDiscipline`, `NgcCalls`, `NgcEvaluator`, `NgcLaws`, `NgcExpressions` | the scoped NGC interpreter: a big-step semantics with exceptions and calls back from block callbacks, its stack discipline, what calls and aliases really do, the evaluator object, the laws of its statements and what an expression denotes |
| `MachineState`, `MachineBlock`, `MachineProperties`, `MachineOperations`, `MachineRoundTrips`, `MachineObject`, `MachineMeaning`, `MachineRefinement`, `MachineMoves` | G-code blocks as transactions, the RS274/NGC (version 3) words G10 (section 3.5.5), tool length offsets (3.5.11) and G53 (3.5.12), checkpoints; a block's meaning in one closed form, and what moves and arcs do |
| `EmergencyStop`, `EmergencyStopSafety`, `EmergencyStopObjects`, `EmergencyStopTicks` | the emergency-stop latch, its status seqlock and the executor tick as interleaved atomic steps |
| `IpcTransport`, `IpcBridge`, `IpcBridgeObject`, `IpcBridgeService` | the lock-free ring and mailbox as interleaved atomic steps; the bridge between rings and backend |
| `ParameterText`, `ParameterStore`, `ParameterFile`, `ParameterMeaning` | printing, parsing, saving and loading the parameter file |
| `HostedTiming`, `HostedServoLoop`, `HostedMeaning` | streaming timing statistics and the deadline grid |
| `TrajectoryTime`, `TrajectoryPasses`, `TrajectoryLoops`, `TrajectoryMeaning` | infinite-jerk timing: velocity caps, stations, forward and backward passes, refinement |
| `ArcInversion`, `ArcReferenceObject` | inverting arc length by safeguarded Newton behind a direct-mapped cache |
| `HomingMoves`, `HomingValidity`, `HomingRun`, `HomingObject`, `HomingMeaning` | homing: the moves, the item validator, whole runs |
| `Text`, `Doubles`, `Arithmetic`, `Joints` | shared vocabulary |

Doubles are reals, with one extra value for the infinities and NaNs where the
code distinguishes them (`Doubles`). Callbacks, the backend, clocks, switches
and the peer process are arbitrary: parameters, answer lists or interleaved
steps. Threads are interleaved under sequential consistency.

## What the code does that its text does not say

- src/Evaluator.cpp:274 says a function returns 0 implicitly. A call that
  ends normally without `return`, of a subroutine or of `print` and `alert`,
  yields 0 if and only if it has no argument but strings, or its last other
  argument is not a variable and evaluates to 0 (`NgcCalls.ImplicitResult`).
  Otherwise it yields that value, and for a variable its address: `f[#x]`
  yields the address of x (`NgcCalls.EmptySubReturnsItsArgument`,
  `NgcCalls.EmptySubReturnsAddress`, `NgcCalls.PrintYieldsItsNumber`).
- Arguments after the first see the parameters already bound: with a global x
  worth 7, `f[5, #x]` gives a second parameter the value 5 when the first is
  called x (`NgcCalls.BoundParameterShadowsCaller`). Arguments that make no
  calls and name no parameter bind to exactly the values they have in the
  caller's scope (`NgcCalls.ArgumentsMeanTheCallers`).
- A local `alias` adds an entry without a cell to the innermost open scope,
  whoever owns it. The scopes are then left as they should be if and only if
  the name was already there (`NgcCalls.LocalAliasSpoilsScopes`). Otherwise a
  context with a scope of its own closes it one cell too far, or ends the
  process (`NgcCalls.AliasTerminates`); a context that has opened none leaves
  the name in a scope of an enclosing context, at worst the global one
  (`NgcCalls.AliasBecomesGlobal`). Balance holds for programs whose aliases are
  all executed in the global context (`NgcDiscipline.ProgramIsBalanced`).
- Some accepted symbol names can never be used: those with a joint prefix
  (`DigitalIoLanguage.AcceptedSymbolResolves`, both directions).
- A G10 block that executes moves the machine if and only if it carries I, J or
  K, whatever its L and the modes; the axis words it has just stored are the
  target (`MachineRoundTrips.G10WithArcWordMoves`, and a concrete block in
  `MachineRoundTrips.G10WithZeroIMoves`).
- An emergency-stop pulse without one of the executor's loads of the requests
  inside leaves the whole run as if it had not happened, whatever else happens
  during it (`EmergencyStopSafety.ReleasedPulseIsUnseen`). A pulse of an
  inactive source that nothing else raises makes it active exactly when a load
  falls inside it (`EmergencyStopSafety.PulseIsSeenExactly`). One held into an update is
  latched (`EmergencyStopSafety.HeldSourceStops`).
- Infinite-jerk timing may start slower than the start velocity asked for,
  without an error (`TrajectoryPasses.StartsSlowerThanAsked` is such a path).
  It starts as asked only if the braking envelope, computed from the path, the
  caps and the end velocity, admits it, and exactly then where braking undoes
  accelerating over the laid intervals
  (`TrajectoryPasses.StartVelocityIsMetExactly`, which that path falls under by
  `TrajectoryPasses.StraightIsCovered`).

## Model

| member | source | states |
|---|---|---|
| DigitalIoCompiler.Tokenize | src/DigitalIoProgram.cpp:211-240 | the line loop yields exactly the non-blank lines with their numbers and words, comments and commas gone |
| DigitalIoLanguage.ResolvedOperandInRange | src/DigitalIoProgram.cpp:349-540 | every operand text that resolves denotes something inside its register file, image, axis or joint table |
| DigitalIoLanguage.SymbolsAreConservative | src/DigitalIoProgram.cpp:287-328 | a text that resolves without symbols keeps its meaning under every accepted symbol table |
| DigitalIoLanguage.AcceptedTableHasNoReservedName | src/DigitalIoProgram.cpp:149-209 | no accepted table can redefine a built-in word |
| DigitalIoLanguage.AcceptedSymbolResolves | src/DigitalIoProgram.cpp:381-471 | an accepted name resolves to its declared kind and id, except joint-prefixed names, which never resolve |
| DigitalIoCompiler.DebounceTicksLastDuration | src/DigitalIoProgram.cpp:693-714 | the tick count is the least one whose ticks last the duration, up to the code's rounding slack |
| DigitalIoCompiler.CheckSymbols | src/DigitalIoProgram.cpp:287-328 | the symbol loop accepts only well-formed tables and otherwise reports a defect that is there |
| DigitalIoCompiler.CheckDeclarations | src/DigitalIoProgram.cpp:252-328 | succeeds if and only if counts, period, declarations and symbols are all acceptable |
| DigitalIoCompiler.CheckLineMeaning | src/DigitalIoProgram.cpp:610-725 | the ordered checks of a line accept exactly the lines that decode and respect definite assignment and single writers |
| DigitalIoCompiler.DecodingIsUnique | src/DigitalIoProgram.cpp:610-725 | a line decodes to at most one instruction |
| DigitalIoCompiler.Compile | src/DigitalIoProgram.cpp:243-743 | compilation succeeds exactly on the texts for which accepted code exists, with that code; every failure names a defect that is there |
| DigitalIoCompiler.SingleWriter | src/DigitalIoProgram.cpp:568-608 | two instructions share a destination only if it is a register |
| DigitalIoCompiler.AcceptedOperandsInRange | src/DigitalIoProgram.cpp:745-789 | no instruction of an accepted program indexes outside a table |
| DigitalIoMachine.AcceptedIsExecutable | src/DigitalIoProgram.cpp:791-945 | accepted code can be executed without any index check |
| DigitalIoMachine.InitialRegistersAreInvisible | src/DigitalIoProgram.cpp:801-945 | two runs from any two register arrays give the same images and debounce states |
| DigitalIoMachine.ImagesAreTheirWriters | src/DigitalIoProgram.cpp:726-743 | each declared input and field output has exactly one writer and its bit is the Boolean that writer computed; every other bit is clear |
| DigitalIoMachine.FrozenKeepsDebounce | src/DigitalIoProgram.cpp:856-889 | a frozen pass changes no debounce state |
| DigitalIoMachine.PassesAgree | src/DigitalIoProgram.cpp:947-986 | the output pass after an input pass over the same frame yields the images the input pass computed, from any prior state |
| DigitalIoDebounce.RunRefinesWindow | src/DigitalIoProgram.cpp:856-889 | on every Boolean stream and for every tick count the counter machine's output is that of the sliding window |
| DigitalIoDebounce.ChangeNeedsFullWindow | src/DigitalIoProgram.cpp:869-889 | a change of output is backed by a full window of agreeing samples |
| DigitalIoDebounce.ChangesAreSpaced | src/DigitalIoProgram.cpp:869-889 | output changes are at least the tick count apart |
| DigitalIoMachine.DebounceFollowsSamples | src/DigitalIoProgram.cpp:856-889 | over any run of frames a debounce state is that of the counter machine on the samples its instruction read |
| DigitalIoMachine.DebounceInstructionIsWindowed | src/DigitalIoProgram.cpp:856-889 | in every run a debounce instruction writes what the window over the Booleans it has read prescribes |
| DigitalIoMachine.JointTestIsMembership | src/DigitalIoProgram.cpp:116-132 | testing a mask against a joint constant asks exactly whether that joint's bit is set |
| DigitalIoMachine.DigitalIoProgram.Evaluate | src/DigitalIoProgram.cpp:791-945 | the loop computes the images and, in place, the debounce states of one pass |
| DigitalIoMachine.DigitalIoProgram.ExecuteInputs | src/DigitalIoProgram.cpp:947-965 | the input pass advances the debounce states and returns its input image |
| DigitalIoMachine.DigitalIoProgram.ExecuteOutputs | src/DigitalIoProgram.cpp:967-986 | the output pass works on a copy and leaves the program as it was |
| DigitalIoMachine.DigitalIoProgram.Reset | src/DigitalIoProgram.cpp:988-990 | reset forgets every debounce state |
| DigitalIoMachine.DigitalIoProgram.Tick | src/DigitalIoProgram.cpp:947-986 | one servo tick's outputs are those of the input pass on the same frame |
| DigitalIoText.NewlineEndsLine | src/DigitalIoProgram.cpp:211-240 | a newline ends a line and is counted, whatever follows |
| DigitalIoText.CommentSaysNothing | src/DigitalIoProgram.cpp:211-240 | whatever follows a `#` or a `;` on a line says nothing |
| DigitalIoText.BlankSeparates | src/DigitalIoProgram.cpp:211-240 | a blank or a comma ends a word, and the words on both sides stand |
| DigitalIoText.WordStands | src/DigitalIoProgram.cpp:211-240 | anything without blanks, commas and comment marks is one word |
| DigitalIoText.InstructionReads | src/DigitalIoProgram.cpp:211-240 | an instruction as it is usually written reads as its four words |
| DigitalIoMeaning.TickMeansText | src/DigitalIoProgram.cpp:243-986 | for every accepted text and run of frames, after a tick each image bit is lit if and only if the line naming it means something on, each of the eleven words, operand names and duration units taken from the text |
| DigitalIoMeaning.RegisterMeansText | src/DigitalIoProgram.cpp:891-945 | and each register holds what the last line naming it means |
| DigitalIoMeaning.LineMeansResult | src/DigitalIoProgram.cpp:801-945 | every line of the text means what its instruction computes, in the newest of the frames seen so far |
| DigitalIoMeaning.CombineMeansWord | src/DigitalIoProgram.cpp:819-889 | the machine's operations are those of the words, without and with non-finite operands |
| DigitalIoMeaning.CommonBitIsOverlap | src/DigitalIoProgram.cpp:116-132 | a mask test asks whether some binary digit is set in both numbers |
| DigitalIoMeaning.SourceReads | src/DigitalIoProgram.cpp:745-789 | every source but a register reads in the frame what its text names: flags, masks, axis and joint positions, starts and targets, field inputs, logical outputs, symbols |
| DigitalIoMeaning.DestinationNames | src/DigitalIoProgram.cpp:349-540 | a destination is the register, input or output its text names |
| DigitalIoMeaning.LineTicksAreIn | src/DigitalIoProgram.cpp:49-81 | the compiled tick count is the fewest ticks that last the written number of the written unit |
| DigitalIoAcceptance.AcceptedTexts | src/DigitalIoProgram.cpp:243-743 | code exists for a text if and only if every line makes sense as text: a known word with its number of words, a place free to write, sources that may be read, a duration, and everything declared written |
| DigitalIoAcceptance.LineErrorIsInText | src/DigitalIoProgram.cpp:610-725 | every refusal of a line names a defect that line's text has |
| DigitalIoAcceptance.TimedIsTicks | src/DigitalIoProgram.cpp:693-714 | a duration is accepted exactly when it is a non-negative number with a unit that fits the tick count |
| NgcDiscipline.StackHeightIsLocalEntries | src/Evaluator.cpp:39-76 | in every sound state the stack has one cell per entry of the local scopes |
| NgcDiscipline.LocalsAreLive | src/Evaluator.cpp:69-74 | every local name denotes a cell the stack has |
| NgcDiscipline.LeaveNeutral | src/Evaluator.cpp:39-48 | the scope's destructor, run on any exit, restores the scopes and the stack of before |
| NgcDiscipline.VisitCallNeutral | src/Evaluator.cpp:273-335 | a call leaves scopes and stack as it found them, however it ends |
| NgcDiscipline.VisitWhileNeutral | src/Evaluator.cpp:260-271 | so does a while statement |
| NgcDiscipline.ExecuteBalanced | src/Evaluator.cpp:184-258 | every statement without a local alias keeps everything below its own scope, and its own scope matches the stack |
| NgcDiscipline.ProgramIsBalanced | src/Evaluator.cpp:141-170 | for every program whose aliases are executed in the global context, inside top-level compound statements too, with block callbacks that may call back into the evaluator, both passes end with one scope and an empty stack, on every kind of exit |
| NgcDiscipline.PreparedCallIsNeutral | src/Evaluator.cpp:449-455 | a call by the application, made with any scopes open, leaves every scope and the stack height as they were, however it ends |
| NgcDiscipline.CallBackNeutral | src/include/evaluator/InterpreterSession.h:482-497 | a call made from inside a block's callback is neutral too, whether it returns, throws or the callback then throws |
| NgcDiscipline.WhileContainsActions | src/Evaluator.cpp:260-271 | a while statement never leaks a break or continue to its parent |
| NgcCalls.LocalAliasSpoilsScopes | src/Evaluator.cpp:198-205 | executed and then left, in a context with or without a scope of its own, a local alias leaves scopes and stack matching if and only if the name was already in the innermost open frame; otherwise which frame is spoilt, and how |
| NgcCalls.AliasTerminates | src/Evaluator.cpp:39-48 | a run: calling a subroutine with one parameter and one alias ends the process |
| NgcCalls.AliasBecomesGlobal | src/Evaluator.cpp:198-205 | a run: calling a subroutine without parameters and with one alias leaves the name in the global scope |
| NgcCalls.BoundParameterShadowsCaller | src/Evaluator.cpp:321-325 | a run in which an argument's value differs from its value in the caller's scope |
| NgcCalls.ArgumentsMeanTheCallers | src/Evaluator.cpp:321-325 | arguments that make no calls, name no parameter and evaluate without an exception bind to their values in the caller's scope, each under its parameter's name |
| NgcCalls.EvalUnder | src/Evaluator.cpp:337-433 | such an expression evaluates the same, effects included, under whatever a callee has bound so far |
| NgcCalls.ImplicitResult | src/Evaluator.cpp:273-335 | a call without `return` that ends normally, built-in or not, yields 0 if and only if it has no argument but strings or its last other one is not a variable and evaluates to 0; otherwise that value, or the variable's address |
| NgcCalls.PrintYieldsItsNumber | src/Evaluator.cpp:277-296 | a concrete `print` that yields the number before its last string |
| NgcCalls.EmptySubReturnsItsArgument | src/Evaluator.cpp:273-335 | a concrete call that returns its argument, not zero |
| NgcCalls.EmptySubReturnsAddress | src/Evaluator.cpp:342-355 | a concrete call that returns the address of its argument |
| NgcEvaluator.Evaluator.Allocate | src/Evaluator.cpp:52-76 | opens a scope lazily and binds the name to a new cell or throws, as the semantics says |
| NgcEvaluator.Evaluator.Leave | src/Evaluator.cpp:39-48 | pops one cell per entry of the scope it owns, whatever was thrown |
| NgcEvaluator.Evaluator.VisitCall | src/Evaluator.cpp:273-335 | the call visitor's loops do what the semantics says |
| NgcEvaluator.Evaluator.VisitWhile | src/Evaluator.cpp:260-271 | the while loop does what the semantics says |
| NgcEvaluator.Evaluator.VisitStmt | src/Evaluator.cpp:172-271 | the statement visitors do what the semantics says |
| NgcEvaluator.Evaluator.VisitExpr | src/Evaluator.cpp:337-433 | the expression visitors do what the semantics says |
| NgcEvaluator.Evaluator.DeclareGlobal | src/Evaluator.cpp:124-139 | declares a global in a new data cell or at the given address, or throws |
| NgcEvaluator.Evaluator.ExecuteFirstPass | src/Evaluator.cpp:141-162 | the declaration loop keeps one scope and an empty stack, and does what the semantics says |
| NgcEvaluator.Evaluator.ExecuteSecondPass | src/Evaluator.cpp:164-170 | the execution loop gives the global scope and an empty stack back, and does what the semantics says |
| NgcEvaluator.Evaluator.CallPrepared | src/Evaluator.cpp:449-455 | a call by the application, over whatever scopes are open, gives scopes and stack height back and does what the semantics says |
| NgcEvaluator.Evaluator.CallBack | src/include/evaluator/InterpreterSession.h:482-497 | the callback's call, told how it ended, rethrows what it threw |
| NgcLaws.IfRunsOneBranch | src/Evaluator.cpp:246-258 | an `if` runs its body in a scope of its own when its condition is not zero, else its `else`, else nothing: data, clock, action, result, exception and, aliases apart, scopes and cells are those of that branch |
| NgcLaws.WhileIsIteratedIf | src/Evaluator.cpp:260-271 | `while c s` is `if c s` followed by `while c s`, ended by a zero, an exception, a return or a break |
| NgcLaws.CompoundSplits | src/Evaluator.cpp:184-196 | statements run one after the other; an exception or an action skips the rest |
| NgcLaws.CompoundOfOne | src/Evaluator.cpp:467-480 | the interrupt hook is asked before each statement and may stop the run |
| NgcLaws.ReturnReturns | src/Evaluator.cpp:233-236 | `return` ends with the value of its expression |
| NgcLaws.BreakAndContinueAsk | src/Evaluator.cpp:238-244 | `break` and `continue` change nothing but the action asked for |
| NgcLaws.CallRunsBody | src/Evaluator.cpp:310-335 | a call runs the body of the subroutine found under the bound parameters and gives back what it returns, the caller's scopes and cells as they were |
| NgcLaws.UndefinedCallThrows | src/Evaluator.cpp:298-308 | a call nothing in scope answers throws before it evaluates anything |
| NgcLaws.LookupIsInnermost | src/Evaluator.cpp:342-357 | a name means what the innermost scope that has it says |
| NgcLaws.WriteThenRead | src/include/memory/Memory.h:128-150 | a written cell reads the value back, every other cell reads as before |
| NgcLaws.AssignmentReadsBack | src/Evaluator.cpp:359-400 | an assigned variable reads the value back and every other cell reads as before; without a writable cell nothing changes |
| NgcLaws.LetDeclares | src/Evaluator.cpp:207-219 | a local `let` gives the name a fresh cell with the value and moves no other name and no other cell |
| NgcLaws.DeclaredSubIsFound | src/Evaluator.cpp:172-178 | declaring a subroutine makes its signature find it, and changes no other |
| NgcLaws.FirstPassDeclares | src/Evaluator.cpp:124-162 | the first pass gives every `let` a new data cell with its value, every `alias` its address, declares subroutines and leaves everything else alone |
| NgcLaws.PassesSplit | src/Evaluator.cpp:141-170 | either pass takes the statements in order and stops at the first exception |
| NgcLaws.FirstPassOfOne | src/Evaluator.cpp:141-162 | the first pass asks the interrupt hook before each statement |
| NgcExpressions.EvalDenotes | src/Evaluator.cpp:337-433 | an expression without calls and assignments gives exactly what it denotes in memory, operands in their order, throws the first thing wrong with it, and changes nothing |
| NgcExpressions.BlockSpeaks | src/Evaluator.cpp:221-231 | a block tells the host each letter with the value its expression denotes, and ends as the host answers |
| NgcExpressions.PrintSpeaks | src/Evaluator.cpp:277-296 | `print` and `alert` pass on strings as they are and everything else by value |
| MachineProperties.BlocksAreAllOrNothing | src/Machine.cpp:352-388 | a block that throws leaves the whole machine as it was, although memory and tool table are copied only for some blocks |
| MachineProperties.BlockCoherent | src/Machine.cpp:393-418 | a block keeps the cached work offset equal to the stored offset of the active system and COORDSYS equal to its number |
| MachineProperties.BlockKeepsTools | src/Machine.cpp:640-695 | a block keeps every tool valid and the physical tool in the table |
| MachineProperties.BlockContinuous | src/Machine.cpp:703-797 | every line and arc starts at the current position and the machine ends where the last of them does |
| MachineOperations.OperationSound | src/Machine.cpp:53-136 | every machine operation keeps offsets coherent and tools valid |
| MachineOperations.OffsetsStayCoherent | src/Machine.cpp:53-275 | so does every sequence of operations on a begun machine, failed ones included |
| MachineOperations.OwnCheckpointValid | src/Machine.cpp:152-232 | a machine's own checkpoint passes validation if and only if COORDSYS names the active system and the tools are valid |
| MachineOperations.CheckpointRoundTrip | src/Machine.cpp:138-255 | after any operations the checkpoint can be restored and reproduces position, modes, offsets and tool table |
| MachineOperations.ModalRoundTrip | src/Machine.cpp:90-136 | a tool-change checkpoint brings back every mode but the spindle, which it stops, and the work offset |
| MachineOperations.ProgramContinuous | src/Machine.cpp:352-388 | the commands of a whole program, failed blocks included, form one path without gaps |
| MachineRoundTrips.RapidMove | src/Machine.cpp:703-713 | a G0 G90 block is one line to the absolute target and leaves the machine there |
| MachineRoundTrips.ProbeCoordinatesReturnToTrigger | src/Machine.cpp:331-350 | a G90 move to the probe cells under unchanged units and offsets lands exactly on the trigger position |
| MachineRoundTrips.TouchOffRoundTrip | src/Machine.cpp:640-695 | after G10 L11 on a tool, activating it in G59.3 makes a G90 move to the given coordinates go nowhere |
| MachineRoundTrips.G10WithArcWordMoves | src/Machine.cpp:564-573 | every G10 block that executes emits a line, arc or probe if and only if I, J or K is present; then exactly one, from the current position to the axis words it has just stored |
| MachineRoundTrips.G10WithZeroIMoves | src/Machine.cpp:586-617 | a concrete G10 L2 block that makes a rapid move |
| MachineRefinement.BlockMeans | src/Machine.cpp:393-850 | the stages execute exactly the permitted blocks, and leave the modes, offsets, tools, memory and position and issue the commands that one closed form over the block's words says, axis by axis |
| MachineRefinement.DeletedBlockMeans | src/Machine.cpp:393-412 | a block with a block-delete mark issues and moves nothing |
| MachineMoves.IncrementalMove | src/Machine.cpp:814-826 | in G91 a rapid or feed move ends as far from the start as the scaled words say on the axes given, and where it was on all others, whatever the offsets |
| MachineMoves.ThereAndBack | src/Machine.cpp:814-826 | moving by some words in G91 and back by the same ends where it began |
| MachineMoves.MachineCoordinatesMove | src/Machine.cpp:799-812 | a G53 move goes to the words themselves shifted by the tool offset alone |
| MachineMoves.OperationsDo | src/Machine.cpp:53-350 | beginning a run, synchronizing, setting an offset, preparing a tool change, restoring and accepting a probe result change exactly these fields to exactly these values |
| MachineMoves.OperationsSucceed | src/Machine.cpp:53-350 | when each of them ends normally |
| MachineMoves.ArcsTurn | src/Machine.cpp:715-783 | in each plane the centre is the arc's words from the start, G3 turns about the positive normal and G2 about the negative one, both to the same place about the same centre |
| MachineObject.MachineImpl.HandleMotion | src/Machine.cpp:703-797 | builds the line, arc or probe command and moves the position, or throws |
| MachineObject.MachineImpl.ExecuteBlock | src/Machine.cpp:352-388 | in place: a block that throws changes no field; one that does not extends the path |
| MachineObject.MachineImpl.RestoreCheckpoint | src/Machine.cpp:234-255 | refuses exactly the invalid checkpoints, changing nothing; otherwise the machine is coherent and capturing it gives the checkpoint back |
| MachineObject.MachineImpl.RestoreToolChangeModalCheckpoint | src/Machine.cpp:114-136 | the machine is coherent in the checkpoint's modes with the spindle stopped; no stored parameter but COORDSYS changes |
| MachineObject.MachineImpl.SetActiveWorkOffset | src/Machine.cpp:259-275 | writes one stored offset of the active system and refreshes the cached one |
| MachineObject.MachineImpl.AcceptProbeResult | src/Machine.cpp:331-350 | aborts exactly on a foreign result; otherwise the machine stands where the probe stopped and, under unchanged units and offsets, the probe cells are the program coordinates of the trigger |
| EmergencyStop.StatusIsAtomic | src/EmergencyStop.cpp:29-69 | over every interleaving each status a reader returns is one whole published status, and one reader never goes back to an older one |
| EmergencyStopSafety.UpdateFollows | src/EmergencyStop.cpp:71-92 | an update is a legal successor of the published status, acknowledging the generation it loaded |
| EmergencyStopSafety.UpdateRaisesOrClears | src/EmergencyStop.cpp:71-92 | no update both raises and clears, and only a newly seen reset with no active source takes anything out of the latch |
| EmergencyStopSafety.PublicationsAreSafe | src/EmergencyStop.cpp:71-92 | in every run active sources are latched in every publication and acknowledgements are monotone and never ahead of requests |
| EmergencyStopSafety.LatchIsHeldUntilCleared | src/EmergencyStop.cpp:84-87 | a latched source leaves the latch only through an update that cleared everything for a new reset |
| EmergencyStopSafety.CoreCallsAlternate | src/HostedExecutorRuntime.cpp:364-405 | in every run latch and reset calls alternate, latch first, and the core is not ticked while latched |
| EmergencyStopSafety.LatchesMatchResets | src/HostedExecutorRuntime.cpp:364-405 | the core's latches outnumber its resets by one exactly while it is latched |
| EmergencyStopSafety.HeldSourceStops | src/EmergencyStop.cpp:4-13 | a source requested before the executor samples and not released is active and latched in every later status, and the core gets nothing but its latch |
| EmergencyStopSafety.ReleasedPulseIsUnseen | src/EmergencyStop.cpp:4-13 | a pulse without a load of the requests inside leaves the whole run as if it had not happened, with any other steps in between |
| EmergencyStopSafety.PulseIsSeenExactly | src/EmergencyStop.cpp:71-82 | a pulse of a source not active so far makes it active, and then latched, exactly when a load falls inside it; without one nothing is latched that was not before |
| EmergencyStopSafety.UninterruptedTick | src/HostedExecutorRuntime.cpp:364-405 | the ten atomic steps run back to back are one whole update and its core call |
| EmergencyStopTicks.TickBecomes | src/EmergencyStop.cpp:71-96 | the status after a tick, in the sources and the reset it saw, and the one call it makes on the core |
| EmergencyStopTicks.EveryTickObeys | src/HostedExecutorRuntime.cpp:364-405 | in every run a tick latches the core when the stop comes in, resets it when it goes, leaves it alone while it lasts, and otherwise reports the fault or ticks the servo |
| EmergencyStopTicks.ResetIsAnswered | src/EmergencyStop.cpp:14-17 | in every run a reset is answered by the next tick and ends the stop exactly when no source is active |
| EmergencyStopTicks.ReadingReturnsLast | src/EmergencyStop.cpp:29-54 | between publications one round of loads returns the last status published |
| EmergencyStopObjects.EmergencyStopInterface.Publish | src/EmergencyStop.cpp:56-69 | leaves the block holding the status, its sequence two further |
| EmergencyStopObjects.EmergencyStopState.Update | src/EmergencyStop.cpp:71-92 | updates status, seen generation and block as the model's loads and stores do |
| EmergencyStopObjects.HostedExecutorRuntime.ServoPeriod | src/HostedExecutorRuntime.cpp:364-405 | a tick in place is the ten atomic steps and keeps the safety invariant |
| IpcRing.FullExactly | src/include/machine/IpcProtocol.h:113-127 | the producer's test finds the ring full exactly when it holds its capacity |
| IpcRing.EmptyExactly | src/include/machine/IpcProtocol.h:129-136 | the consumer's test finds it empty exactly when it holds nothing |
| IpcRing.RingIsAQueue | src/include/machine/IpcProtocol.h:113-143 | over every interleaving of the two threads the ring is a bounded queue whose refusals and misses are right and whose slots are never read while written |
| LatestValueMailbox.MailboxKeepsLatest | src/include/machine/SharedLatestValueMailbox.h:24-86 | over every interleaving the three slots have three owners, values returned are whole and ever newer, and an empty answer means nothing new |
| IpcBridge.EventsReachThePeer | src/IpcExecutorBridge.cpp:32-52 | in every run the events received, then those in the ring, then the pending one are the backend's events and the rejections, once each and in order, and the completions counted are those pushed |
| IpcBridge.ItemsFinishInOrder | src/IpcExecutorBridge.cpp:106-142 | in every run the items sent are, in order, those finished, at most one pending and those in the ring; each is prepared once, before its first publication attempt |
| IpcBridge.PublishedExactlyOnce | src/IpcExecutorBridge.cpp:121-141 | an item finished as published was accepted by the backend exactly once, one finished as rejected never |
| IpcBridge.RunKeepsOk | src/IpcExecutorBridge.cpp:19-159 | every run also conserves snapshots, timing summaries, controls and demands |
| IpcBridgeObject.ServiceIsARun | src/IpcExecutorBridge.cpp:19-26 | a service call is one run of the interleaved model |
| IpcBridgeService.OutputsFollow | src/IpcExecutorBridge.cpp:32-85 | each output channel passes on what waits when its ring has room and keeps it otherwise; leaving completions are counted and the newest snapshot is remembered |
| IpcBridgeService.InputsFollow | src/IpcExecutorBridge.cpp:87-159 | a demand waits until it is answered, an item is prepared once by the policy and offered until published or rejected by epoch and number, a control waits until accepted |
| IpcBridgeService.ServiceMeans | src/IpcExecutorBridge.cpp:19-26 | both hold of every service call after every run |
| IpcBridgeObject.IpcExecutorBridge.PublishOutputs | src/IpcExecutorBridge.cpp:32-85 | in place, the output stages, reporting progress exactly when something moved |
| IpcBridgeObject.IpcExecutorBridge.SubmitItem | src/IpcExecutorBridge.cpp:106-142 | in place, pop, prepare once, publish, reject or keep the item |
| IpcBridgeObject.IpcExecutorBridge.SubmitInputs | src/IpcExecutorBridge.cpp:87-159 | in place, the input stages, reporting progress exactly when something moved |
| IpcBridgeObject.IpcExecutorBridge.Service | src/IpcExecutorBridge.cpp:19-26 | a service call keeps the conservation invariant and reports progress exactly when something moved |
| ParameterText.TrimIsTight | src/ParameterStore.cpp:17-26 | trimming removes blanks only and leaves none at either end |
| ParameterText.Tokens | src/ParameterStore.cpp:28-46 | the cutting loop finds the maximal runs of non-blank characters, in order |
| ParameterText.FieldsOfTwoWords | src/ParameterStore.cpp:28-46 | two words with a blank between them read back as two fields |
| ParameterStore.AcceptedExactly | src/ParameterStore.cpp:78-164 | a text is accepted if and only if, comments and blanks aside, it is the signature, the unit and distinct eligible entries with finite legal values; the result is those entries sorted |
| ParameterStore.AcceptedIsStorable | src/ParameterStore.cpp:122-163 | an accepted result is strictly ascending and holds only what the format can carry |
| ParameterStore.SortAscends | src/ParameterStore.cpp:161-161 | sorting distinct addresses orders them strictly and keeps every parameter |
| ParameterStore.RoundTrip | src/ParameterStore.cpp:166-176 | printing then parsing any storable list, in any order, returns it sorted by address |
| ParameterStore.ReserializedParsesTheSame | src/ParameterStore.cpp:78-176 | re-serializing any accepted text and parsing again gives the same parameters |
| ParameterMeaning.LineSays | src/ParameterStore.cpp:94-99 | what precedes a `#` on a line says its words, what follows says nothing |
| ParameterMeaning.TextSays | src/ParameterStore.cpp:87-99 | a text says what its lines say, silent lines left out |
| ParameterMeaning.BlankSeparates | src/ParameterStore.cpp:28-46 | a blank ends a word, and the words on both sides stand |
| ParameterMeaning.WordIsField | src/ParameterStore.cpp:28-46 | a run of characters without a blank is one word |
| ParameterMeaning.RefusalIsInText | src/ParameterStore.cpp:100-160 | every refusal names a defect that is there, on the line it names |
| ParameterMeaning.SavedText | src/ParameterStore.cpp:166-176 | a saved file is the signature, the unit by its name, an empty line and the entries by address |
| ParameterMeaning.CoordinateSystemIsLegal | src/ParameterStore.cpp:139-144 | the legal coordinate systems are the whole numbers from 1 to 9 |
| ParameterMeaning.SaveRefusalIsThere | src/ParameterStore.cpp:196-206 | a refused save names a cell that is not finite or the illegal coordinate system |
| ParameterFile.ParsePersistentParameters | src/ParameterStore.cpp:78-164 | the cursor loop over every text ends with what the line-by-line reading gives, errors and line numbers included |
| ParameterFile.SaveSucceedsExactly | src/ParameterStore.cpp:196-206 | saving succeeds if and only if every eligible cell is finite and the coordinate system legal |
| ParameterFile.SaveThenLoad | src/ParameterStore.cpp:178-215 | a saved memory loads into any memory of the same layout, restoring every eligible cell and touching no other |
| ParameterFile.ParameterMemory.ApplyPersistentParameters | src/include/memory/Memory.h:185-201 | checks every entry before writing any: either all are written, or none and the error is the first bad entry's |
| ParameterFile.AcceptedIsApplied | src/ParameterStore.cpp:187-190 | what the parser accepts is never refused afterwards |
| ParameterFile.ParameterMemory.LoadPersistentParameters | src/ParameterStore.cpp:178-194 | loads all parameters or leaves memory as it was |
| HostedTiming.BucketRange | src/HostedExecutorRuntime.cpp:29-37 | bucket b holds exactly the values from 2^(b-1) up to 2^b, the last bucket all larger ones |
| HostedTiming.StretchGrows | src/HostedExecutorRuntime.cpp:416-456 | one observed sample turns the exact summary of a stretch into that of the stretch with the sample |
| HostedTiming.ObserveAccumulates | src/HostedExecutorRuntime.cpp:410-473 | accepted, refused or not due, an observation keeps the accumulator exact and publishes only exact summaries |
| HostedTiming.MaximaAreMaxima | src/include/machine/RealtimeTiming.h:15-39 | the reported maxima bound every sample and are reached |
| HostedTiming.WorstIsFirstMinimum | src/HostedExecutorRuntime.cpp:433-438 | the worst tick is the first with the least slack |
| HostedTiming.LongestRun | src/HostedExecutorRuntime.cpp:441-449 | the reported streak is the longest run of missed deadlines in the trace |
| HostedTiming.HistogramsAddUp | src/HostedExecutorRuntime.cpp:451-456 | each histogram sums to the sample count |
| HostedTiming.MergeJoins | src/include/machine/RealtimeTiming.h:43-94 | merging the summaries of neighbouring stretches gives the summary of both together |
| HostedTiming.StreamingIsWholeTrace | src/HostedExecutorRuntime.cpp:410-473 | across any mix of accepted and refused publications the summaries partition the trace, each is exact, and merging them gives the exact summary of the whole trace |
| HostedTiming.TicksAreContiguous | src/HostedExecutorRuntime.cpp:418-426 | consecutive published summaries cover consecutive ticks, as many as they count |
| HostedServoLoop.NextDeadlineIsAhead | src/HostedExecutorRuntime.cpp:333-345 | the next deadline is strictly after the finish, and periods are skipped exactly when no slack is left |
| HostedServoLoop.DeadlinesStayOnGrid | src/HostedExecutorRuntime.cpp:316-345 | deadlines stay on the period grid: ticks plus skipped periods are the grid steps taken |
| HostedServoLoop.SummaryCoversGrid | src/HostedExecutorRuntime.cpp:316-351 | the whole-trace summary accounts for every grid step |
| HostedMeaning.SampleMeans | src/HostedExecutorRuntime.cpp:316-356 | each sample is late against, and has slack up to, the grid points it refers to, and skips exactly those the finish has reached |
| HostedMeaning.StretchCounts | src/HostedExecutorRuntime.cpp:416-456 | each count of a summary is the number of its samples that missed, woke that late or ran that long |
| HostedMeaning.PublicationIsDue | src/HostedExecutorRuntime.cpp:458-473 | a summary is offered when a fault forces it and when none was for a whole period, and leaves exactly when offered and accepted |
| HostedServoLoop.TimingAccumulator.CountSample | src/HostedExecutorRuntime.cpp:416-456 | the member-by-member update is the model's accumulation |
| HostedServoLoop.TimingAccumulator.ObserveTiming | src/HostedExecutorRuntime.cpp:410-473 | in place, one observation with its publication attempt |
| HostedServoLoop.RunServoLoop | src/HostedExecutorRuntime.cpp:316-362 | the loop observes exactly the trace of its clock readings, with any I/O faults forcing publication attempts, and in real time reports one fault per missed deadline |
| TrajectoryTime.BisectKeepsBounds | src/InfiniteJerkTrajectoryTime.cpp:126-132 | bisection keeps a feasible lower and an infeasible upper bound and halves the gap each step |
| TrajectoryTime.SquaredLimitIsTight | src/InfiniteJerkTrajectoryTime.cpp:122-134 | a cap is feasible and non-negative; below the direct limit, the cap plus the limit over 2^48 is infeasible |
| TrajectoryTime.NothingFeasibleIsMissed | src/InfiniteJerkTrajectoryTime.cpp:122-134 | where feasibility is downward closed no feasible velocity exceeds the cap by more |
| TrajectoryTime.VelocitySquaredLimit | src/InfiniteJerkTrajectoryTime.cpp:100-134 | the bisection loop computes the cap |
| TrajectoryTime.PropagateIsNonNegative | src/InfiniteJerkTrajectoryTime.cpp:147-182 | a propagated squared velocity is never negative |
| TrajectoryTime.StationsCoverPath | src/InfiniteJerkTrajectoryTime.cpp:189-210 | stations are one more than intervals, intervals are pieces times subdivisions within the bound and cover the path exactly |
| TrajectoryPasses.ForwardIsBounded | src/InfiniteJerkTrajectoryTime.cpp:215-224 | the forward profile starts at the start velocity and lies between 0 and the caps |
| TrajectoryPasses.ProfileIsBounded | src/InfiniteJerkTrajectoryTime.cpp:226-235 | each profile value but the last lies between 0 and both its cap and the forward value |
| TrajectoryPasses.ProfileDominates | src/InfiniteJerkTrajectoryTime.cpp:215-235 | where propagation is monotone over the laid intervals the profile bounds every admissible velocity profile |
| TrajectoryPasses.ResolutionCoversPath | src/InfiniteJerkTrajectoryTime.cpp:237-251 | duration times maximum velocity is at least the path length |
| TrajectoryPasses.ResolutionIsQuickest | src/InfiniteJerkTrajectoryTime.cpp:184-251 | where propagation is monotone over the laid intervals no admissible profile over the same stations is quicker |
| TrajectoryPasses.ProfileCanBrake | src/InfiniteJerkTrajectoryTime.cpp:226-235 | where propagation is monotone over the laid intervals no profile is above the braking envelope |
| TrajectoryPasses.ProfileIsLowerOfBoth | src/InfiniteJerkTrajectoryTime.cpp:215-235 | where braking also undoes accelerating, the profile is at every station but the last the lower of the forward profile and the braking envelope |
| TrajectoryPasses.StartVelocityIsMetExactly | src/InfiniteJerkTrajectoryTime.cpp:215-235 | the end velocity is met; the start velocity only if the braking envelope admits it and, where braking undoes accelerating, exactly then |
| TrajectoryPasses.ShortIsMonotone | src/InfiniteJerkTrajectoryTime.cpp:147-182 | a fourth-order step is monotone over any interval short against the Lipschitz constant of the rate |
| TrajectoryPasses.FineSubdivisionIsMonotone | src/InfiniteJerkTrajectoryTime.cpp:184-210 | wherever the rate is Lipschitz in the squared velocity, every fine enough subdivision lays intervals over which propagation is monotone |
| TrajectoryPasses.SeparatedRatesUndo | src/InfiniteJerkTrajectoryTime.cpp:147-182 | where on each interval some rate lies between all braking and all accelerating rates, braking undoes accelerating |
| TrajectoryPasses.ConstantRatesSuffice | src/InfiniteJerkTrajectoryTime.cpp:147-182 | both hypotheses hold for rates constant along each laid interval, the least no more than the most |
| TrajectoryPasses.StartsSlowerThanAsked | src/InfiniteJerkTrajectoryTime.cpp:184-251 | a path the code times without an error from a start slower than asked |
| TrajectoryPasses.StraightIsCovered | src/InfiniteJerkTrajectoryTime.cpp:184-251 | that path meets both hypotheses and its braking envelope starts below the velocity asked for |
| TrajectoryMeaning.CapsAreLimits | src/InfiniteJerkTrajectoryTime.cpp:189-210 | every cap is at most the squared velocity limit of each interval it joins, at the end of the one before and the start of the one behind it, and is one of these limits |
| TrajectoryMeaning.IntervalsFollow | src/InfiniteJerkTrajectoryTime.cpp:189-210 | the intervals run along the path without gap or overlap, each an equal part of its piece |
| TrajectoryMeaning.ProfileIsFeasible | src/InfiniteJerkTrajectoryTime.cpp:184-235 | where feasibility is downward closed every profile value but the last is feasible and within the limit on both intervals it joins |
| TrajectoryMeaning.BoundariesAreWithin | src/InfiniteJerkTrajectoryTime.cpp:211-213 | neither boundary velocity exceeds the limit there by more than the slack |
| TrajectoryMeaning.StationsAreLaidExactly | src/InfiniteJerkTrajectoryTime.cpp:193-210 | stations are laid exactly when the intervals fit the bound and every station has a limit |
| TrajectoryMeaning.LimitExistsExactly | src/InfiniteJerkTrajectoryTime.cpp:100-134 | when a point has a limit, and which error says why it has none |
| TrajectoryMeaning.StepIsSimpson | src/InfiniteJerkTrajectoryTime.cpp:147-182 | for a rate that depends on the place alone a step is Simpson's rule, forwards and backwards |
| TrajectoryMeaning.StepIsFourthOrder | src/InfiniteJerkTrajectoryTime.cpp:147-182 | for a rate proportional to the squared velocity a step is the exponential's series up to the fourth power |
| TrajectoryMeaning.DurationAddsUp | src/InfiniteJerkTrajectoryTime.cpp:237-251 | the duration is the sum of the times in which the mean end velocities cover the intervals; the maximum velocity bounds all and is one of them |
| TrajectoryMeaning.RefinementSettles | src/InfiniteJerkTrajectoryTime.cpp:292-328 | refinement ends with the first resolution within the tolerances of the last success before it; each error only when there is none, and says why |
| TrajectoryMeaning.SubdivisionsDouble | src/InfiniteJerkTrajectoryTime.cpp:292-300 | each refinement halves the intervals and is given up exactly when a piece needs more than are allowed or the count leaves 64 bits |
| TrajectoryLoops.LayStations | src/InfiniteJerkTrajectoryTime.cpp:189-210 | the nested loops lay the model's stations or fail as it does |
| TrajectoryLoops.ForwardPass | src/InfiniteJerkTrajectoryTime.cpp:215-224 | the array loop computes the forward profile or fails at the same interval |
| TrajectoryLoops.BackwardPass | src/InfiniteJerkTrajectoryTime.cpp:226-235 | the array loop computes the final profile or fails at the same interval |
| TrajectoryLoops.SolveResolution | src/InfiniteJerkTrajectoryTime.cpp:184-251 | one resolution, errors included |
| TrajectoryLoops.RefinementConverges | src/InfiniteJerkTrajectoryTime.cpp:292-320 | a result comes from two successful refinements with none successful between them, which agree within tolerance |
| TrajectoryLoops.ResultConverged | src/InfiniteJerkTrajectoryTime.cpp:254-328 | any returned result converged, stays within the interval bound and covers the path |
| TrajectoryLoops.InfiniteJerkTrajectoryTime | src/InfiniteJerkTrajectoryTime.cpp:254-328 | the checks and the refinement loop |
| ArcInversion.BuildTable | src/ArcInterpolation.cpp:63-75 | the constructor's loop makes a table that is exact at its parameters |
| ArcInversion.BracketExists | src/ArcInterpolation.cpp:194-196 | the node search finds a valid interval for every distance strictly inside the arc |
| ArcInversion.ShrinkKeepsBracket | src/ArcInterpolation.cpp:218-226 | every iteration keeps the parameter and the distance inside the bracket and only narrows it, whatever the speed |
| ArcInversion.StepIsExactAtConstantSpeed | src/ArcInterpolation.cpp:205-226 | where the speed is constant one step lands on the parameter sought |
| ArcInversion.RefineSettles | src/ArcInterpolation.cpp:202-230 | the loop ends within tolerance or inside a bracket of the distance |
| ArcInversion.InversionIsBracketed | src/ArcInterpolation.cpp:177-231 | the answer lies in its table interval, is within tolerance or bracketed, and is never off by more than that interval's length |
| ArcInversion.IntervalsKeepOrder | src/ArcInterpolation.cpp:194-231 | distances in different table intervals keep their order |
| ArcReferenceObject.ArcReference.Invert | src/ArcInterpolation.cpp:194-230 | the twelve-step loop gives the uncached answer and counts its steps |
| ArcReferenceObject.ArcReference.ParameterAtDistance | src/ArcInterpolation.cpp:177-231 | with any hash and any history the cached answer is the uncached one |
| ArcReferenceObject.AnswerAll | src/ArcInterpolation.cpp:177-231 | any sequence of queries gets the uncached answers |
| HomingMoves.ValidTriggeredJointMove | src/ExecutionItemOperations.cpp:152-209 | the two loops accept exactly the valid moves |
| HomingValidity.AddJointsBuilds | src/HomingController.cpp:234-273 | a built move says of each joint of its group exactly what the phase asks, and nothing of any other |
| HomingValidity.MoveIsWellFormed | src/HomingController.cpp:223-277 | for every valid configuration, group, epoch and phase the move is valid before any envelope |
| HomingValidity.BackoffIsWellFormed | src/HomingController.cpp:106-118 | the absolute backoff is valid and has the targets given |
| HomingValidity.ReleaseCheckIsWellFormed | src/HomingController.cpp:279-300 | the release check is valid, stays put and waits for every joint's released condition from its start |
| HomingValidity.EnvelopeKeepsValid | src/include/machine/MotionBackend.h:281-303 | attaching the envelope keeps a move valid and holds each joint's start and end |
| HomingValidity.SlowSearchPassesTrigger | src/HomingController.cpp:249-253 | the slow search from the backoff target reaches at least one backoff distance past the fast trigger |
| HomingValidity.BackoffIsBehindTrigger | src/HomingController.cpp:113-117 | the backoff target lies exactly one backoff behind the fast trigger |
| HomingValidity.FastSearchCoversRange | src/HomingController.cpp:244-253 | from anywhere in the joint's range the fast search passes every point of it |
| HomingRun.CalibrationMapsTrigger | src/HomingController.cpp:177-186 | calibration maps the trigger point to the configured switch coordinate and keeps the overshoot |
| HomingRun.CalibrationKeepsOthers | src/HomingController.cpp:177-186 | joints outside the group keep their coordinates |
| HomingRun.GroupKeeps | src/HomingController.cpp:92-211 | a group extends the chain of valid moves and lets the run proceed exactly when each of its phases succeeded |
| HomingRun.HomingIsSound | src/HomingController.cpp:37-215 | for every configuration, start-up and answers all moves are valid and form one gap-free predecessor chain; the run completes exactly when homing is configured, the start-up and every phase of every group succeeded and the backend came to rest, each group calibrated once in between |
| HomingMeaning.RunAsks | src/HomingController.cpp:37-300 | for all answers the k-th move of every group reached asks of each joint its target, speed, trigger, condition and envelope for that phase, and nothing of other joints; the run is stopped exactly when its last move was aborted |
| HomingMeaning.BehindMeans | src/HomingController.cpp:133-147 | behind the trigger is the side the search came from |
| HomingObject.ObservationInvertsScaling | src/HomingController.cpp:379-397 | joints at the scaled coordinates of a position are observed as that position |
| HomingObject.StartIsObservedBack | src/HomingController.cpp:68-74 | the joint positions a run starts from are observed as the machine position it was given |
| HomingObject.HomingController.BuildMove | src/HomingController.cpp:223-277 | the loop builds the phase's move and advances the counters |
| HomingObject.HomingController.BuildReleaseCheck | src/HomingController.cpp:279-300 | the loop builds the release check |
| HomingObject.HomingController.CalibratePositions | src/HomingController.cpp:177-186 | the loop calibrates the group's joints only |
| HomingObject.HomingController.HomeAll | src/HomingController.cpp:92-211 | the loop issues exactly the model's moves and settings and stops with the first group that does not proceed |
| HomingObject.HomingController.Run | src/HomingController.cpp:37-215 | in place: counters, initial coordinates, start-up, groups and result of a whole run |
| HomingObject.HomingController.ObserveSnapshot | src/HomingController.cpp:379-397 | the averaging loops compute the observed position |

## Left out

- Weak memory ordering, counter wrap-around and floating-point rounding: threads are sequentially consistent, counters unbounded, doubles reals.
- Infinities and NaNs are one value, and negative zero is zero.
- Message texts, source locations in messages and the wrapping of exceptions; errors are datatype values.
- ProgramIsBalanced: a block's callback makes at most one call back into the evaluator, as the code's does; a program's length of run is bounded by an arbitrary statement budget, after which the interrupt hook throws.
- BlocksAreAllOrNothing: the words of a block arrive already folded into a request; PANIC paths are a separate abort outcome.
- EvalDenotes: what the operators make of two doubles is an arbitrary function of the operator and the operands in their order; calls, assignments and hosts that write when they synchronize are covered by the laws of NgcLaws alone.
- CallRunsBody: a body that ends with a `break` or `continue` outside any loop.
- ProfileIsFeasible: the last value is the end velocity asked for, which BoundariesAreWithin bounds.
- RoundTrip: conversion between doubles and text is any codec that round-trips and prints one word without `#`.
- SaveThenLoad: reading and writing the file itself.
- MoveIsWellFormed: configuration guarantees (distinct joints, positive limits and backoff, nonzero scales and velocities) are preconditions, since MachineConfiguration establishes them.
- HomingIsSound: bounded service loops, entering the epoch, the two start-up requests, and stopping the backend after a run are one answer each.
- InversionIsBracketed: adaptive quadrature is an additive non-negative length; rotations and derivatives are not modelled.
- SquaredLimitIsTight: the acceleration range at a squared velocity is a feasibility predicate, the unit-tangent check and axis limits are part of the velocity limit's answer.
- StartVelocityIsMetExactly: that propagation is monotone and braking undoes accelerating over the laid intervals is assumed of the geometry; FineSubdivisionIsMonotone and SeparatedRatesUndo say where that is so.
- ResolutionIsQuickest: assumes propagation monotone over the laid intervals, which FineSubdivisionIsMonotone gives for Lipschitz rates; nothing is claimed about the continuous optimum.
- StreamingIsWholeTrace: the I/O fault diagnostics copied into a summary; only their effect on the next publication attempt is kept.
- RunServoLoop: the sleep itself and thread start-up; wake and finish times are arbitrary with finish not before wake.
- StatusIsAtomic: one publisher, as in the code; the reader's retry loop is one step per load.
- ItemsFinishInOrder: the policy's notifications (events, snapshots, items published or rejected); only its preparation of items is kept.
- EventsReachThePeer: the rings of the bridge are bounded queues, justified by RingIsAQueue.
- stopExecutorSafely and the rest of src/IpcExecutorBridge.cpp after line 159.
- Scope::allocate on a default-constructed scope, which no caller does.
- The other files of the repository: user interface, process and shared-memory set-up, configuration loading, planners other than the one modelled, the production executor core and the parser are not part of this model.
