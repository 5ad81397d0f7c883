# Inferno in Dafny

Inferno turns C++ and SystemC threads into single-loop state machines by a long sequence of tree
rewrites.  This project models the rewrites that decide what the program means, and the tree algorithms
under them, and proves that meaning is preserved.

Each rewrite is a function on a small program form with an operational semantics of its own, written as
its pattern pair is; a pass that is applied until it no longer matches is modelled by the result it comes
to or by its single hits.  Algorithms that update an object or run a loop are classes and methods.

The modules, in the order of the default sequence (`src/main/inferno.cpp`):

- **Function merging.** `CallMachine` (threads that call functions, and the flat machine), `MergePasses`
  (the passes), `MergeLayout`, `MergeInvariant`, `MergeSimulation`, `MergeTheorems`.  Calls and returns
  become gotos, locals become per-function arrays with a stack index or single module variables, and link
  addresses are label values.  `MergeStorage` says which variables get arrays, and `MergeExamples` runs two
  recursive threads.  The main result holds for any module of mutually recursive functions.
- **Structured lowering.** `Structured` (statements, with execution as sections 6.4.2, 6.5.1 to 6.5.3,
  6.6.1 and 6.6.2 of ISO/IEC 14882:2011 define it), `LowerPasses`, `LowerMachine`, `SwitchEntry`,
  `LowerSimulation`, `LowerTheorems`.
- **Cleaning up.** `LabelValues` (label values stored in memory, and their replacement), `CleanUp`.
- **State machine form.** `StateOut`, `LabelEnum` (the enumeration and lmap), `StateMachine` (the dispatch
  machine as a reference), `FallOut`, `PolicyRounds`, `BottomPolicy`, `LabelPolicy`, `SuperLoop` (superloop,
  rotation, methods), `FallThrough` (all the steps in order, for threads that become a superloop),
  `OpenThread` (for those that do not), `RoundExamples` (how many alternating states five rounds deal with),
  `ThreadToMethod` (the loop that is built, as a method) and `ThreadChain` (from a thread with labels and
  conditional gotos to its method).  wait and next_trigger are those of sections 5.2.18 and 5.2.17 of
  IEEE Std 1666-2011.
- **Returns as a flag.** `ExplicitiseReturns`.
- **Tree algorithms.** `SimpleCompare`, `SimpleDuplicate`, `Flatten`, `WalkSpec`, `Walker`, `WalkTheorems`,
  `WalkFilters`, `Scopes` (scopes as values), `IdentifierTracker`.

What a program can be seen to do is its writes to shared variables and its waits, or, where states are of
any type, its whole data.  At a wait the environment may change every shared variable, as a function of
everything observed so far; the theorems quantify over all environments.  Undefined behaviour (reading an
uninitialised local, a jump to a label that does not exist, a subscript outside its array) makes a
machine stuck.

Where the code does less than its documentation says, the model follows the code and a lemma says exactly
when the two agree:

- Arrays have ten elements and slot 0 is never used, so nine live activations of a function fit
  (`MergeTheorems.InRangeExactlyWhenBounded`, `MergeExamples.NineFitAndTenDoNot`).
- A thread that ends falls into the first function merged behind it (`MergeTheorems.ThreadEndFallsThrough`).
- A switch without a default has no jump past its body (`LowerSimulation.SwitchRuns`,
  `SwitchEntry.EntryExactly`, `LowerTheorems.SwitchWithoutDefault`).
- `L: goto L` loses its only declaration (`CleanUp.LabelRemovalExactly`).
- The bottom policy jumps back even when the last state completes: it is right exactly for threads that
  never reach that state (`BottomPolicy.BottomPolicyExactly`).
- Five rounds of the goto policies are not always enough for a superloop
  (`PolicyRounds.RoundsSuffice`, `OpenThread.LoopExactlyWhenSplit`, `RoundExamples.FivePairsSuffice`); what
  is left runs as before (`OpenThread.PassesPreserveThread`).
- A method differs from its thread when something is computed between a wait and the jump after it; the
  passes leave nothing there (`ThreadToMethod.MethodExactlyWhenSettled`, `ThreadChain.MethodOfThread`).
- A return inside a loop does not leave the loop: the result is right exactly when each loop that is
  reached has at most one round, or cannot return, or does nothing in a round with the flag cleared
  (`ExplicitiseReturns.ReturnsExactly`).
- The order within collections is the reverse of what the comment on LexicographicalCompare says
  (`SimpleCompare.LexHead`); it is an order all the same.

## Model

| member | source | states |
|---|---|---|
| `MergePasses.ExpandCall` | src/steps/generate_stacks.cpp:188-385 | the passes, one after the other, make of a call: arguments and then the link address into module variables, a goto to the function's label, the link label, and the fetch of the return value |
| `MergePasses.ExpandReturn` | src/steps/generate_stacks.cpp:107-300 | of a return they make: value, link address, index decrement, goto, in an order that reads value and address while the index still selects the activation |
| `MergeLayout.FindInBody` | src/steps/generate_stacks.cpp:547-613 | in the merged thread every label of every function is found at the place of its own statement |
| `MergeInvariant.MirrorFrame` | src/steps/generate_stacks.cpp:452-541 | the calling activations are unaffected by any change outside the slots they own |
| `MergeInvariant.EvalMatches` | src/steps/to_sc_method.cpp:13-67 | an expression over arrays and module cells has the value of the original over the activation's own locals, shared cells included |
| `MergeStorage.WhereLocalsLive` | src/steps/to_sc_method.cpp:13-67 | in the merged thread a variable whose compound contains a call is an array element at every use and never a cell; one whose compound contains none is a single cell at every use and never an array element |
| `MergeStorage.WhereThreadLocalsLive` | src/steps/to_sc_method.cpp:13-67 | the variables of the thread are single cells |
| `MergeSimulation.CallStep` | src/steps/generate_stacks.cpp:188-385 | a call step is matched by argument passing, jump and prologue, for every nesting of live activations |
| `MergeSimulation.ReturnStep` | src/steps/generate_stacks.cpp:107-185 | a return step is matched by index restore, jump to the caller's link label and fetch of the value |
| `MergeSimulation.MergeStep` | src/steps/generate_stacks.cpp:107-613 | every step of the call-stack machine is matched by one or more steps of the merged machine |
| `MergeTheorems.MergingPreservesRuns` | src/steps/generate_stacks.cpp:107-613 | for every program in call normal form and every run within the stack bound, the merged thread shows the same trace and shared variables |
| `MergeTheorems.MergingAddsNothing` | src/steps/generate_stacks.cpp:107-613 | conversely the merged thread is still running after as many steps and has shown nothing the thread does not show |
| `MergeTheorems.SlotsHoldActivations` | src/steps/generate_stacks.cpp:452-541 | in every matching state slots 1 to the stack index hold the locals and link addresses of the live activations in call order |
| `MergeTheorems.OverflowIsReached` | src/steps/generate_stacks.cpp:452-541 | a run that exceeds nine live activations drives the merged machine outside its arrays |
| `MergeTheorems.InRangeExactlyWhenBounded` | src/steps/generate_stacks.cpp:452-541 | for a thread that runs for ever, all accesses stay inside the arrays if and only if no function has more than nine live activations |
| `MergeExamples.NineFitAndTenDoNot` | src/steps/generate_stacks.cpp:452-541 | a self-recursive thread whose merged form runs with nine live activations and gets stuck at the tenth |
| `MergeExamples.TwoActivationsShareACell` | src/steps/to_sc_method.cpp:13-67 | a recursive thread in which a variable of two live activations is in one cell, which holds the later one's value, with the same trace |
| `MergeTheorems.ThreadEndFallsThrough` | src/steps/generate_stacks.cpp:547-613 | a thread that ends has a merged form that ends if and only if no function was merged behind it |
| `LowerPasses.LoopPassesCompose` | src/steps/lower_control_flow.cpp:194-268 | break, for, while and do lowering in pipeline order equal one recursive rewrite in which each break and continue is bound to its innermost construct |
| `LowerPasses.LoweredIsCode` | src/main/inferno.cpp:122-131 | the six passes over the whole program, flattened, are a direct translation |
| `LowerMachine.WhileCode` | src/steps/lower_control_flow.cpp:248-268 | supporting `LowerTheorems.LoweringPreserves`: the code of a while loop: one test in front, a do loop, and the labels of its breaks |
| `LowerMachine.ForCode` | src/steps/lower_control_flow.cpp:194-246 | supporting `LowerTheorems.LoweringPreserves`: the code of a for loop, with its continue label before the increment |
| `LowerMachine.EmitIf` | src/steps/lower_control_flow.cpp:271-319 | supporting `LowerTheorems.LoweringPreserves`: an if becomes leap-frogging gotos unless it is a conditional goto already |
| `LowerMachine.SwitchCode` | src/steps/lower_control_flow.cpp:322-444 | supporting `LowerSimulation.SwitchRuns`: the code of a switch: value, range jumps, case jumps, default jump, labelled body |
| `SwitchEntry.ScanJumps` | src/steps/lower_control_flow.cpp:356-428 | the hoisted jumps, in reverse order, take every value to the label of the one target it matches |
| `SwitchEntry.EnterSwitch` | src/steps/lower_control_flow.cpp:322-444 | from the jumps control enters the body at the selected target or default, for every value |
| `SwitchEntry.EntryExactly` | src/steps/lower_control_flow.cpp:356-392 | supporting `LowerSimulation.SwitchRuns`: the entry point it shows to be taken is the switch's own if and only if a target or default takes the value or the body is empty |
| `LowerSimulation.SwitchRuns` | src/steps/lower_control_flow.cpp:322-444 | a lowered switch runs its body from the selected target with fall-through, and all of it when nothing is selected |
| `LowerSimulation.AtRound` | src/steps/lower_control_flow.cpp:447-494 | a loop at the start of a round runs as the loop statement does, to its end, to a break's label, or on for as many rounds as asked |
| `LowerSimulation.Simulate` | src/steps/lower_control_flow.cpp:194-528 | the code of any statement ends where the statement's outcome says, with the same data |
| `LowerTheorems.CountCode` | src/steps/lower_control_flow.cpp:497-528 | each fresh label is declared at most once |
| `LowerTheorems.LoweringPreserves` | src/steps/lower_control_flow.cpp:194-528 | a program that ends has a lowered form that ends with the same data; one that still loops after n rounds is matched by at least n steps |
| `LowerTheorems.LoweringReflects` | src/steps/lower_control_flow.cpp:194-528 | when the lowered program ends the program ends, with the same data |
| `LowerTheorems.SwitchWithoutDefault` | src/steps/lower_control_flow.cpp:356-392 | a switch without default whose lowered form runs a body that the switch skips |
| `LabelValues.StepImage` | src/steps/clean_up.cpp:181-240 | replacing label values in code and memory commutes with every statement that does not jump |
| `CleanUp.FindCleaned` | src/steps/clean_up.cpp:181-385 | after a pass every label still leads to the same place |
| `CleanUp.CleanedFollows` | src/steps/clean_up.cpp:181-410 | merging duplicate labels, removing ineffectual or unused labels and removing dead statements keep every run, label values in variables included |
| `CleanUp.OriginalFollows` | src/steps/clean_up.cpp:181-410 | conversely every run of the cleaned program is a run of the original, in at most three times the steps |
| `CleanUp.LabelRemovalExactly` | src/steps/clean_up.cpp:243-301 | removing a label before a goto keeps every run if and only if the goto is not to that label |
| `CleanUp.NothingLeft` | src/steps/clean_up.cpp:181-410 | where no pass matches there are no neighbouring labels, no label before a goto to another, no unused label and no dead statement |
| `StateOut.PassesCompose` | src/steps/state_out.cpp:17-292 | the five passes in order replace a thread part by part |
| `StateOut.ReachesMachineForm` | src/steps/state_out.cpp:17-292 | whatever the thread, they leave every label behind a goto, every goto through the state variable, no conditional goto and nothing but a jump after a wait |
| `StateOut.FromStatedOut` | src/steps/state_out.cpp:162-198 | a jump to a label of the thread arrives at the same statements |
| `StateOut.StateOutPreserves` | src/steps/state_out.cpp:17-292 | every run of a thread is a run of its state machine form, with the same data, and ends when it ends |
| `StateOut.StateOutReflects` | src/steps/state_out.cpp:17-292 | conversely, whatever data the state machine form has at some point the thread has at a point at least a quarter as far on |
| `LabelEnum.PlaceAllIsTable` | src/steps/fall_out.cpp:96-193 | inserting labels one at a time keeps the k-th enumerator at value k and lmap[k] its label, and covers every label |
| `LabelEnum.NumberingIsInvertible` | src/steps/fall_out.cpp:96-193 | lmap undoes the numbering |
| `LabelEnum.NumberingPreservesRuns` | src/steps/fall_out.cpp:196-257 | with integers for label values and lmap applied at gotos only, every run keeps its steps, places and data |
| `StateMachine.Implements` | src/steps/fall_out.cpp:315-497 | every intermediate form of the fall-through passes runs the bodies and waits of the dispatch machine, in order, for ever |
| `StateMachine.ImplementsOnly` | src/steps/fall_out.cpp:315-497 | and runs nothing else |
| `FallOut.HitsRemoveGotos` | src/steps/fall_out.cpp:315-415 | each hit of a goto policy lowers the number of top-level gotos, so the passes terminate |
| `FallOut.HitsOnForm` | src/steps/fall_out.cpp:315-415 | a hit turns the next state into a guarded block, by the comb policy if its body is combable and by the yield policy if it waits |
| `FallOut.GoodIsThread` | src/steps/fall_out.cpp:315-415 | at every point of the goto policies explicit jumps arrive with the state equal to the label's value and every fall-through is guarded |
| `FallOut.HitKeepsGood` | src/steps/fall_out.cpp:315-415 | a hit of either policy keeps that invariant |
| `PolicyRounds.BuildFallThrough` | src/main/inferno.cpp:167-180 | sixteen steps are appended: at 2i and 2i+1, for i below 5, the comb and the yield policy, and then the six closing steps in order |
| `PolicyRounds.RoundsForm` | src/main/inferno.cpp:167-173 | n rounds deal with the n longest leading pairs of runs |
| `PolicyRounds.GreedyIsBest` | src/main/inferno.cpp:167-173 | taking the longest runs first leaves nothing if and only if some split into n pairs exists |
| `PolicyRounds.RoundsSuffice` | src/main/inferno.cpp:167-173 | n rounds remove every goto between states if and only if the states split into at most n pairs of a combable and a yielding run |
| `RoundExamples.FivePairsSuffice` | src/main/inferno.cpp:167-180 | of the threads that alternate between states that compute and states that wait, those of at most five pairs become a superloop and no others |
| `RoundExamples.TenStatesButNotTwelve` | src/main/inferno.cpp:167-180 | ten alternating states become a superloop and twelve do not |
| `LabelPolicy.LabelPolicyCloses` | src/steps/fall_out.cpp:469-497 | the label policy brings all labels above all guards |
| `LabelPolicy.HoistedIsThread` | src/steps/fall_out.cpp:469-497 | at every point of it the thread implements its dispatch machine |
| `LabelPolicy.MergeToOne` | src/steps/clean_up.cpp:181-240 | merging adjacent labels to exhaustion leaves one, which every entry of lmap then holds, and the thread implements its dispatch machine |
| `SuperLoop.LoopIsDetected` | src/steps/fall_out.cpp:499-611 | top policy and loop detection turn the guarded thread into a superloop |
| `SuperLoop.LoopImplements` | src/steps/fall_out.cpp:569-611 | after any number of iterations the superloop is at a point of the dispatch machine's run |
| `SuperLoop.RotationKeepsStates` | src/steps/state_out.cpp:740-780 | moving the bottom guard above the top one leaves the executed bodies and waits unchanged for every n |
| `SuperLoop.RotateAt` | src/steps/state_out.cpp:780 | the bottom guard comes to where the top one was, the guards from there on move down by one, and the others stay |
| `SuperLoop.RotationSavesATurn` | src/steps/state_out.cpp:740-780 | a bottom block that goes back to the top state takes an iteration of its own in the original loop; the rotated loop runs it and the top block in one |
| `SuperLoop.WaitCommutes` | src/steps/to_sc_method.cpp:164-214 | waiting and then writing the state variable is writing it and then waiting |
| `ThreadToMethod.IterationWaitsOnce` | src/steps/to_sc_method.cpp:164-214 | every iteration of the superloop that the passes build, however rotated, performs exactly one wait, with nothing after it but writes to the state variable |
| `ThreadToMethod.MethodIsThread` | src/steps/to_sc_method.cpp:164-214 | with next_trigger for wait and return for continue, the method made of that superloop does what the loop does after any number of activations, in every environment |
| `ThreadToMethod.MethodPreservesThread` | src/main/inferno.cpp:167-195 | from the numbered thread to the method: what it has executed after any number of activations is what the thread has executed at some point at least as far on, delta waits in which nothing happens apart |
| `ThreadToMethod.MethodExactlyWhenSettled` | src/steps/to_sc_method.cpp:164-214 | the method does what the loop does, whatever its parts do, if and only if after each wait there is nothing left but to set the state variable |
| `FallThrough.GotoPoliciesPreserve` | src/steps/fall_out.cpp:315-415 | the goto policies may stop after any number of hits and the thread executes what the original does |
| `FallThrough.LoopIsReached` | src/main/inferno.cpp:167-180 | when the states split into five pairs the whole sequence ends in a superloop with one guard per state |
| `FallThrough.EndingBecomesLoop` | src/main/inferno.cpp:167-180 | a thread that ends in its last state, with the others in guards, becomes a superloop of all its states |
| `FallThrough.LoopPreservesThread` | src/main/inferno.cpp:167-180 | that superloop has executed, after any number of iterations, exactly what the original thread has |
| `BottomPolicy.BottomPolicyAgrees` | src/steps/fall_out.cpp:418-466 | as long as the last state is not reached, the thread before and after the bottom policy pass through the same points with the same data and log |
| `BottomPolicy.BottomPolicyDiffers` | src/steps/fall_out.cpp:418-466 | when the last state is reached the thread stops after its body, and after the policy it goes on through every following point |
| `BottomPolicy.BottomPolicyExactly` | src/steps/fall_out.cpp:418-466 | after the policy a thread always runs for ever; before it, it does so if and only if the last state is never reached |
| `BottomPolicy.ThreadThatEnds` | src/steps/fall_out.cpp:418-466 | a thread that reaches its last state |
| `OpenThread.OpenStepsIdle` | src/steps/fall_out.cpp:418-497 | while a state is in raw form the bottom, label and duplicate-label steps find nothing to do |
| `OpenThread.UnderTestImplements` | src/steps/fall_out.cpp:499-543 | with the reset code moved behind the first label, under a test of the delta count, a thread still runs the bodies of its dispatch machine in order |
| `OpenThread.PassesPreserveThread` | src/main/inferno.cpp:167-180 | whatever the thread and however many rounds it would need, what all the steps leave, a superloop or gotos, executes what the thread executes |
| `OpenThread.LoopExactlyWhenSplit` | src/main/inferno.cpp:167-180 | they leave a superloop if and only if the states split into five pairs of a combable and a yielding run |
| `ThreadChain.StatedOutIsSteady` | src/steps/state_out.cpp:17-292 | a thread without dead code that runs for ever becomes actions, perhaps a wait, an assignment to the state variable and a goto, over and over |
| `ThreadChain.NumberedIsInitial` | src/main/inferno.cpp:152-163 | that form with its labels numbered is a thread as the fall-through passes take it, and after each wait it only sets the state variable |
| `ThreadChain.NumberedPreserves` | src/main/inferno.cpp:152-163 | at every point the numbered thread has the data that the original has at a point at least a quarter as far on |
| `ThreadChain.PassesOfThread` | src/main/inferno.cpp:152-180 | from a thread with labels and conditional gotos to what all the steps leave of it: data of the original thread after every number of iterations |
| `ThreadChain.MethodOfThread` | src/main/inferno.cpp:152-195 | from such a thread to its method: data of the original thread after every number of activations, in every environment |
| `ExplicitiseReturns.ReturnsBecomeFlag` | src/steps/to_sc_method.cpp:217-286 | guarding what follows a return and clearing the flag gives the data of the early return, and the flag says whether there was one, for every program of the right form, on data of any type |
| `ExplicitiseReturns.ReturnsExactly` | src/steps/to_sc_method.cpp:217-286 | it does so whatever actions and conditions do if and only if each loop that is reached has at most one round, or cannot return, or leaves no action and no condition outside the tests of the flag |
| `ExplicitiseReturns.BlockSkips` | src/steps/to_sc_method.cpp:244-258 | once the flag is cleared the rest of a compound does nothing, conditions included |
| `ExplicitiseReturns.OthersStay` | src/steps/to_sc_method.cpp:217-286 | a statement without a return stays as it is |
| `ExplicitiseReturns.FirstReturnGuards` | src/steps/to_sc_method.cpp:244-258 | in a compound exactly the statements behind the first that contains a return are put under a test of the flag |
| `ExplicitiseReturns.ReturnsOutsideLoops` | src/steps/to_sc_method.cpp:217-286 | programs with returns outside loops only are of the right form |
| `ExplicitiseReturns.ReturnInLoop` | src/steps/to_sc_method.cpp:217-286 | a loop that returns first thing comes out right, and one that returns after an action does not |
| `SimpleCompare.Antisymmetric` | src/helpers/simple_compare.cpp:42-104 | exchanging the arguments negates the result |
| `SimpleCompare.Transitive` | src/helpers/simple_compare.cpp:42-157 | three comparisons always fit together, strictly when either step is strict |
| `SimpleCompare.LesserComesFirst` | src/helpers/simple_compare.cpp:42-60 | the lesser type or value comes first, and of two alike the node with fewer items |
| `SimpleCompare.FirstItemDecides` | src/helpers/simple_compare.cpp:62-104 | the first item that differs decides with its own sign |
| `SimpleCompare.ShorterComesFirst` | src/helpers/simple_compare.cpp:107-139 | the shorter of two sequences or collections comes first, and single children decide as their nodes do |
| `SimpleCompare.FirstElementDecides` | src/helpers/simple_compare.cpp:107-125 | of sequences of one length the first element that differs decides with its own sign |
| `SimpleCompare.FirstSortedDecides` | src/helpers/simple_compare.cpp:128-139 | of collections of one length the first element that differs once both are sorted decides with the sign reversed |
| `SimpleCompare.LexHead` | src/common/common.hpp:600-613 | the lexicographical comparison is decided by the first difference, with the sign reversed |
| `SimpleCompare.OrderingSorts` | src/helpers/simple_compare.cpp:151-157 | filling a multiset gives a sorted permutation of the collection |
| `SimpleCompare.InsertedAt` | src/helpers/simple_compare.cpp:151-157 | an element is inserted behind every element that is not greater |
| `SimpleCompare.EqualExactlyWhenSame` | src/helpers/simple_compare.cpp:42-157 | the result is 0 if and only if the trees are equal up to reordering within collections |
| `SimpleCompare.ReorderingIsInvisible` | src/helpers/simple_compare.cpp:128-139 | trees equal up to reordering compare alike with every tree |
| `SimpleCompare.TiesDoNotMatter` | src/helpers/simple_compare.cpp:128-157 | however a multiset breaks ties the comparison is the same |
| `SimpleCompare.CompareNodes` | src/helpers/simple_compare.cpp:42-104 | the early-exit loop over items computes the comparison, whose signs `LesserComesFirst` and `FirstItemDecides` give |
| `SimpleCompare.CompareCollections` | src/helpers/simple_compare.cpp:128-139 | sorting both collections and comparing both ways computes the comparison of collections |
| `SimpleCompare.FillOrdering` | src/helpers/simple_compare.cpp:151-157 | the loop fills the multiset in insertion order |
| `SimpleDuplicate.Memory.DuplicateSubtree` | src/helpers/simple_duplicate.cpp:17-73 | the duplicate stands for the same tree, is made of new nodes except specific identifiers, which it shares as they compare by identity, and nothing in memory changes |
| `SimpleDuplicate.Memory.Duplicate` | src/helpers/simple_duplicate.cpp:17-73 | the duplicate compares 0 with its source |
| `SimpleDuplicate.TreeStays` | src/helpers/simple_duplicate.cpp:17-73 | changes above a node leave the tree it stands for alone |
| `Flatten.FlattenIterator.Next` | src/helpers/flatten.cpp:108-126 | operator++ drops exactly the current pointer from what is left |
| `Flatten.Collect` | src/helpers/flatten.cpp:13-63 | iterating gives the members' pointers in order, containers spliced in |
| `Flatten.FlattenedAppend` | src/helpers/flatten.cpp:13-63 | members one after the other give their pointers one after the other |
| `Walker.WalkIterator.BypassEndOfChildren` | src/helpers/walk.cpp:124-137 | leaving finished nodes changes nothing that is left to visit |
| `Walker.WalkIterator.AdvanceInto` | src/helpers/walk.cpp:167-194 | the current link is replaced by the links below it, if it may be entered |
| `Walker.WalkIterator.AdvanceOver` | src/helpers/walk.cpp:197-213 | the current link is dropped |
| `Walker.WalkIterator.DoNodeFilter` | src/helpers/walk.cpp:254-273 | links that the filter rejects are walked through, not lost; which those are `WalkFilters.WalkPresents` says |
| `Walker.Collect` | src/helpers/walk.cpp:27-45 | iterating to the end presents exactly the recursive definition, and ends |
| `WalkSpec.WalkIsPreorder` | src/helpers/walk.cpp:39-273 | with filters without memory a walk is the filtered recursive pre-order |
| `WalkFilters.WalkPresents` | src/helpers/walk.cpp:167-273 | on an acyclic graph exactly those links are presented whose node satisfies the filter p, nulls only without one, and that hang from the root through nodes that all satisfy the filter q |
| `WalkFilters.FilterKeepsOrder` | src/helpers/walk.cpp:254-273 | they come in the order of the walk without p |
| `WalkTheorems.ParentWalkSeesEachLinkOnce` | src/helpers/walk.cpp:277-327 | on any graph, cyclic ones included, ParentWalk presents each link of each reachable node once |
| `WalkTheorems.UniqueWalkFilters` | src/helpers/walk.cpp:331-364 | UniqueWalk is the full pre-order without repeated nodes and nulls |
| `WalkTheorems.UniqueWalkSeesEachNodeOnce` | src/helpers/walk.cpp:331-364 | on an acyclic graph UniqueWalk presents each reachable node exactly once |
| `Scopes.LookUpIsNearest` | src/cplusplus/identifier_tracker.cpp:232-275 | the innermost-first walk of the scope chain finds the first of the nearest declarations |
| `Scopes.NearestIsUnique` | src/cplusplus/identifier_tracker.cpp:232-275 | nothing else is the first of the nearest |
| `Scopes.QualifiedIsExact` | src/cplusplus/identifier_tracker.cpp:232-275 | a qualified look-up finds the earliest declaration made directly in its scope, or nothing |
| `Scopes.ScopeSeesOut` | src/cplusplus/identifier_tracker.cpp:90-135 | in a scope that clang has entered and that is not one of an announced record every name means what it meant outside, up to a million nested scopes |
| `Scopes.RecordScopeSeesOut` | src/cplusplus/identifier_tracker.cpp:90-113 | in the scope of an announced record names are looked up from the record outwards, and no second scope can be opened for the announcement |
| `Scopes.SeenAlready` | src/cplusplus/identifier_tracker.cpp:116-135 | the outermost clang scope pushes nothing, and seeing a scope again changes nothing |
| `Scopes.ClosedScopeIsInvisible` | src/cplusplus/identifier_tracker.cpp:74-151 | opening a scope, anonymous or of an announced record, filling it and scopes of both kinds within it, and closing it leaves every unqualified name its meaning, unless a class that encloses the current scope is entered again |
| `Scopes.MembersAreFound` | src/cplusplus/identifier_tracker.cpp:90-151 | what is declared in a class scope is found by a qualified look-up in the record announced for it, unless the record has an earlier member of that name |
| `Scopes.DeclarationShadows` | src/cplusplus/identifier_tracker.cpp:138-151 | a declaration hides those of enclosing scopes, but not an earlier one of its own scope |
| `Scopes.DeclarationLeavesOthers` | src/cplusplus/identifier_tracker.cpp:138-151 | other names keep their meaning |
| `IdentifierTracker.IdentifierTracker.Find` | src/cplusplus/identifier_tracker.cpp:20-32 | the first TNode listed for a node |
| `IdentifierTracker.IdentifierTracker.PushScope` | src/cplusplus/identifier_tracker.cpp:34-70 | the scope of a known node, or an anonymous one outside all others, becomes current |
| `IdentifierTracker.IdentifierTracker.PopScope` | src/cplusplus/identifier_tracker.cpp:74-87 | the scope below becomes current and nothing else changes |
| `IdentifierTracker.IdentifierTracker.SetNextRecord` | src/cplusplus/identifier_tracker.hpp:91-102 | a record is announced on top of those announced, or the last announcement withdrawn, and nothing else changes |
| `IdentifierTracker.IdentifierTracker.NewScope` | src/cplusplus/identifier_tracker.cpp:90-113 | a class scope enters the record announced for it, once; any other is anonymous inside the current one |
| `IdentifierTracker.IdentifierTracker.SeenScope` | src/cplusplus/identifier_tracker.cpp:116-135 | the outermost clang scope is the global one, and a scope that is not current is new |
| `IdentifierTracker.IdentifierTracker.Add` | src/cplusplus/identifier_tracker.cpp:138-151 | the identifier is declared in the scope clang is in |
| `IdentifierTracker.IdentifierTracker.IsIdentifierMatch` | src/cplusplus/identifier_tracker.cpp:165-204 | the loop counts the scopes between the start and the candidate's scope |
| `IdentifierTracker.IdentifierTracker.TryGet` | src/cplusplus/identifier_tracker.cpp:232-275 | the flat scan for the least distance returns what the walk of the scope chain finds, in the exact scope only when qualified |

## Left out

- The Vida Nova engine, its agents and solver: each step's pattern pair is taken as the definition of the rewrite, and a pass that matches in several places is applied from the top.
- Parsing, rendering and the raising and lowering of SystemC nodes.
- CleanupStatementExpression, LogicalAndToIf, LogicalOrToIf, ConditionalOperatorToIf, CleanupNop, CleanupNestedIf: one-rule equivalences, or resting on C's unsequenced evaluation order.
- ExtractCallParams and ExplicitiseReturn: the model starts from their result, in which a call is a statement of its own and a function body ends in a return.
- Temporaries in functions that are merged: the original says that they do not survive recursion.
- A thread's automatics in function merging: a thread has one activation, so each is a single cell, whether or not it would have got an array.
- Detecting what is combable (DetectUncombableSwitch, DetectCombableFor, DetectCombableBreak): a statement without anything uncombable in it is an action in `Structured`, and an if, for or switch of that module is one that the passes lower.
- Gotos and labels that the user wrote, in `Structured`: control there is by structured statements; `CallMachine` and `StateOut` have user gotos.
- Expressions in `CallMachine` have no side effects, and labels can be stored and jumped to but not compared.
- CleanUpDeadCode on nested statements: the flat form has none, so the label that the pattern would miss inside a dead compound does not arise.
- EnsureResetYield: threads are those it leaves alone, whose reset code waits.  InsertInferredYield adds delta waits by design: thread and method are compared up to delta waits in which nothing happens.
- ThreadChain.MethodOfThread: threads without dead code, which CleanUpDeadCode removes before, that end in a goto; a goto that the user wrote right behind a wait has one destination.
- A thread that five rounds do not suffice for has no superloop and so no method; it is followed to the gotos that are left.
- LoopRotation's choice of which blocks to rotate: any rotation of guarded blocks is covered.
- TempsAndStaticsToModule, DeclsToModule, SplitInstanceDeclarations, CleanupUnusedVariables: moving and splitting declarations.
- ExplicitiseReturns: a loop has a fixed number of rounds and no condition of its own.
- SimpleCompare: null pointers, for which the original stops at the first pair of nulls, and the weaker ordering property; items of different kinds in nodes of one type, which the original asserts away, are told apart by kind.
- SimpleDuplicate.Memory.DuplicateMember: a container is filled in a variable of its own and stored once, not emptied and filled in place.
- Walk: mutation through the iterator, GetParent and GetCurrentPath; the children of a node are those of `Flatten`, and a graph does not change during a walk.
- IdentifierTracker: the fake declaration put into a clang scope; an identifier that is not found is None.
- Tracing, statistics, argument parsing and graph output.
