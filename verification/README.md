# A model of the NUbots robot code

This project models the parts of the NUbots soccer robot that decide something, and proves what they
promise. Every file declares one module.

| files | what they model |
|---|---|
| `Requests`, `Selection`, `Merge`, `Ties`, `Attempts`, `FirmSelections`, `Ordering`, `Servos` | registered actions, the selection of items by a lazy merge over per-limb lists, when priorities settle it in spite of ties, what it is whatever the ties, the limb and servo tables |
| `ControllerState`, `ControllerRuns`, `ControllerHandlers`, `ControllerTrace`, `CommandFlow`, `Dispatching`, `ControllerHistory`, `CommandAccounts`, `HandlerEffects`, `ShortCuts`, `StaleSelections`, `Controller` | the behaviour controller: its state and handlers, the invariant they keep, the trace of callbacks, the flow of servo commands and the account of every one of them, what each handler changes exactly, whole histories, when the selection goes stale, and the object itself |
| `Scripts` | scripts turned into timed commands, and what the command filter makes of them |
| `Bresenham` | the integer line rasteriser of the vision code |
| `RobotModels`, `MultiModalRobotModel`, `LocalisationEngine`, `ObservationWeights` | weighted hypotheses about where the robot is: splitting, weighting, merging, pruning, normalising |
| `GameController`, `GameDetails`, `GameScores` | consecutive referee packets turned into a published state and events, everything a packet announces and publishes, and what becomes of the scores |
| `RigidMotions`, `Transform` | rigid motions as matrices, and the 4x4 matrix changed in place by its builders |
| `Poses`, `FootPlacement`, `Velocities`, `Gaits`, `GaitSafety`, `StanceBox`, `StraightSteps`, `StepTargets`, `WalkEngine` | planar poses, where a swinging foot is put down, the velocity limiter, the gait automaton and the walk engine |

The pattern is the same throughout. What an operation does to the state is a function; the class or
method that works in place is proved to compute that function; and what the program is for is proved
about the functions, over all inputs and all histories. A history of the controller starts at the
selection its Startup handler makes. Callbacks and messages are entries of a trace, and time, the
filter that tracks a pose, the cosine and sine of an angle and the square root are parameters.

The hard results, in short:

* The lazy merge over limb lists, which drops lists on the way and may meet an item once per limb,
  selects what every greedy pass over all items in descending priority selects, whichever of equals
  comes first, exactly when the priorities settle the selection: some selection without conflicts is
  stable and holds no companion of its main item's priority.
* Whatever the ties, the merge chooses the one firm selection: the items that earn a place in it when
  attempts are taken by priority, then limb, then place in the limb's list. So a selection made twice is
  made once.
* When skipping the selection after priority updates is sound, exactly: over every history, with whatever
  ties, selecting anew changes nothing exactly when every selected item is still in reach of its main item
  and neither a companion of a selected item nor an item of a group registered since waits. Ties between
  groups never break it; ties of a companion with its main item do.
* Replaying all kill and start callbacks gives exactly the limb table, with every kill naming the
  holder and every start finding its limbs free.
* What is sent to a servo is, in order and without repetition, among what was accepted for it; and the
  account of commands balances over every history: each is sent, waits still, or was lost because it was
  due before its turn came, was replaced by one for an earlier time, or its sender lost the limb.
* The rasterised line from b to a is the reverse of the one from a to b, and its points are the
  nearest ones to the ideal line.
* The imperative merge of hypotheses computes a partition into clusters around their heaviest members
  and conserves weight; every round keeps a normalised, non-empty, bounded set. Every copy of a hypothesis
  is weighted by every quality it met with, so that copies are weighted in the ratio of their fits.
* The events emitted for referee packets replay to the packets' penalties and half, and the published
  scores are those of the packets exactly while no score rises. For every event it is said exactly when a
  packet announces it, and for every published field what becomes of it.
* Matrices built from the identity stay rigid, and the closed forms equal their chains.
* The robot takes exactly one more step after a stop and halts once two updates have come late, stands
  with its feet together, never crosses them, puts them down within the stance box under the settings
  shipped, steps with alternate feet and keeps its velocity within limits. Told to go forwards it marks time
  for two steps and then puts every foot ahead of the other.

## Model

| member | source | states |
|---|---|---|
| Selection.NoEnvy | modules/behaviour/Controller/src/Controller.cpp:249-322 | whatever the ties, a pass over descending items selects items with disjoint limbs, each with its group's main item, and every item left out shares a limb with a selected one of at least its priority (or its main item is out) |
| Selection.StableIsUnique | modules/behaviour/Controller/src/Controller.cpp:292-321 | ties or not, there is at most one stable selection: one in which an item is in exactly if its main item is and no selected item that outranks it, by a greater priority or as its main item by one as great, takes its limbs |
| Selection.EnvyFreeIsSettled | modules/behaviour/Controller/src/Controller.cpp:292-321 | when a selection settles the priorities, every selection without conflicts or envy, such as any pass leaves, has its items |
| Selection.UncontestedSettles | modules/behaviour/Controller/src/Controller.cpp:292-321 | where items of one priority share no limb and none is the main item of another, however many tie, a selection without envy settles the priorities |
| Selection.FavouringKeepsStable | modules/behaviour/Controller/src/Controller.cpp:95-123 | if no selected item falls, no other rises and main items stay, a stable selection stays stable |
| Selection.FavouringKeepsMainsContent | modules/behaviour/Controller/src/Controller.cpp:95-123 | even with ties such an update leaves no main item envious |
| Merge.StableSortSorts | modules/behaviour/Controller/src/Controller.cpp:242-247 | sorting a limb's list gives a descending rearrangement that keeps items of one priority in their order |
| Merge.Best | modules/behaviour/Controller/src/Controller.cpp:271-285 | the list attempted next is the first of those whose head has the greatest priority, and none exactly when all are empty |
| Merge.DroppedListsAreIdle | modules/behaviour/Controller/src/Controller.cpp:287-321 | erasing the lists of limbs already taken does not change what is chosen |
| Merge.OrderHasAllItems | modules/behaviour/Controller/src/Controller.cpp:268-321 | the merge attempts exactly the items of the lists |
| Merge.OrderIsDescending | modules/behaviour/Controller/src/Controller.cpp:268-285 | it attempts them in descending priority |
| Merge.ChosenIsEnvyFree | modules/behaviour/Controller/src/Controller.cpp:240-322 | with or without ties the chosen items are registered and compatible and no registered item envies them |
| Merge.ChosenIsStable | modules/behaviour/Controller/src/Controller.cpp:240-322 | when the priorities settle the selection, the lazy merge chooses the one stable selection |
| Merge.LazyMergeIsGreedy | modules/behaviour/Controller/src/Controller.cpp:240-322 | then it chooses the same items as any greedy pass over all items in descending priority |
| Merge.UncontestedIsSettled | modules/behaviour/Controller/src/Controller.cpp:240-322 | uncontested priorities are settled, by what the merge chooses |
| Ties.GreedyExactlyWhenSettled | modules/behaviour/Controller/src/Controller.cpp:240-322 | all greedy passes over the items in descending priority agree with the lazy merge exactly when the priorities settle the selection |
| Ties.TiesAreNotGreedy | modules/behaviour/Controller/src/Controller.cpp:272-285 | two tied groups for which the merge chooses otherwise than a greedy pass, and whose priorities settle nothing |
| Attempts.PassIsFirm | modules/behaviour/Controller/src/Controller.cpp:292-321 | whatever order and repetitions the attempts come in, a pass accepts exactly the items attempted, after their main item, when no accepted item attempted before shares a limb |
| Attempts.AttemptsInOrder | modules/behaviour/Controller/src/Controller.cpp:271-285 | the merge makes its attempts by descending priority, equals by ascending limb, and equals of one limb by their place in its list |
| FirmSelections.ChosenIsFirm | modules/behaviour/Controller/src/Controller.cpp:240-322 | whatever the ties, the merge chooses a firm selection: an item is in exactly if its main item is and, attempted for some limb after that item, it shares no limb with a selected item attempted sooner |
| FirmSelections.FirmIsUnique | modules/behaviour/Controller/src/Controller.cpp:240-322 | whatever the ties, there is only one firm selection |
| FirmSelections.FavouringKeepsOutdone | modules/behaviour/Controller/src/Controller.cpp:95-123 | if no selected item falls, no other rises and main items stay, an item that is kept out for every limb by its main item, a greater selected item or one as great attempted sooner stays so |
| Ordering.SortRefsSorts | modules/behaviour/Controller/src/Controller.cpp:336-351 | sorting the new items by group and index rearranges them in ascending order |
| Ordering.Difference | modules/behaviour/Controller/src/Controller.cpp:364-372 | exactly the items of one list that are not in the other, and in sorted order if that list is |
| Servos.TablesAreInverse | shared/messages/behaviour/Action.cpp:27-110 | a servo belongs to a limb's set exactly when the limb is the servo's |
| ControllerState.FirstMax | modules/behaviour/Controller/src/Controller.cpp:68-76 | the main element is the first of the greatest priorities |
| ControllerRuns.SoundMainIsTop | modules/behaviour/Controller/src/Controller.cpp:68-76 | the main item of every registered group has the group's greatest priority |
| ControllerRuns.SelectKeepsReady | modules/behaviour/Controller/src/Controller.cpp:240-411 | a selection keeps the registry, the index of limbs, the flags and the queues in order |
| ControllerRuns.SelectEstablishes | modules/behaviour/Controller/src/Controller.cpp:240-411 | after a selection selected items are compatible, the limb table names their owners, and every queue is sorted, from its holder and only in front possibly sent |
| ControllerRuns.ClearingIsSound | modules/behaviour/Controller/src/Controller.cpp:394-399 | emptying the queues of the killed limbs leaves every queue with the new holder of its limb |
| ControllerHandlers.RegisterKeepsReady | modules/behaviour/Controller/src/Controller.cpp:41-77 | registering a group keeps all of that |
| ControllerHandlers.UpdateKeepsInv | modules/behaviour/Controller/src/Controller.cpp:85-125 | so does a priority update, whether or not it selects anew |
| ControllerHandlers.FilterIsSound | modules/behaviour/Controller/src/Controller.cpp:136-155 | so does the command filter, exactly when it accepts no command of source 0 |
| ControllerHandlers.DispatchKeepsInv | modules/behaviour/Controller/src/Controller.cpp:157-194 | so does the dispatcher |
| ControllerHandlers.CompletionsAreForHolders | modules/behaviour/Controller/src/Controller.cpp:196-216 | completed callbacks go exactly to the holders of limbs whose servos ran out, with all those servos, and each holder is registered |
| ControllerTrace.SwitchReplays | modules/behaviour/Controller/src/Controller.cpp:353-407 | replaying the kills and starts of any change of items turns the old limb table into the new one |
| ControllerTrace.SelectReplays | modules/behaviour/Controller/src/Controller.cpp:324-410 | the callbacks of a selection replay to its limb table: kills name the holder, starts find limbs free |
| CommandFlow.FilterFlows | modules/behaviour/Controller/src/Controller.cpp:138-154 | what waits for a servo after filtering is, in order, among what waited before and what was accepted |
| CommandFlow.DispatchFlows | modules/behaviour/Controller/src/Controller.cpp:162-194 | what is sent and what still waits is, in order, among what waited |
| CommandFlow.SelectFlows | modules/behaviour/Controller/src/Controller.cpp:388-400 | a selection sends no command and adds none |
| CommandFlow.SelectEffects | modules/behaviour/Controller/src/Controller.cpp:388-407 | a selection only kills and starts, and only registered groups |
| Dispatching.DispatchServes | modules/behaviour/Controller/src/Controller.cpp:162-194 | of every queue a front due before now is dropped; the front then left, unless it was sent before, is sent with its time, servo, position and gain, exactly once, and marked; and nothing else changes |
| Dispatching.DispatchSendsOnce | modules/behaviour/Controller/src/Controller.cpp:176-216 | the targets go out in one message, before any completion, and no message is empty |
| Dispatching.SelectClears | modules/behaviour/Controller/src/Controller.cpp:388-400 | a selection empties exactly the queues of the servos whose limb an item loses that was selected and is no longer |
| Dispatching.UpdateClears | modules/behaviour/Controller/src/Controller.cpp:85-125 | and so does a priority update |
| Dispatching.SelectCalls | modules/behaviour/Controller/src/Controller.cpp:364-407 | a group is killed exactly for the limbs its items lose, all at once, and started exactly for those they gain; an item that stays is neither killed nor started |
| Dispatching.SelectCallsInTurn | modules/behaviour/Controller/src/Controller.cpp:388-407 | all kills come before all starts, and both by ascending group |
| CommandAccounts.StepAccounts | modules/behaviour/Controller/src/Controller.cpp:136-194 | in one event everything that waited for a servo or was accepted for it is sent, waits still, or is lost because it was due in front before now, a command for an earlier time replaced it, or its sender lost the limb |
| CommandAccounts.RunAccounts | modules/behaviour/Controller/src/Controller.cpp:136-194 | and so over every history, nothing counted twice |
| HandlerEffects.RegisterAdds | modules/behaviour/Controller/src/Controller.cpp:41-77 | a group is registered with exactly the items proposed, unless its id is 0 or taken, when nothing changes; no other item is touched |
| HandlerEffects.RegisterLists | modules/behaviour/Controller/src/Controller.cpp:58-66 | its items go to the ends of the lists of the limbs they need, in their order |
| HandlerEffects.StoredIs | modules/behaviour/Controller/src/Controller.cpp:89-118 | exactly the priorities given are stored, and the main item is the first of the greatest |
| HandlerEffects.UpdateSelectsExactly | modules/behaviour/Controller/src/Controller.cpp:95-123 | a priority update selects anew exactly when it moves the main item, takes a selected item down or another one up |
| HandlerEffects.FilterOne | modules/behaviour/Controller/src/Controller.cpp:138-152 | a command from the holder of its limb goes behind the last one that is not later, those behind that one are dropped, and any other command changes nothing |
| HandlerEffects.FilterInTurn | modules/behaviour/Controller/src/Controller.cpp:138-154 | commands are filtered one after the other |
| ControllerHistory.StepKeepsInv | modules/behaviour/Controller/src/Controller.cpp:41-216 | every handler keeps the invariant |
| ControllerHistory.RunReplays | modules/behaviour/Controller/src/Controller.cpp:324-410 | over every history the callbacks replay to the limb table |
| ControllerHistory.RunNamesKnown | modules/behaviour/Controller/src/Controller.cpp:212-214 | every callback of a history names a registered group |
| ControllerHistory.RunSendsOnce | modules/behaviour/Controller/src/Controller.cpp:146-194 | over every history what is sent to a servo is, in order and each at most once, among what was accepted for it |
| ShortCuts.SelectIsStable | modules/behaviour/Controller/src/Controller.cpp:240-411 | a selection made when the priorities settle it leaves the controller with the stable selection |
| ShortCuts.SelectLeavesNoEnvy | modules/behaviour/Controller/src/Controller.cpp:240-411 | after any selection no registered item envies the current ones |
| ShortCuts.SkippedUpdateFavours | modules/behaviour/Controller/src/Controller.cpp:95-118 | when the update handler does not select anew, selected items did not fall, others did not rise and main items stayed |
| ShortCuts.RunStaysStable | modules/behaviour/Controller/src/Controller.cpp:85-125 | over every history the last selection, if the priorities settled it, stays stable for the groups it considered |
| ShortCuts.RunLeavesMainsContent | modules/behaviour/Controller/src/Controller.cpp:85-125 | over every history, ties or not, no main item considered so far is envious |
| ShortCuts.SelectIsFirm | modules/behaviour/Controller/src/Controller.cpp:240-411 | after a selection, whatever the ties, the current items are the firm selection |
| ShortCuts.FirmIsFresh | modules/behaviour/Controller/src/Controller.cpp:240-411 | selecting anew changes nothing exactly when the current items are the firm selection |
| ShortCuts.SelectIsIdempotent | modules/behaviour/Controller/src/Controller.cpp:240-411 | selecting twice leaves the items and the limb table as selecting once does |
| ShortCuts.RunKeepsOutdone | modules/behaviour/Controller/src/Controller.cpp:85-125 | over every history, ties or not, the main items the last selection left out stay outdone, and so do the companions of selected items if that selection was led |
| ShortCuts.ShortcutIsExact | modules/behaviour/Controller/src/Controller.cpp:85-125 | after every history, with whatever ties, selecting anew changes nothing exactly when every selected item is in reach of its main item and no companion of a selected item, nor an item of a group registered since the last selection, earns a place |
| ShortCuts.LedShortcutIsExact | modules/behaviour/Controller/src/Controller.cpp:85-125 | if the last selection left out no companion as great as its selected main item, unless it shares a limb with that item or with a greater selected one, and in the end the selected companions are below their main items, selecting anew changes nothing exactly when selected items shut out every group registered since |
| ShortCuts.ShortcutIsSound | modules/behaviour/Controller/src/Controller.cpp:95-123 | so when no group was registered since, neither the items nor the limb table would change, whatever ties there are between groups |
| ShortCuts.SettledSelectionIsLed | modules/behaviour/Controller/src/Controller.cpp:240-322 | a selection that the priorities settle meets both conditions |
| StaleSelections.RegistrationLeavesStale | modules/behaviour/Controller/src/Controller.cpp:41-77 | after start-up with a group that holds the head, registering one of greater priority that needs it leaves a selection that selecting anew would change |
| StaleSelections.TiedCompanionWaits | modules/behaviour/Controller/src/Controller.cpp:95-123 | a companion as great as its main item, on a smaller limb, is left out; when the main item rises nothing is selected, although the companion would be |
| StaleSelections.RisenCompanionStays | modules/behaviour/Controller/src/Controller.cpp:95-123 | a selected companion that rises to the priority of its main item keeps its place, although selecting anew would drop it |
| ControllerHistory.BootIsReady | modules/behaviour/Controller/src/Controller.cpp:79-83 | the first selection establishes the invariant from any limb table, and its callbacks replay from all limbs free |
| ControllerHistory.EveryRunIsSound | modules/behaviour/Controller/src/Controller.cpp:39-217 | from start-up, any registrations and any history: the invariant holds, and all callbacks, those of the first selection included, replay to the limb table and name registered groups |
| ControllerHistory.QueuedCommandsAreHeld | modules/behaviour/Controller/src/Controller.cpp:136-216 | a queued command is for its queue's servo, from the holder of its limb or the sent one in front, the holder is registered, and the queue is in order of time |
| ControllerHistory.SourceZeroIsAccepted | modules/behaviour/Controller/src/Controller.cpp:136-155 | after start-up without groups a command of source 0 for the head is queued, which breaks the invariant |
| ControllerObject.HasLimbs | modules/behaviour/Controller/src/Controller.cpp:219-238 | the merge-like walk over two sorted sets decides inclusion |
| ControllerObject.Controller.constructor | modules/behaviour/Controller/src/Controller.h:99-112 | an empty controller is ready for its first selection |
| ControllerObject.Controller.SortActions | modules/behaviour/Controller/src/Controller.cpp:242-247 | every limb's list becomes its stable sort |
| ControllerObject.Controller.LargestHead | modules/behaviour/Controller/src/Controller.cpp:271-285 | the limb found is that of the first greatest head, or one with an empty list when all are |
| ControllerObject.Controller.ConsiderNext | modules/behaviour/Controller/src/Controller.cpp:269-322 | one round of the loop accepts, skips or drops what the specified pass does |
| ControllerObject.Controller.ChooseItems | modules/behaviour/Controller/src/Controller.cpp:255-322 | the whole loop chooses the specified items and flags exactly those |
| ControllerObject.Controller.GrantLimbs | modules/behaviour/Controller/src/Controller.cpp:324-334 | each limb goes to the group of the item that needs it, or to 0 |
| ControllerObject.Controller.KillAll | modules/behaviour/Controller/src/Controller.cpp:388-400 | kill callbacks are made by ascending id and the queues of their limbs emptied |
| ControllerObject.Controller.StartAll | modules/behaviour/Controller/src/Controller.cpp:402-407 | start callbacks are made by ascending id |
| ControllerObject.Controller.Choose | modules/behaviour/Controller/src/Controller.cpp:242-322 | sorting, clearing the flags and choosing leave the specified lists and flags and give the specified items |
| ControllerObject.Controller.SelectAction | modules/behaviour/Controller/src/Controller.cpp:240-411 | the new state and the callbacks are those of the specified selection |
| ControllerObject.Controller.RegisterAction | modules/behaviour/Controller/src/Controller.cpp:41-77 | a group is registered and listed under its limbs, unless its id is 0 or taken, when nothing changes |
| ControllerObject.Controller.Startup | modules/behaviour/Controller/src/Controller.cpp:79-83 | the first selection establishes the invariant |
| ControllerObject.Controller.UpdatePriorities | modules/behaviour/Controller/src/Controller.cpp:85-125 | priorities are stored and the selection made anew exactly when specified |
| ControllerObject.Controller.CommandFilter | modules/behaviour/Controller/src/Controller.cpp:136-155 | accepted commands replace the later ones of their queues |
| ControllerObject.Controller.ServeAll | modules/behaviour/Controller/src/Controller.cpp:159-194 | every queue drops an expired front and sends the next one once |
| ControllerObject.Controller.DispatchCommands | modules/behaviour/Controller/src/Controller.cpp:157-216 | the new queues, the targets sent and the completed callbacks are those specified, in order |
| ControllerObject.Controller.Handle | modules/behaviour/Controller/src/Controller.cpp:41-216 | every message goes to its handler, with the specified state and effects |
| ControllerObject.Controller.HandleAll | modules/behaviour/Controller/src/Controller.cpp:41-216 | whatever messages reach it, one after the other, the controller goes through the specified history, with its effects |
| Scripts.ExecuteScript | modules/motion/ScriptEngine/src/ScriptEngine.cpp:61-86 | the commands of all frames in order, each at the end of its frame |
| Scripts.CommandsExactly | modules/motion/ScriptEngine/src/ScriptEngine.cpp:61-86 | the command of the j-th target of the k-th frame comes behind those of all earlier frames, at the start time plus all durations up to its own, with its servo, position and gain |
| Scripts.SumIsList | shared/messages/motion/Script.h:50-55 | a sum of two scripts stands for the two scripts one after the other, anywhere in a list |
| Scripts.PushedStandInOrder | modules/behaviour/Controller/src/Controller.cpp:146-152 | pushed commands end up as they were, after what was not later than the first, exactly when they come in order of time |
| Scripts.ScriptThroughFilter | modules/behaviour/Controller/src/Controller.cpp:136-155 | a script sent through the filter leaves an owned servo's old commands not later than its first target, followed by exactly its targets in order, exactly when these come in order of time, as they do when no frame takes negative time; and every other queue as it was |
| Bresenham.BresenhamLine | shared/utility/vision/QuexClassifier.h:32-67 | the loop computes the line given in closed form |
| Bresenham.LineJoinsEnds | shared/utility/vision/QuexClassifier.h:46-66 | the line begins at the start and ends exactly at the end |
| Bresenham.LineIsConnected | shared/utility/vision/QuexClassifier.h:52-62 | each point is one step along the major axis from the one before and at most one along the other |
| Bresenham.LineIsNearest | shared/utility/vision/QuexClassifier.h:51-62 | a point in the k-th place is on the line exactly when it is within half a pixel of the ideal line, a tie going by the direction of the major axis |
| Bresenham.LineIsReversible | shared/utility/vision/QuexClassifier.h:49-62 | the line from the end to the start is the reverse of the line from the start to the end |
| Bresenham.ErrorIsBounded | shared/utility/vision/QuexClassifier.h:51-59 | the error variable stays within twice the extents of the line |
| RobotModels.MergePartitions | modules/localisation/MMKFRobotLocalisation/src/MultiModalRobotModel.cpp:316-374 | the hypotheses are partitioned into clusters, each absorbed one similar to its heaviest, each survivor that one with the cluster's weight, and no survivor similar to a later one |
| RobotModels.MergeConserves | modules/localisation/MMKFRobotLocalisation/src/MultiModalRobotModel.cpp:316-374 | merging conserves the total weight |
| RobotModels.SortByWeight | modules/localisation/MMKFRobotLocalisation/src/MultiModalRobotModel.cpp:318-323 | sorting by weight rearranges in ascending order |
| RobotModels.NormalisedTotal | modules/localisation/MMKFRobotLocalisation/src/MultiModalRobotModel.cpp:399-413 | normalised weights sum to 1 exactly when the weights did not sum to 0 |
| RobotModels.SimilarExactly | modules/localisation/MMKFRobotLocalisation/src/MultiModalRobotModel.cpp:296-312 | two hypotheses are similar when they are less than the one limit apart and the heading of the first is less than the other limit ahead |
| MultiModalRobotModels.SplitMeetsAll | modules/localisation/MMKFRobotLocalisation/src/MultiModalRobotModel.cpp:193-227 | an ambiguous observation meets every hypothesis with every possibility, each in its place |
| MultiModalRobotModels.SplitMeetsOnly | modules/localisation/MMKFRobotLocalisation/src/MultiModalRobotModel.cpp:193-227 | and every place of the result is that of one hypothesis and one possibility |
| ObservationWeights.CopyIsWeighted | modules/localisation/MMKFRobotLocalisation/src/MultiModalRobotModel.cpp:193-227 | a copy has the filter that all measurements of its set of objects, one after the other, lead to, and its weight times every quality met with on the way |
| ObservationWeights.OneSightingWeighs | modules/localisation/MMKFRobotLocalisation/src/MultiModalRobotModel.cpp:155-182 | for one measurement of one object a copy has the weight times the quality of that measurement, and one observation more |
| ObservationWeights.WeightsInRatio | modules/localisation/MMKFRobotLocalisation/src/MultiModalRobotModel.cpp:193-227 | two copies of one hypothesis have weights in the ratio of the products of their qualities |
| MultiModalRobotModels.PruningIsSound | modules/localisation/MMKFRobotLocalisation/src/MultiModalRobotModel.cpp:287-294 | merging, pruning and normalising keep positive weights summing to 1, at most the configured number, and none lost altogether |
| ObservationWeights.PrunedKeepsShares | modules/localisation/MMKFRobotLocalisation/src/MultiModalRobotModel.cpp:287-413 | the heaviest are kept, exactly as many as allowed, and normalising keeps the ratios of their weights and everything else |
| MultiModalRobotModels.MultiModalRobotModel.AmbiguousMeasurementUpdate | modules/localisation/MMKFRobotLocalisation/src/MultiModalRobotModel.cpp:193-227 | the loop that pops hypotheses and pushes their splits computes the specified split |
| MultiModalRobotModels.MultiModalRobotModel.AbsorbSimilar | modules/localisation/MMKFRobotLocalisation/src/MultiModalRobotModel.cpp:338-360 | on ascending non-negative weights the leader absorbs exactly the similar ones left and is never absorbed itself |
| MultiModalRobotModels.MultiModalRobotModel.MergeSorted | modules/localisation/MMKFRobotLocalisation/src/MultiModalRobotModel.cpp:325-373 | the loops that flag, move out and pop compute the merge, and lose no hypothesis still needed |
| MultiModalRobotModels.MultiModalRobotModel.MergeSimilarModels | modules/localisation/MMKFRobotLocalisation/src/MultiModalRobotModel.cpp:316-374 | hypotheses of non-negative weight are replaced by a merge of them |
| MultiModalRobotModels.MultiModalRobotModel.PruneViterbi | modules/localisation/MMKFRobotLocalisation/src/MultiModalRobotModel.cpp:380-394 | at most the given number is kept, each of at least the weight of any that is dropped |
| MultiModalRobotModels.MultiModalRobotModel.NormaliseAlphas | modules/localisation/MMKFRobotLocalisation/src/MultiModalRobotModel.cpp:399-413 | weights are divided by their sum |
| MultiModalRobotModels.MultiModalRobotModel.PruneModels | modules/localisation/MMKFRobotLocalisation/src/MultiModalRobotModel.cpp:287-294 | the three steps one after the other |
| LocalisationEngine.MMKFRobotLocalisationEngine.GetPossibleObjects | modules/localisation/MMKFRobotLocalisation/src/MMKFRobotLocalisationEngine.cpp:80-105 | the goal posts an observed side may stand for |
| LocalisationEngine.MMKFRobotLocalisationEngine.ProcessAmbiguousObjects | modules/localisation/MMKFRobotLocalisation/src/MMKFRobotLocalisationEngine.cpp:123-159 | the hypotheses are split over the observed goals, as a pair or one by one, and pruned |
| LocalisationEngine.ProcessingIsSound | modules/localisation/MMKFRobotLocalisation/src/MMKFRobotLocalisationEngine.cpp:123-159 | a round keeps between one hypothesis and the configured number, with weights summing to 1, exactly when there was one and every side observed is a declared one; otherwise there is none left |
| LocalisationEngine.UndeclaredSideLosesAll | modules/localisation/MMKFRobotLocalisation/src/MMKFRobotLocalisationEngine.cpp:123-159 | one goal on a side that is not declared costs a lone hypothesis of weight 1, whatever the filter makes of it |
| LocalisationEngine.RunsAreSound | modules/localisation/MMKFRobotLocalisation/src/MMKFRobotLocalisationEngine.cpp:80-159 | so does every sequence of rounds exactly as long as all sides are declared, and from the first that is not there is no hypothesis |
| ObservationWeights.PostsSeen | modules/localisation/MMKFRobotLocalisation/src/MMKFRobotLocalisationEngine.cpp:80-105 | a goal seen on one side may be the posts of that side, one whose side is unknown any post, and none is yellow when all goals are blue; each is listed once |
| ObservationWeights.WhichWay | modules/localisation/MMKFRobotLocalisation/src/MMKFRobotLocalisationEngine.cpp:107-159 | a goal on the left and one on the right are looked at together if that is enabled, not at all if only the angle is, and otherwise goals are looked at one by one |
| ObservationWeights.LoneGoalWeighs | modules/localisation/MMKFRobotLocalisation/src/MMKFRobotLocalisationEngine.cpp:147-155 | a lone goal weights each hypothesis, for every post it may be, by how well it fits that post |
| ObservationWeights.PairWeighs | modules/localisation/MMKFRobotLocalisation/src/MMKFRobotLocalisationEngine.cpp:126-146 | a pair weights each by the left goal taken as a left post and the right one as the right post of the same colour |
| ObservationWeights.GoalsWeigh | modules/localisation/MMKFRobotLocalisation/src/MMKFRobotLocalisationEngine.cpp:147-155 | of goals looked at one by one each hypothesis left takes each goal as a post it may be, and is weighted by every quality met with |
| GameControl.FirstTeam | modules/input/GameController/src/GameController.cpp:585-605 | our team is one with our id, the opponent one without, and neither is found exactly when there is none |
| GameControl.ReplayNeutral | modules/input/GameController/src/GameController.cpp:216-244 | events about scores, coaches, the ball, colours, modes and phases leave the table of penalties as it is |
| GameControl.PlayerChangesReplay | modules/input/GameController/src/GameController.cpp:250-340 | the events about players turn the old packet's penalties into the new one's, player by player |
| GameControl.ChangesReplay | modules/input/GameController/src/GameController.cpp:250-369 | all events of an accepted packet turn the old packet's penalties and half into its own |
| GameControl.RunReplays | modules/input/GameController/src/GameController.cpp:183-201 | over every sequence of arrivals the events replay to the last accepted packet's penalties and half |
| GameControl.ReceivedAgrees | modules/input/GameController/src/GameController.cpp:250-459 | after every packet the published penalty reasons, half and, unless an unknown one was left behind, mode agree with the last accepted packet and the mode kept |
| GameControl.ModeFollows | modules/input/GameController/src/GameController.cpp:429-459 | outside timeouts the mode is the packet's; going into, during and coming out of one it stays |
| GameControl.UnknownModeSticks | modules/input/GameController/src/GameController.cpp:433-456 | a packet refused for an unknown mode leaves that mode behind exactly when it got that far |
| GameControl.ReceivedPhase | modules/input/GameController/src/GameController.cpp:461-541 | the published phase is the packet's state, or a timeout not yet overridden |
| GameControl.PhaseShowsTimeouts | modules/input/GameController/src/GameController.cpp:461-475 | the published phase is a timeout just when the mode is, exactly unless the state byte changes within a timeout |
| GameControl.RunAgrees | modules/input/GameController/src/GameController.cpp:203-555 | over every sequence of arrivals the published state agrees with the last accepted packet |
| GameControl.StartsInStep | modules/input/GameController/src/GameController.cpp:76-125 | the initial packet and state agree, unless our team id is 0, when no packet is ever accepted |
| GameControl.EveryRunIsInStep | modules/input/GameController/src/GameController.cpp:183-201 | from the set-up on, events and published state stay in step with the packets |
| GameDetails.AnnouncedExactly | modules/input/GameController/src/GameController.cpp:203-555 | for every event, whether an accepted packet announces it: penalties with their ends, goals, messages, halves, kick-outs and kick-offs with the right side, colours, modes, phases with their times |
| GameDetails.PublishedExactly | modules/input/GameController/src/GameController.cpp:203-555 | the published kick-off, kick-out, phase, times and messages follow exactly what changed, and the rosters with their penalty ends are the packet's exactly if anything is announced |
| GameDetails.NoticesExactly | modules/input/GameController/src/GameController.cpp:216-219 | before them come the scores when one changed and the phase when the state is looked at, and nothing else |
| GameDetails.AcceptsExactly | modules/input/GameController/src/GameController.cpp:203-456 | a packet is processed to its end exactly when both teams are found, no penalty is an undeclared one and no undeclared mode is looked at |
| GameDetails.RefusedExactly | modules/input/GameController/src/GameController.cpp:183-201 | a refused packet leaves no more behind than the scores announced and its mode |
| GameDetails.ReceivedShowsSides | modules/input/GameController/src/GameController.cpp:376-411 | who kicks off and who kicked out stay published as the packet has them exactly unless our colour swaps without another kick-off or kick-out |
| GameDetails.SidesShownWhileNoneSwaps | modules/input/GameController/src/GameController.cpp:376-411 | and so over every sequence of arrivals |
| GameDetails.ColoursSwapUnseen | modules/input/GameController/src/GameController.cpp:376-411 | a packet in which the teams have swapped colours leaves the kick-off published as ours |
| GameScores.ScoresFollowDrops | modules/input/GameController/src/GameController.cpp:216-244 | after an accepted packet a published score is the packet's exactly if it is lower than in the packet before or was published already, and a goal is announced exactly when a score drops |
| GameScores.ShownWhileNoneRises | modules/input/GameController/src/GameController.cpp:216-244 | over every sequence of arrivals the published scores stay those of the packets exactly while no accepted packet raises a score |
| GameScores.FirstGoalIsMissed | modules/input/GameController/src/GameController.cpp:216-230 | a first goal, from 0 to 1, is neither published nor announced |
| GameScores.UndeclaredModeStays | modules/input/GameController/src/GameController.cpp:429-459 | a first packet whose mode nobody declared is refused and leaves that mode behind |
| GameScores.TimeoutIsForgotten | modules/input/GameController/src/GameController.cpp:461-541 | a change from READY to SET within a timeout publishes a phase that is no longer the timeout |
| GameControl.GameController.constructor | modules/input/GameController/src/GameController.cpp:76-125 | the packet, mode and state set up |
| GameControl.GameController.FindTeam | modules/input/GameController/src/GameController.cpp:585-605 | the loops find the first team with, or without, our id |
| GameControl.GameController.ProcessPlayers | modules/input/GameController/src/GameController.cpp:250-340 | the loop rebuilds both rosters and collects the changes, and stops at an unknown penalty |
| GameControl.GameController.Process | modules/input/GameController/src/GameController.cpp:203-555 | an accepted packet gives the specified state and events; a refused one leaves a score notice and, if reached, its mode |
| GameControl.GameController.Receive | modules/input/GameController/src/GameController.cpp:186-200 | only accepted packets of the supported version are kept |
| GameControl.GameController.Listen | modules/input/GameController/src/GameController.cpp:183-201 | the loop that receives one packet after the other leaves what the specified run over all arrivals leaves |
| RigidMotions.BuiltIsRigid | modules/motion/WalkEngine/src/Transform.cpp:18-108 | any sequence of builders from the identity gives orthonormal, right-handed columns and orthonormal rows |
| RigidMotions.StepsMultiply | modules/motion/WalkEngine/src/Transform.cpp:30-108 | building on with more builders multiplies from the right by what they build on their own |
| RigidMotions.ProductApplied | modules/motion/WalkEngine/src/Transform.cpp:110-148 | applying a product is applying its factors one after the other |
| RigidMotions.ProductAssociates | modules/motion/WalkEngine/src/Transform.cpp:139-148 | products associate |
| RigidMotions.InverseFromLeft | modules/motion/WalkEngine/src/Transform.cpp:150-161 | the inverse undoes from the left exactly when the columns are orthonormal |
| RigidMotions.InverseFromRight | modules/motion/WalkEngine/src/Transform.cpp:150-161 | and from the right exactly when the rows are |
| RigidMotions.RigidKeepsDistance | modules/motion/WalkEngine/src/Transform.cpp:110-121 | a rigid motion keeps distances and is undone by its inverse |
| RigidMotions.DenavitHartenbergIsMatrix | modules/motion/WalkEngine/src/Transform.cpp:94-108 | the four builders multiply by the matrix in the comment |
| RigidMotions.SixDIsChain | modules/motion/WalkEngine/src/Transform.cpp:163-186 | the twelve entries are those of the chain translate, rotate z, rotate y, rotate x, and rigid |
| Transforms.Transform.constructor | modules/motion/WalkEngine/src/Transform.cpp:4-6 | a new transform is the identity |
| Transforms.Transform.Clear | modules/motion/WalkEngine/src/Transform.cpp:18-28 | so is a cleared one |
| Transforms.Transform.Translate | modules/motion/WalkEngine/src/Transform.cpp:30-35 | the matrix is translated in place |
| Transforms.Transform.TranslateX | modules/motion/WalkEngine/src/Transform.cpp:37-42 | as is a translation along x |
| Transforms.Transform.TranslateY | modules/motion/WalkEngine/src/Transform.cpp:44-49 | as is one along y |
| Transforms.Transform.TranslateZ | modules/motion/WalkEngine/src/Transform.cpp:51-56 | as is one along z |
| Transforms.Transform.RotateX | modules/motion/WalkEngine/src/Transform.cpp:58-68 | the loop over the rows turns the matrix about x |
| Transforms.Transform.RotateY | modules/motion/WalkEngine/src/Transform.cpp:70-80 | about y |
| Transforms.Transform.RotateZ | modules/motion/WalkEngine/src/Transform.cpp:82-92 | about z |
| Transforms.Transform.MDH | modules/motion/WalkEngine/src/Transform.cpp:94-108 | the matrix is multiplied by the one in the comment |
| Transforms.Transform.Build | modules/motion/WalkEngine/src/Transform.cpp:30-108 | each builder, called in place, does what the specified step does |
| Transforms.Transform.BuildAll | modules/motion/WalkEngine/src/Transform.cpp:30-108 | any chain of builders called in place multiplies the matrix from the right by what the chain builds on its own |
| Transforms.Transform.Apply | modules/motion/WalkEngine/src/Transform.cpp:110-121 | the nested loops move a point in place, using its old coordinates |
| Transforms.Multiply | modules/motion/WalkEngine/src/Transform.cpp:139-148 | the loops compute the product |
| Transforms.Inv | modules/motion/WalkEngine/src/Transform.cpp:150-161 | the loops compute the inverse |
| Transforms.Transform6D | modules/motion/WalkEngine/src/Transform.cpp:163-186 | the entries filled in make the chain of builders |
| Poses.ModAngleReduces | modules/motion/WalkEngine/src/WalkEngine.cpp:995-1001 | a heading is reduced by whole turns to more than minus half a turn and at most half a turn |
| Poses.ReducedIsUnique | modules/motion/WalkEngine/src/WalkEngine.cpp:995-1001 | no other heading in that range is whole turns away |
| Poses.ReducedStays | modules/motion/WalkEngine/src/WalkEngine.cpp:995-1001 | exactly the headings in that range are left alone |
| Poses.RelativeUndoesGlobal | modules/motion/WalkEngine/src/WalkEngine.cpp:1003-1024 | reading a pose in a frame undoes placing it there up to whole turns, and altogether exactly when its heading is reduced |
| Poses.GlobalUndoesRelative | modules/motion/WalkEngine/src/WalkEngine.cpp:1003-1024 | and placing undoes reading, likewise |
| Poses.HalfWay | modules/motion/WalkEngine/src/WalkEngine.cpp:1027-1033 | half way between two poses is the same from either end |
| Poses.PlacedByMotion | modules/motion/WalkEngine/src/WalkEngine.cpp:1003-1012 | a pose is placed in a frame by the rigid motion to that frame, and headings add up |
| FootPlacement.LeftReadsBack | modules/motion/WalkEngine/src/WalkEngine.cpp:781-802 | the left foot's target, read back from the right foot, is the limited pose it was placed at |
| FootPlacement.LeftTargetInBox | modules/motion/WalkEngine/src/WalkEngine.cpp:781-802 | it lies in the stance box for every velocity, exactly when the limits are in order |
| FootPlacement.RightTargetInBox | modules/motion/WalkEngine/src/WalkEngine.cpp:804-825 | the right foot's does exactly when moreover, at the heading that half the turn between the feet and one and a half steps' turning lead to, the clearance toes and heels need is no wider than the box |
| FootPlacement.RightStepLeavesBox | modules/motion/WalkEngine/src/WalkEngine.cpp:804-825 | a robot whose feet are longer than its stance is wide, standing still and told to turn, puts its right foot outside the box |
| FootPlacement.LeftKeepsClear | modules/motion/WalkEngine/src/WalkEngine.cpp:790-801 | the heading it is limited to keeps toes and heels clear, unless it is as far out as allowed |
| FootPlacement.RightKeepsClear | modules/motion/WalkEngine/src/WalkEngine.cpp:813-823 | the right foot's always does |
| FootPlacement.StepsKeepApart | modules/motion/WalkEngine/src/WalkEngine.cpp:781-825 | no step crosses the feet or brings them closer than the stance allows |
| FootPlacement.RightStepMirrorsLeft | modules/motion/WalkEngine/src/WalkEngine.cpp:781-825 | the right step is the mirror image of the left step in the mirrored situation, exactly when the clearance needed at that heading is no wider than the box |
| FootPlacement.FeetDiffer | modules/motion/WalkEngine/src/WalkEngine.cpp:781-825 | the same robot takes a left step that does not mirror its right one |
| StepTargets.LimitedExactly | modules/motion/WalkEngine/src/WalkEngine.cpp:781-825 | a foot target is limited component by component to the nearest value allowed, and left alone within the limits, the least width being the greatest of the stance's and what toes and heels need |
| StepTargets.AheadExactly | modules/motion/WalkEngine/src/WalkEngine.cpp:781-786 | the place aimed at, for any feet and any velocity: half way between the feet, on by the velocity and by half of it again as the heading is then |
| StepTargets.TargetsExactly | modules/motion/WalkEngine/src/WalkEngine.cpp:781-809 | before it is limited a foot's target is beside that place, the left foot's to the left |
| StraightSteps.LeftStepsAhead | modules/motion/WalkEngine/src/WalkEngine.cpp:781-787 | from feet together and without a turn the left foot is to go one and a half steps ahead of its place beside the right one |
| StraightSteps.RightStepsAhead | modules/motion/WalkEngine/src/WalkEngine.cpp:804-810 | and the right foot likewise |
| StraightSteps.MarkingTime | modules/motion/WalkEngine/src/WalkEngine.cpp:781-802 | a step at no velocity keeps the feet together exactly when the standing width fits the stance box and clears toes and heels |
| StepTargets.StraightStep | modules/motion/WalkEngine/src/WalkEngine.cpp:397-426 | when a normal step without a turn begins from feet that head the same way, its foot is put half the way the feet were apart plus one and a half times the velocity ahead of the other, its standing width plus likewise beside it, as far as the stance allows, and heads the same way |
| StepTargets.StepFromTogether | modules/motion/WalkEngine/src/WalkEngine.cpp:397-426 | from feet together it is put one and a half times the velocity ahead and sideways |
| StepTargets.ToldToGoForwardsItDoes | modules/motion/WalkEngine/src/WalkEngine.cpp:337-426 | after any history, a standing robot that is told to go forwards and started marks time for two steps and then puts every foot ahead of the other, while the command is kept |
| StepTargets.WalksOn | modules/motion/WalkEngine/src/WalkEngine.cpp:337-368 | a walking robot that is not told to stop walks on |
| StepTargets.StartWithdrawsStop | modules/motion/WalkEngine/src/WalkEngine.cpp:337-349 | a start while walking withdraws a stop and changes nothing else |
| StepTargets.StoppedForgets | modules/motion/WalkEngine/src/WalkEngine.cpp:408-417 | a robot that was stopped has no command left until it is given one |
| StepTargets.FirstStepsCount | modules/motion/WalkEngine/src/WalkEngine.cpp:345-346 | the first two steps after a start are counted down, one with each step |
| StepTargets.ResetStandsUnderTorso | modules/motion/WalkEngine/src/WalkEngine.cpp:910-922 | after a stance reset the middle between the feet is behind the torso by the offset configured |
| Velocities.CommandedIsInLimits | modules/motion/WalkEngine/src/WalkEngine.cpp:834-853 | the commanded velocity is within its limits |
| Velocities.TurningSlowsDown | modules/motion/WalkEngine/src/WalkEngine.cpp:834-853 | for turns up to the turning factor the command is the velocity asked for shrunk, and at most the share of full speed left |
| Velocities.CommandedExactly | modules/motion/WalkEngine/src/WalkEngine.cpp:834-853 | the command exactly: the velocity asked for limited, its step times the k for which k times a little more than its speed is the lesser of that speed and the share left by the turn, and limited again |
| Velocities.ForwardsIsForwards | modules/motion/WalkEngine/src/WalkEngine.cpp:834-853 | asked to go forwards without a turn the robot is told to go forwards |
| Velocities.FastTurnReverses | modules/motion/WalkEngine/src/WalkEngine.cpp:840-852 | a robot asked to go forwards is made to step backwards exactly when the turn exceeds that factor |
| Velocities.ForwardsGoesBackwards | modules/motion/WalkEngine/src/WalkEngine.cpp:840-852 | a robot that may turn at 0.9 and is asked to go forwards at 0.03 and turn that fast is made to go backwards |
| Velocities.NextIsEased | modules/motion/WalkEngine/src/WalkEngine.cpp:855-873 | no component changes by more than its step or passes its target |
| Velocities.NextExactly | modules/motion/WalkEngine/src/WalkEngine.cpp:855-873 | each component goes exactly as far towards its target as its step allows, and less when speeding up at high speed |
| Velocities.RampReaches | modules/motion/WalkEngine/src/WalkEngine.cpp:855-873 | the current velocity reaches a kept command after enough updates |
| Gaits.StopTakesOneStep | modules/motion/WalkEngine/src/WalkEngine.cpp:351-416 | after a stop while walking, with no later start, exactly one more step begins before the one halt, or none if the last step was under way; and the halt comes once more updates have each come a period after the one before than steps are left |
| Gaits.StepsKeepUp | modules/motion/WalkEngine/src/WalkEngine.cpp:370-401 | while the robot walks it has begun at least as many steps, less a credit it starts with, as updates have come later than a period after the one counted before them |
| Gaits.HaltedStaysQuiet | modules/motion/WalkEngine/src/WalkEngine.cpp:365-368 | after the halt nothing happens until a start |
| Gaits.StepsAlternate | modules/motion/WalkEngine/src/WalkEngine.cpp:380-401 | the supporting legs alternate over stops and starts |
| Gaits.PhaseStaysInStep | modules/motion/WalkEngine/src/WalkEngine.cpp:370-384 | with a clock that does not go back the phase stays between 0 and 1 |
| Gaits.PhaseIsElapsed | modules/motion/WalkEngine/src/WalkEngine.cpp:378-384 | the phase is the time since the step began exactly when the update came within two durations |
| GaitSafety.ResetTogether | modules/motion/WalkEngine/src/WalkEngine.cpp:910-914 | a stance reset puts the feet together |
| GaitSafety.TogetherFromRight | modules/motion/WalkEngine/src/WalkEngine.cpp:408-417 | the last step puts the feet together, whichever foot makes it |
| GaitSafety.EveryRunIsSafe | modules/motion/WalkEngine/src/WalkEngine.cpp:337-426 | over every history velocities stay within limits, the feet apart, and a standing robot has its feet together |
| StanceBox.EveryStepIsInBox | modules/motion/WalkEngine/src/WalkEngine.cpp:781-825 | if the stance box leaves room for toes and heels at the largest turn and for feet together, the foot put down is within it over every history, both ways across, ahead and in its heading |
| StanceBox.ShippedIsRoomy | modules/motion/WalkEngine/config/WalkEngine.yaml:1-34 | the settings shipped are in order and leave that room |
| GaitSafety.EveryStopTakesOneStep | modules/motion/WalkEngine/src/WalkEngine.cpp:351-416 | from start-up and after any history, a stop while walking takes exactly one more step and one halt, unless a start comes first, and the halt comes once two updates have come late |
| GaitSafety.EveryRunAlternates | modules/motion/WalkEngine/src/WalkEngine.cpp:397-401 | from start-up the robot stands on its left leg first and on each leg in turn, until the legs are given anew |
| GaitSafety.EventFollowsCommand | modules/motion/WalkEngine/src/WalkEngine.cpp:397-412 | the current velocity changes only with a step: one update towards the command, or to nothing for the first two steps and the last |
| GaitSafety.SupportFootStays | modules/motion/WalkEngine/src/WalkEngine.cpp:400-426 | a step leaves the supporting foot where it is |
| WalkEngines.WalkEngine.constructor | modules/motion/WalkEngine/src/WalkEngine.cpp:128-133 | the engine after start-up |
| WalkEngines.WalkEngine.StanceReset | modules/motion/WalkEngine/src/WalkEngine.cpp:910-928 | the new state of a stance reset |
| WalkEngines.WalkEngine.Start | modules/motion/WalkEngine/src/WalkEngine.cpp:337-349 | a start withdraws a stop, and activates an engine that stands |
| WalkEngines.WalkEngine.Stop | modules/motion/WalkEngine/src/WalkEngine.cpp:351-354 | a stop is requested unless one is under way |
| WalkEngines.WalkEngine.SetVelocity | modules/motion/WalkEngine/src/WalkEngine.cpp:834-853 | the command is the specified one and nothing else changes |
| WalkEngines.WalkEngine.UpdateVelocity | modules/motion/WalkEngine/src/WalkEngine.cpp:855-878 | the current velocity moves by the limited difference |
| WalkEngines.WalkEngine.Update | modules/motion/WalkEngine/src/WalkEngine.cpp:356-426 | a tick stands, walks on, steps or halts as specified |
| WalkEngines.WalkEngine.Handle | modules/motion/WalkEngine/src/WalkEngine.cpp:337-426 | every message goes to its handler, with the specified outcome |
| WalkEngines.WalkEngine.Play | modules/motion/WalkEngine/src/WalkEngine.cpp:337-426 | whatever its handlers are called for, one after the other, the engine runs as the automaton does, with the same outcomes |

## Where the code differs from its comments

The model follows the code in each case.

* `modAngle` says it reduces to at least minus half a turn and less than half a turn; it excludes the
  lower end and includes the upper one (`Poses.ReducedStays`).
* A goal is announced, and the published score set, exactly when a score drops, not when it rises
  (`GameScores.ScoresFollowDrops`, `GameScores.ShownWhileNoneRises`); a first goal is missed
  (`GameScores.FirstGoalIsMissed`).
* A change of state within a timeout is published as if the timeout were over
  (`GameControl.PhaseShowsTimeouts`, `GameScores.TimeoutIsForgotten`).
* When the teams swap colours without another kick-off or kick-out, the side published is no longer the
  packet's (`GameDetails.ReceivedShowsSides`, `GameDetails.ColoursSwapUnseen`).
* A refused packet whose mode is unknown leaves that mode stored (`GameControl.UnknownModeSticks`,
  `GameScores.UndeclaredModeStays`).
* With team id 0 both teams of the initial packet are ours, so no packet is ever accepted
  (`GameControl.StartsInStep`).
* A command of source 0 passes the filter for a limb nobody holds, although 0 is meant to be reserved
  (`ControllerHandlers.FilterIsSound`, `ControllerHistory.SourceZeroIsAccepted`).
* Registering a group selects nothing, so the selection may be stale until the next one
  (`ShortCuts.ShortcutIsExact`, `StaleSelections.RegistrationLeavesStale`).
* An update that changes no main item, lowers no selected item and raises no other selects nothing, and
  still may leave the selection stale when a companion was, or becomes, as great as its main item
  (`ShortCuts.ShortcutIsExact`, `StaleSelections.TiedCompanionWaits`, `StaleSelections.RisenCompanionStays`).
* With tied priorities the selection depends on the order of the lists, unless the priorities settle it
  in spite of the ties (`Ties.GreedyExactlyWhenSettled`, `Ties.TiesAreNotGreedy`).
* An observed goal whose side is not a declared one costs all hypotheses
  (`LocalisationEngine.ProcessingIsSound`, `LocalisationEngine.UndeclaredSideLosesAll`).
* Turns faster than the turning factor reverse the robot (`Velocities.FastTurnReverses`,
  `Velocities.ForwardsGoesBackwards`).
* The limits of the two step destinations are not mirror images of each other when toes and heels
  reach further than the stance is wide (`FootPlacement.RightStepMirrorsLeft`,
  `FootPlacement.FeetDiffer`), and the right foot may then leave the stance box
  (`FootPlacement.RightTargetInBox`, `FootPlacement.RightStepLeavesBox`).

## Left out

- LazyMergeIsGreedy: where the priorities do not settle the selection, what holds is `FirmSelections.ChosenIsFirm` and `Merge.ChosenIsEnvyFree`.
- RunStaysStable: stability in its plain sense, by priorities alone, is kept only after a selection they settled; what holds otherwise is `ShortCuts.RunKeepsOutdone`.
- MergeSimilarModels: promises nothing for negative weights, which the filter is assumed never to give.
- AbsorbSimilar: the same, and equal weights may be merged in any order that ascends, as the unstable sort of the original leaves it open.
- RightStepMirrorsLeft: stated for feet whose headings differ by less than half a turn and a predicted heading that is not exactly half a turn, where reduction is not odd.
- ErrorIsBounded: coordinates are unbounded integers; the bound says when a 32-bit variable would suffice, and wrap-around is not modelled.
- ToldToGoForwardsItDoes: for commands without a turn; where steps with a turn aim is `StepTargets.TargetsExactly` for one step.
- EveryStepIsInBox: under settings that leave less room what holds is `GaitSafety.EveryRunIsSafe`, and `FootPlacement.RightTargetInBox` for one step.
- Transform6D: takes its twelve entries from the function `RigidMotions.SixD` instead of spelling them out a second time.
- References to request items are pairs of a group's id and an index, because items are never moved; the registry is a value in a field of the controller, so aliasing between items is not captured.
- The selection's `max_element` with its comparator on empty lists is modelled as the loop of the GNU standard library, which keeps the first of the greatest heads; the comparator is not a strict order when two lists are empty.
- Registrations between the program's start and Startup happen in the order of their list; priority updates and commands come after the first selection, because the limb table has no initialiser.
- Over histories accepted commands have non-zero sources, priority vectors have one priority for each item of their group, updates name registered groups, groups have at least one item, and priorities are real numbers without NaN.
- Floating point: weights, angles, velocities and times are exact real numbers; an angle is its cosine and sine, or a number that a given function turns into them.
- The filter that tracks a pose and its measurement quality are a function; removing old models and the multiple-measurement update, which nothing calls, are not modelled.
- Hypotheses are values, not unique pointers; a hypothesis moved out of the vector is an empty slot.
- One reading of the clock serves a whole referee packet; the penalised and override flags, replies, the button handler, sockets and packet headers are not modelled. Packets have at most 11 players per team and the same number throughout.
- Of the walk engine: the zero-moment-point equations, the torso, the legs' inverse kinematics, the arms, the unused start from a given stance, the scaling of walk commands to the limits, and reloading the configuration while walking. The step counter is an unbounded integer.
- A transform made from an arbitrary 4x4 matrix, whose last row need not be 0 0 0 1, and reading a pose back from a transform.
- The other modules of the robot: input and output over networks and devices, vision beyond the line, configuration and logging.
