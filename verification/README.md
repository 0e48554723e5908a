# unpack_core, modelled and proved in Dafny

unpack is a JavaScript bundler that follows webpack's architecture. This project models the parts of
its core crate that are hard to get right, and proves what they promise. To verify:

    dafny verify dfyconfig.toml

The parts, in the order of a build:

- **Building the module graph.** `BuildingGraphs.dfy`, `MakePhases.dfy`, `MakeStates.dfy`,
  `MakeSchedules.dfy`, `MakeSafety.dfy`, `MakeQuiescence.dfy`, `MakeErrors.dfy`,
  `MakeCollisions.dfy`, `LoaderWaiting.dfy`. Tasks run in a main queue and in the background, in any
  interleaving. When nothing is left, the modules are exactly those reachable from the entries, each
  built once, each dependency connected once and to the right module, and exactly what failed is
  reported, whatever the schedule was.
- **Analyses.** `UsageFlagging.dfy` (which exports are used: the least fixpoint, with justification
  chains) and `ExpressionPurity.dfy` (which expressions have no effect, against the evaluation rules
  of ECMA-262 with unbounded BigInts).
- **Chunk planning.** `Words64.dfy` and `ModuleMasks.dfy` (sets as 64-bit words), `Reachability.dfy`,
  `ModuleGraphs.dfy`, `AsyncChunkPlanning.dfy` (the worklist as a transition system),
  `AsyncChunkPlanner.dfy` (the loop, over plan objects whose masks are words), `LoadingSafety.dfy`. The plan is the least
  closed one, its masks are the meet over all parent walks, and no run of the bundle requires a
  module that was left out.
- **The chunk graph.** `ChunkGraphs.dfy`, `ChunkMaterialization.dfy`, `ChunkGraphBuilding.dfy`,
  `ChunkGraphAssembly.dfy`, `CyclicLoads.dfy`, `GraphLoading.dfy`, `SplitChunks.dfy`,
  `SplitApplication.dfy`, `RuntimeRequirementSets.dfy`, `RequirementSweep.dfy`, `RenderIds.dfy`. From
  plans to groups, links and blocks; shared modules split off; requirements gathered; ids assigned.
- **Incremental work and caching.** `ModuleComputationCaches.dfy`, `CacheIdentifiers.dfy`,
  `CacheLayerStates.dfy` (interleaved gets and stores over layers), `CacheHits.dfy` (when a get has to
  answer), `CacheConfigurations.dfy` (which configurations behave as one map), `CacheLayerStack.dfy`
  (the layers as they are updated), `CacheGenerations.dfy`, `CacheLifecycles.dfy` (every critical
  section), `CacheProtocol.dfy` (all interleavings of them), `CacheTimers.dfy` (when a timed
  publication is due), `CacheCalls.dfy` (whole calls of `settle` and `shutdown`) and
  `CacheAnswers.dfy` (what they answer, and what becomes of an error).

Objects that the source updates in place are classes here, each method proved against a function or
relation on values. Protocols in which locks are dropped and retaken are transition systems whose
steps are the critical sections; the classes' methods are proved equal to the functions those steps
use.

## What turned out not to hold

Each of these is shown by a concrete input or run. Where the promise holds under a condition that a
caller can check, the condition is proved to be exact.

- `+1n` is judged pure and throws (crates/unpack_core/src/parser.rs:469-472 accepts what
  crates/unpack_core/src/parser.rs:672-675 refuses), a template over an object may run code, and a
  name may be unresolvable or not yet initialised: `PureCanThrow`, `TemplateCanRunCode`,
  `NameThrowsIff`, exact condition in `PureFailsIff`, a condition on the syntax and on the names that
  are bound in `PureNeverFails`.
- The layered cache can answer an older entry when an older etag is asked for, because a pending
  entry under another etag does not hide the packed one: `OlderEtagAnswers`, exact condition in
  `GetAnswersLatestIff`. Over a read-only pack, to which stores do not go, even an older value under
  the current etag can come back: `ReadOnlyCanAnswerOlder`. `OneMapIff` says for which ways of opening
  a cache that never happens: no read-only pack, or memory without generations.
- `settle` can report success and leave a generation pending that no timer will publish:
  `SettleCanStrand`. `SettleStrandsIff` says of a whole call when it does, `SettleCanStrandIff` when
  it still can, and `GuardedSettleStrandsNothing` is the guard a caller can keep to.
- Two overlapping `shutdown` calls can replace the outcome of a closed lifecycle:
  `ClosedOutcomeCanChange`. `OutcomeChangesIff` says from which states that can happen over any
  continuation; one call at a time rules it out (`OneShutdownFixesOutcome`).
- `shutdown` can lose the error of a failed publication: it takes the diagnostic, drops its lock, and if
  another publication is in flight when it takes the lock again, it waits and forgets what it took:
  `ErrorCanBeLost`. `TakenIsAnsweredIff` is the exact condition, `FailureAccounted` says that this is
  the only way, and `LoneShutdownAnswers` is the guard a caller can keep to.
- Resolving runtime requirements does not always give a runtime that runs by itself: chunk handlers
  asked for without chunk loading attach to an object that nothing makes. `ResolvedRunsIff` is exact.
- The materialised `children` do not keep every loaded group reachable from its entrypoint:
  `BuildLosingGraph` starts from a module graph. `AllGroupsReachedIff` and `AcyclicLoadsKeepAll` say
  when they do. Only the runtime edges always keep every planned edge: `RuntimeEdgeIffPlanned`.
- A failed request whose stand-in identity is that of a module marks that module as failed, and which
  of the two remains depends on the schedule: `CollisionDependsOnSchedule`. `ReachableModulesIff` says
  exactly when the graph is right: no identity is needed both ways.

## Model

| member | source | states |
|---|---|---|
| ModuleMasks.ElementsInjective | crates/unpack_core/src/build_chunk_graph.rs:18 | Two masks of one length are equal word by word exactly if they hold the same modules |
| ModuleMasks.InsertElements | crates/unpack_core/src/build_chunk_graph.rs:39-48 | Setting one bit of one word inserts exactly that module |
| ModuleMasks.IntersectElements | crates/unpack_core/src/build_chunk_graph.rs:64-69 | ANDing word by word is set intersection |
| ModuleMasks.ModuleMask.Insert | crates/unpack_core/src/build_chunk_graph.rs:39-48 | Inserts one module and reports whether it was new |
| ModuleMasks.ModuleMask.Contains | crates/unpack_core/src/build_chunk_graph.rs:50-54 | Membership, also for handles beyond the last word |
| ModuleMasks.ModuleMask.IntersectWith | crates/unpack_core/src/build_chunk_graph.rs:64-69 | The mask becomes the intersection in place; the other mask is not changed |
| ModuleMasks.ModuleMask.Equals | crates/unpack_core/src/build_chunk_graph.rs:18 | Word equality is set equality |
| ModuleMasks.FromModules | crates/unpack_core/src/build_chunk_graph.rs:31-37 | The mask of a list of modules holds its members |
| ModuleGraphs.CollectStaticReachable | crates/unpack_core/src/build_chunk_graph.rs:409-431 | Breadth-first collection lists, each once and the start first, the least set that holds the start and the target of every active connection made outside a block by an entry, an import or a re-export |
| ModuleGraphs.StaticModulesLeast | crates/unpack_core/src/dependency.rs:114-122 | The static closure is that least set, said over the kinds of dependencies and the fields of connections |
| AsyncChunkPlanner.DynamicImportOrigins | crates/unpack_core/src/build_chunk_graph.rs:433-465 | Exactly the import blocks of the given modules, each once with the module it loads, in the order of module identities and blocks |
| AsyncChunkPlanning.FirstImportIs | crates/unpack_core/src/build_chunk_graph.rs:534-545 | The first import() connection made in a block is found, and none is found exactly if there is none |
| AsyncChunkPlanning.BlockTargetIs | crates/unpack_core/src/build_chunk_graph.rs:433-457 | A block loads a module exactly if it holds an import() that was connected, and then the target of the first |
| AsyncChunkPlanning.DemandIsNotSelf | crates/unpack_core/src/build_chunk_graph.rs:243 | A target is in its own static closure, so no plan becomes its own parent |
| AsyncChunkPlanning.MaskShrinks | crates/unpack_core/src/build_chunk_graph.rs:143-159 | Adding a parent or a smaller parent mask only shrinks the minimal available modules |
| AsyncChunkPlanning.VisitKeepsPlansSound | crates/unpack_core/src/build_chunk_graph.rs:125-160 | Recorded parent masks stay supersets of the parent's current mask, and every mask stays the meet of its parents |
| AsyncChunkPlanning.VisitKeepsWalks | crates/unpack_core/src/build_chunk_graph.rs:98-160 | Whatever a mask misses, some parent walk from an entrypoint misses |
| AsyncChunkPlanning.VisitKeepsLeast | crates/unpack_core/src/build_chunk_graph.rs:216-266 | Every edge drawn and every module dropped is forced on any closed plan |
| AsyncChunkPlanning.StepInv | crates/unpack_core/src/build_chunk_graph.rs:220-266 | Every step of the worklist keeps the planner's invariant, whichever pending group and import block is taken |
| AsyncChunkPlanning.FinishedMasks | crates/unpack_core/src/build_chunk_graph.rs:220-266 | With an empty queue the recorded parent masks equal the parents' masks |
| AsyncChunkPlanning.FinishedEdges | crates/unpack_core/src/build_chunk_graph.rs:241-265 | With an empty queue every edge is still demanded by its parent |
| AsyncChunkPlanning.FinishedSolved | crates/unpack_core/src/build_chunk_graph.rs:216-266 | With an empty queue the plan is closed, least, and exact: a module is available if and only if every parent walk passes a group that carries it |
| AsyncChunkPlanning.WalkMeets | crates/unpack_core/src/build_chunk_graph.rs:98-160 | In a closed plan an available module lies on every parent walk |
| AsyncChunkPlanning.LeastClosedUnique | crates/unpack_core/src/build_chunk_graph.rs:216-266 | There is one least closed plan |
| AsyncChunkPlanning.OrderIndependent | crates/unpack_core/src/build_chunk_graph.rs:216-266 | Any two ways of draining the queue end with the same masks and edges |
| AsyncChunkPlanning.StepDescends | crates/unpack_core/src/build_chunk_graph.rs:220-266 | Each step lowers the lexicographic measure of plan weight and remaining work |
| AsyncChunkPlanning.VisitLowersWeight | crates/unpack_core/src/build_chunk_graph.rs:246-264 | A visit that pushes a group strictly lowers the sum over targets of mask sizes |
| AsyncChunkPlanning.VisitPays | crates/unpack_core/src/build_chunk_graph.rs:246-264 | Every push is paid for by that sum, so queue growth is bounded by it |
| AsyncChunkPlanner.AsyncChunkPlan.AddParent | crates/unpack_core/src/build_chunk_graph.rs:125-160 | Records the parent mask and origin, recomputes the meet, and reports exactly a change of the mask |
| AsyncChunkPlanner.IntersectParents | crates/unpack_core/src/build_chunk_graph.rs:143-150 | The words of the meet over all recorded parents |
| AsyncChunkPlanner.WithModules | crates/unpack_core/src/build_chunk_graph.rs:109-113 | A clone of a mask with a list of modules inserted |
| AsyncChunkPlanner.Carried | crates/unpack_core/src/build_chunk_graph.rs:230-238 | The static modules of a plan whose bit is not set in its mask |
| AsyncChunkPlanner.VisitGroup | crates/unpack_core/src/build_chunk_graph.rs:220-265 | One turn of the loop is a sequence of planner steps |
| AsyncChunkPlanner.PlanAsyncChunks | crates/unpack_core/src/build_chunk_graph.rs:213-266 | The loop ends, with the masks, in 64-bit words, and the parents and origins of the least closed plan, no origin listed twice |
| LoadingSafety.AvailableStaticallyClosed | crates/unpack_core/src/build_chunk_graph.rs:98-160 | Every available set is closed under static imports |
| LoadingSafety.ResultingHoldsClosure | crates/unpack_core/src/build_chunk_graph.rs:105-109 | What is available once a group is loaded holds the static closure of each of its modules |
| LoadingSafety.LoadGrounded | crates/unpack_core/src/build_chunk_graph.rs:241-265 | A load from an installed module leaves every module installed together with a group whose assumptions hold |
| LoadingSafety.GroundedMeetsImports | crates/unpack_core/src/build_chunk_graph.rs:213-266 | In every installed set the target of each active import and re-export of an installed module is installed |
| LoadingSafety.LoadingNeverMisses | crates/unpack_core/src/build_chunk_graph.rs:213-313 | Over every session, any import block of any installed module finds its target and the target's static closure installed; a block without a chunk group finds them installed before; and no installed module lacks one that it imports or re-exports from |
| ChunkGraphs.ChunkGraph.AddChunk | crates/unpack_core/src/chunk_graph.rs:57-69 | A new chunk without groups or modules; all indexes stay mutual inverses |
| ChunkGraphs.ChunkGraph.AddChunkGroup | crates/unpack_core/src/chunk_graph.rs:71-81 | A new group without chunks or links; all indexes stay mutual inverses |
| ChunkGraphs.ChunkGraph.ConnectChunkAndGroup | crates/unpack_core/src/chunk_graph.rs:83-86 | Chunk and group list each other once; no other membership changes |
| ChunkGraphs.ChunkGraph.ConnectChunkGroups | crates/unpack_core/src/chunk_graph.rs:88-96 | Adds the edge to children, parents and runtime children |
| ChunkGraphs.ChunkGraph.ConnectRuntimeChunkGroups | crates/unpack_core/src/chunk_graph.rs:98-106 | Adds the edge to the runtime children only, once |
| ChunkGraphs.ChunkGraph.AddSplitChunk | crates/unpack_core/src/chunk_graph.rs:135-147 | The new chunk joins exactly the groups of its source chunks |
| ChunkGraphs.ChunkGraph.ConnectChunkAndModule | crates/unpack_core/src/chunk_graph.rs:149-164 | Chunk and module list each other once, the module index lengthened when needed |
| ChunkGraphs.ChunkGraph.DisconnectChunkAndModule | crates/unpack_core/src/chunk_graph.rs:166-171 | Chunk and module no longer list each other; nothing else changes |
| ChunkGraphs.LinkGroupsMirrored | crates/unpack_core/src/chunk_graph.rs:88-96 | Connecting groups adds exactly one edge to both edge relations and keeps parents and children inverse |
| ChunkGraphs.JoinModuleMirrored | crates/unpack_core/src/chunk_graph.rs:149-164 | Connecting adds exactly one pair of chunk and module |
| ChunkGraphs.LeaveModuleMirrored | crates/unpack_core/src/chunk_graph.rs:166-171 | Disconnecting removes exactly one pair of chunk and module |
| ChunkMaterialization.ChunkGroupReaches | crates/unpack_core/src/build_chunk_graph.rs:509-532 | Breadth-first search over children answers exactly reachability |
| ChunkMaterialization.KeptAcyclic | crates/unpack_core/src/build_chunk_graph.rs:304-308 | Edges linked only when the child does not reach the parent never form a circle |
| ChunkMaterialization.KeptIsMaximal | crates/unpack_core/src/build_chunk_graph.rs:304-308 | An edge is left out exactly if it closes a circle with the children finally kept |
| ChunkMaterialization.AllKeptIffAcyclic | crates/unpack_core/src/build_chunk_graph.rs:304-308 | Children are all the planned edges if and only if the planned edges form no circle |
| ChunkMaterialization.AllReachedIffFreeParents | crates/unpack_core/src/build_chunk_graph.rs:304-308 | Over the kept edges every target is reachable from a root if and only if every target has a planned parent that it does not reach over them |
| ChunkMaterialization.ChildrenCanLoseAGroup | crates/unpack_core/src/build_chunk_graph.rs:304-308 | Children alone may leave a loaded group unreachable from its entrypoint: the links of one graph, in their order |
| ChunkGraphBuilding.LinkPlanned | crates/unpack_core/src/build_chunk_graph.rs:304-308 | One planned edge becomes a runtime edge, and a child edge exactly if the child does not reach the parent |
| ChunkGraphBuilding.LayGroup | crates/unpack_core/src/build_chunk_graph.rs:187-201 | One chunk alone in one group, with exactly the given modules |
| ChunkGraphBuilding.Materialize | crates/unpack_core/src/build_chunk_graph.rs:268-313 | Groups, modules, links and block table of the planned groups |
| ChunkGraphBuilding.ChildrenAcyclicAndMaximal | crates/unpack_core/src/build_chunk_graph.rs:304-308 | However circular the import() graph is, the materialised children are acyclic, and no planned edge could be added to them |
| ChunkGraphBuilding.AllGroupsReachedIff | crates/unpack_core/src/build_chunk_graph.rs:293-313 | In the linked graph every planned group is reachable from an entrypoint over children if and only if each has a planned parent that it does not reach over children |
| ChunkGraphBuilding.AcyclicLoadsKeepAll | crates/unpack_core/src/build_chunk_graph.rs:293-313 | Children are the runtime edges if and only if loads go around in no circle, and then every planned group is reachable over children |
| ChunkGraphBuilding.RuntimeEdgesAreParents | crates/unpack_core/src/build_chunk_graph.rs:293-313 | Runtime edges are exactly the planned parent relation; each loading block has the group of the plan it loads |
| ChunkGraphAssembly.BuildChunkGraph | crates/unpack_core/src/build_chunk_graph.rs:172-313 | From a module graph to the chunk graph of the least closed plan, with plans and parents in the order of module identities each group named by its least origin, and each entrypoint by its configured name or its position |
| ChunkGraphAssembly.GroupInstallsOwn | crates/unpack_core/src/build_chunk_graph.rs:280-291 | A group carries exactly its static modules without those available before it |
| ChunkGraphAssembly.RuntimeEdgeIffPlanned | crates/unpack_core/src/build_chunk_graph.rs:299-308 | A runtime edge between two groups exists if and only if the plan loads the one from the other |
| ChunkGraphAssembly.BlockGroupIffPlanned | crates/unpack_core/src/build_chunk_graph.rs:309-311 | A block has a chunk group if and only if the plan loads from it, and then the group of its target |
| ChunkGraphAssembly.HandlesDistinct | crates/unpack_core/src/build_chunk_graph.rs:271-291 | Distinct planned groups get distinct handles |
| CyclicLoads.PlanIs | crates/unpack_core/src/build_chunk_graph.rs:172-266 | A module graph whose plan makes three groups load each other in a circle: its only solved plan |
| CyclicLoads.AssembledLoses | crates/unpack_core/src/build_chunk_graph.rs:172-313 | In every chunk graph assembled from it the shared group is loaded, and unreachable from the entrypoint over children |
| CyclicLoads.BuildLosingGraph | crates/unpack_core/src/build_chunk_graph.rs:172-313 | Building the chunk graph of that module graph gives such a graph |
| GraphLoading.GraphLoadIsLoad | crates/unpack_core/src/build_chunk_graph.rs:293-313 | Loading through the block table of the graph is loading along the plan |
| GraphLoading.AssembledCarries | crates/unpack_core/src/build_chunk_graph.rs:268-313 | Blocks and groups of the built graph are those of the plan |
| GraphLoading.RunningNeverMisses | crates/unpack_core/src/build_chunk_graph.rs:172-313 | Whole-run loading safety on the chunk graph itself |
| GraphLoading.SplitKeepsCarrying | crates/unpack_core/src/build_chunk_graph.rs:315-321 | Splitting without a name leaves every group's modules, and so loading safety, as they are |
| GraphLoading.SplitNeverMisses | crates/unpack_core/src/build_chunk_graph.rs:315-386 | Under any split, named or not, the loads of a run still find every target with its static closure installed |
| SplitChunks.FindCandidates | crates/unpack_core/src/build_chunk_graph.rs:330-361 | The candidates: modules shared by the same async chunks, grouped and sorted, whatever order the hash maps are walked in |
| SplitChunks.CandidatesUnique | crates/unpack_core/src/build_chunk_graph.rs:345-361 | There is one list of candidates, so iteration order does not matter |
| SplitApplication.CandidatesArePlan | crates/unpack_core/src/build_chunk_graph.rs:345-361 | Candidates draw on async chunks only, and every module is in at most one of them |
| SplitApplication.MergedIsPlan | crates/unpack_core/src/build_chunk_graph.rs:362-374 | Merging all candidates under one name keeps that |
| SplitApplication.ApplySplitChunks | crates/unpack_core/src/build_chunk_graph.rs:329-386 | Each candidate's modules leave its source chunks for a new chunk in all the sources' groups, under exactly the name given and with the modules as roots; every other chunk keeps its name and roots, groups keep all but their chunks; with a name there is at most one new chunk, which holds exactly the modules of all candidates |
| SplitApplication.NoGroupLosesAModule | crates/unpack_core/src/build_chunk_graph.rs:375-385 | No chunk group loses a module |
| SplitApplication.UnnamedKeepsGroups | crates/unpack_core/src/build_chunk_graph.rs:375-385 | Without a name every group keeps exactly its modules |
| SplitApplication.MovedModuleInOneChunk | crates/unpack_core/src/build_chunk_graph.rs:375-385 | A moved module ends in exactly one async chunk, the new one |
| SplitApplication.OtherModulesStay | crates/unpack_core/src/build_chunk_graph.rs:375-385 | A module that is not moved stays in exactly the chunks it was in |
| RuntimeRequirementSets.InsertedElements | crates/unpack_core/src/runtime.rs:86-91 | Setting a requirement's bit adds exactly that requirement |
| RuntimeRequirementSets.ExtendedElements | crates/unpack_core/src/runtime.rs:98-100 | ORing two masks is set union |
| RuntimeRequirementSets.ResolveRuntimeModules | crates/unpack_core/src/runtime.rs:311-342 | The least superset closed under prerequisites, with exactly the runtime modules it brings, each once, by stage and then by identifier |
| RuntimeRequirementSets.ModuleForDefines | crates/unpack_core/src/runtime.rs:345-361 | A requirement brings exactly the runtime module whose text defines what it asks for |
| RuntimeRequirementSets.PrerequisitesAreUses | crates/unpack_core/src/runtime.rs:185-203 | The prerequisites of a runtime module are exactly what its text uses |
| RuntimeRequirementSets.ResolvedRunsIff | crates/unpack_core/src/runtime.rs:205-342 | The runtime modules of a resolved set define every symbol that they use, if and only if chunk handlers are only asked for together with chunk loading |
| RuntimeRequirementSets.HandlersAttachLater | crates/unpack_core/src/runtime.rs:328-342 | In the rendered order what attaches the chunk handlers comes after what makes the place for them |
| RuntimeRequirementSets.ClosureUnique | crates/unpack_core/src/runtime.rs:311-342 | The closure is unique |
| RuntimeRequirementSets.ClosureOfUnion | crates/unpack_core/src/runtime.rs:311-342 | The closure of a union is the union of the closures, so requirements processed module by module may be joined |
| RuntimeRequirementSets.ChunkLoadingIsComplete | crates/unpack_core/src/runtime.rs:214-228 | Whatever loads chunks also has the handlers, file names, factories and property checks that chunk loading uses |
| RequirementSweep.SweepEntrypoint | crates/unpack_core/src/chunk_graph.rs:367-384 | Collects exactly what chunks of groups reachable over runtime edges ask for |
| RequirementSweep.ResolveEntrypoint | crates/unpack_core/src/chunk_graph.rs:368-393 | An entrypoint's requirements are the closure of that together with the startup requirements |
| RequirementSweep.RuntimeRequirementTables.SetModuleRuntimeRequirements | crates/unpack_core/src/chunk_graph.rs:340-395 | All three tables: per module, per chunk, and per entrypoint with its runtime modules |
| CacheLifecycles.CacheLifecycle.EndIdleSection | crates/unpack_core/src/compiler.rs:257-282 | Refused while a run is active or after shutdown has begun; otherwise a new run starts and timers are cancelled |
| CacheLifecycles.CacheLifecycle.BeginIdleSection | crates/unpack_core/src/compiler.rs:284-322 | Only the run that is active, or that shutdown waits for, can end; with something pending the deadlines are set, an earlier initial-store deadline kept |
| CacheLifecycles.CacheLifecycle.ScheduleSection | crates/unpack_core/src/compiler.rs:324-377 | In Idle, without publication or timer, and with something pending, the earliest deadline gets the next token; otherwise nothing is scheduled |
| CacheLifecycles.CacheLifecycle.FireSection | crates/unpack_core/src/compiler.rs:379-401 | Only the scheduled token, from its deadline on and in Idle, goes on; its schedule and deadline are cleared |
| CacheLifecycles.CacheLifecycle.StartTimedFlushSection | crates/unpack_core/src/compiler.rs:406-421 | The second lock checks again that the lifecycle is Idle and no publication runs |
| CacheLifecycles.CacheLifecycle.FinishFlushSection | crates/unpack_core/src/compiler.rs:423-463 | The publication is taken out; a failure becomes the diagnostic, a success clears the deadlines or asks for a new timer |
| CacheLifecycles.CacheLifecycle.SettleEnterSection | crates/unpack_core/src/compiler.rs:474-493 | Timers are cancelled; a diagnostic is taken and answered, and otherwise a run or a running publication is waited for |
| CacheLifecycles.CacheLifecycle.SettleCommitSection | crates/unpack_core/src/compiler.rs:494-514 | Waits again if a run or publication has begun meanwhile; else enters a publication, or turns Idle into Ready and reports success |
| CacheLifecycles.CacheLifecycle.ShutdownEnterSection | crates/unpack_core/src/compiler.rs:551-581 | Ready, Idle and Active turn into ShuttingDown with all timers cancelled, remembering an active run to wait for; Closed answers its outcome |
| CacheLifecycles.CacheLifecycle.ShutdownCommitSection | crates/unpack_core/src/compiler.rs:582-606 | Waits again if a run or publication stands in the way; else enters a publication, or closes with the outcome |
| CacheProtocol.StepInv | crates/unpack_core/src/compiler.rs:257-636 | Every critical section of every interleaving keeps the protocol's invariant |
| CacheProtocol.NoLostPublication | crates/unpack_core/src/compiler.rs:284-463 | Idle with something pending, no publication and no diagnostic: a live timer holds the scheduled token, or a process is about to schedule, between the two locks of a firing timer, or inside settle |
| CacheProtocol.OnlyScheduledTimerFires | crates/unpack_core/src/compiler.rs:379-405 | Stale tokens change nothing; the scheduled token is never turned away |
| CacheProtocol.OnePublication | crates/unpack_core/src/compiler.rs:406-463 | At most one lifecycle publication runs, for the generation the state names |
| CacheProtocol.ShutdownIsFinal | crates/unpack_core/src/compiler.rs:257-282 | Once shutdown has begun no run starts, and Closed is absorbing |
| CacheProtocol.ShutdownDrains | crates/unpack_core/src/compiler.rs:541-636 | Closed without a diagnostic means everything dirty is published and no run is left |
| CacheProtocol.OneShutdownFixesOutcome | crates/unpack_core/src/compiler.rs:541-636 | With one shutdown call at a time the closed outcome is fixed |
| CacheProtocol.ClosedOutcomeCanChange | crates/unpack_core/src/compiler.rs:541-636 | Two overlapping shutdown calls can replace a closed outcome: a concrete run |
| CacheProtocol.SettleCanStrand | crates/unpack_core/src/compiler.rs:465-539 | settle can report success and leave a generation pending that nobody publishes: a concrete run |
| CacheProtocol.PublicationReaches | crates/unpack_core/src/compiler.rs:423-431 | A publication succeeds without writing if its generation was published before; else it reaches exactly that generation, or reports its failure |
| CacheTimers.DeadlineIff | crates/unpack_core/src/compiler.rs:257-377 | After any run, each deadline stands if and only if the steps of the run give it: it counts its time from the latest renewal, or the first request, since the wait was last over; the initial store's wait is neither renewed nor ended by runs and settle calls |
| CacheTimers.PublicationIsPrompt | crates/unpack_core/src/compiler.rs:343-377 | In every reachable system that is idle with something pending, and nobody about to look again, a timer is live that is due within the ordinary time from now and not after any deadline that stands |
| CacheTimers.TimerIsNotEarly | crates/unpack_core/src/compiler.rs:349-393 | Over any run, a timer is due no earlier than the time of its reason after a step that asked for it |
| CacheAnswers.SettleAnswersDiagnostic | crates/unpack_core/src/compiler.rs:474-493 | A settle call ends at its first lock exactly if a diagnostic stands there; it answers exactly that diagnostic and takes it away |
| CacheAnswers.SuccessMeansNoneStood | crates/unpack_core/src/compiler.rs:494-514 | A settle call that ends at its second lock reports success, and over any run found no diagnostic when it last went through its first lock |
| CacheAnswers.FailureAccounted | crates/unpack_core/src/compiler.rs:423-452 | From a failed publication on, over any run, its error is still held, or was answered by a settle or shutdown call, or replaced by a later failure, or dropped by a shutdown call that found a publication in flight at its second lock |
| CacheAnswers.TakenIsAnsweredIff | crates/unpack_core/src/compiler.rs:577-606 | A shutdown call that took an error answers it if and only if no publication is in flight at its second lock |
| CacheAnswers.LoneShutdownAnswers | crates/unpack_core/src/compiler.rs:577-606 | With no other settle or shutdown call going on or starting, shutdown answers the error it took, over any interleaving |
| CacheAnswers.ErrorCanBeLost | crates/unpack_core/src/compiler.rs:577-606 | A shutdown call takes an error, waits for another publication, and in the end reports success: a concrete run in which the error is neither answered nor replaced |
| CacheAnswers.ClosedAnswersOutcome | crates/unpack_core/src/compiler.rs:556-558 | Once closed, every further shutdown call answers at once with the outcome recorded |
| CacheAnswers.RecordedWasAnswered | crates/unpack_core/src/compiler.rs:582-606 | The outcome recorded is one that a shutdown call answered earlier in the run |
| CacheAnswers.SettleWaitsIff | crates/unpack_core/src/compiler.rs:474-539 | At both locks settle waits exactly while a run is active or a publication runs; otherwise it reads, publishes exactly what it read, or ends |
| CacheAnswers.ShutdownBegins | crates/unpack_core/src/compiler.rs:556-576 | The first shutdown call leaves no timer and waits for exactly the run that is active |
| CacheAnswers.ShutdownWaitsIff | crates/unpack_core/src/compiler.rs:577-606 | From then on it waits, at both locks, exactly while that run or a publication is going on; between them it takes the diagnostic, and it publishes what it read only without one |
| CacheAnswers.AnsweredIsClosed | crates/unpack_core/src/compiler.rs:541-636 | Whenever a shutdown call answers, the lifecycle is closed with what it answers |
| CacheCalls.GuardedSettleStrandsNothing | crates/unpack_core/src/compiler.rs:494-514 | Over any interleaving: if no run is active when settle drops its lock and none starts before it takes it again, success means nothing is pending |
| CacheCalls.SettleStrandsIff | crates/unpack_core/src/compiler.rs:494-514 | A settle call that read nothing pending and reports success leaves something pending if and only if a store made after its read has not been published |
| CacheCalls.SettleCanStrandIff | crates/unpack_core/src/compiler.rs:494-514 | Some continuation makes a settle call that has dropped its lock strand a generation if and only if a run may still store: shutdown has not begun, or waits for a run |
| CacheCalls.OutcomeChangesIff | crates/unpack_core/src/compiler.rs:582-606 | From a closed state some continuation changes the outcome if and only if a shutdown call between its locks, holding a diagnostic or having seen nothing pending so far, would report another |
| CacheGenerations.PublishedIsDurable | crates/unpack_core/src/cache.rs:536-576 | Published is monotone and never passes dirty; the published image holds every event up to a moment by which all published generations were raised |
| CacheGenerations.PublishedStoreInImage | crates/unpack_core/src/cache.rs:536-576 | A store numbered at most the published generation is in the image unless its address was stored, cleared or dropped by retention since |
| CacheGenerations.NoneMeansNothingPending | crates/unpack_core/src/cache.rs:519-530 | None from pending_generation means nothing was pending when dirty was read: every store so far was in the image when it was written |
| CacheGenerations.ReversedOrderHidesStore | crates/unpack_core/src/cache.rs:522-530 | Reading dirty first would hide a store: why the read order matters |
| CacheGenerations.PublicationReaches | crates/unpack_core/src/cache.rs:536-576 | A publication that succeeds reaches its generation; it writes exactly the layers less what retention drops, and only if the generation was not reached before |
| CacheLayerStates.BeginGetSound | crates/unpack_core/src/cache/cache_layers.rs:223-260 | A get keeps memory sound and answers soundly |
| CacheLayerStates.FinishRestoreSound | crates/unpack_core/src/cache/cache_layers.rs:262-326 | A restore decoded outside the lock is used only if the same pack is still read, and then soundly |
| CacheLayerStates.RestoredSound | crates/unpack_core/src/cache/cache_layers.rs:301-311 | What was decoded from the still current pack is the latest entry or one under another etag |
| CacheLayerStates.PublishKeepsSound | crates/unpack_core/src/cache/pack_file_cache_strategy.rs:351-453 | A publication keeps memory, pending entries and pack sound |
| CacheLayerStates.StepInv | crates/unpack_core/src/cache/cache_layers.rs:223-381 | Every interleaving of gets, stores, publications, clears and preparations keeps the layers sound |
| CacheLayerStates.GetAnswersLatestIff | crates/unpack_core/src/cache/cache_layers.rs:223-381 | A value answered is the current entry if and only if the current entry's etag was asked for |
| CacheLayerStates.NothingStaleIsKept | crates/unpack_core/src/cache/cache_layers.rs:262-358 | Neither memory nor a pack ever holds a stale value under the current etag |
| CacheLayerStates.PlainMemoryIsOneMap | crates/unpack_core/src/cache/cache_layers.rs:223-260 | With memory only and no generations, a get is exactly a lookup in the logical map, hits and misses |
| CacheLayerStates.EvictionOnlyDescends | crates/unpack_core/src/cache/memory_with_gc_cache_plugin.rs:39-52 | Eviction turns a memory hit into what the layer below answers and changes nothing else |
| CacheLayerStates.SurvivesIff | crates/unpack_core/src/cache/memory_with_gc_cache_plugin.rs:39-52 | An entry survives completed compilations exactly while it has been unused for fewer than allowed |
| CacheLayerStates.UsedEntrySurvives | crates/unpack_core/src/cache/memory_with_gc_cache_plugin.rs:69-80 | An entry used now is found for exactly the allowed number of further compilations |
| CacheLayerStates.OlderEtagAnswers | crates/unpack_core/src/cache/cache_layers.rs:287-311 | Asking for an older etag can answer an older value out of the pack: a concrete run |
| CacheHits.RememberedIsAnswered | crates/unpack_core/src/cache/cache_layers.rs:223-260 | In every configuration, what memory has under the kind and etag asked for is answered |
| CacheHits.UnpublishedIsAnswered | crates/unpack_core/src/cache/pack_file_cache_strategy.rs:561-571 | Over every run with a writable layer: the last entry stored at an address and not published since is answered at once, whether or not a pack is read and whatever memory has evicted |
| CacheHits.PublishedIsFound | crates/unpack_core/src/cache/pack_file_cache_strategy.rs:561-588 | The last entry stored at an address, published or not, as long as no publication dropped it and the pack is read: it is answered at once, or the get decodes and a decode that succeeds answers it |
| CacheHits.KeptIsRestored | crates/unpack_core/src/cache/cache_layers.rs:288-326 | Whatever happened while a get decoded: a decode of a kept entry that succeeded is answered, or repeated on the pack that is read by then |
| CacheHits.AnsweredIsRemembered | crates/unpack_core/src/cache/cache_layers.rs:328-358 | Whatever a get answers at once is in memory from then on, renewed |
| CacheHits.RestoredIsRemembered | crates/unpack_core/src/cache/cache_layers.rs:313-358 | So is what a get answers after a decode |
| CacheHits.PackIsReadIff | crates/unpack_core/src/cache/pack_file_cache_strategy.rs:426-519 | After a publication the pack is read, after a clear it is not, after a preparation as that one decided: a get of an address found nowhere above decodes exactly then, and otherwise misses |
| CacheHits.ChangedReadersDecodeAgain | crates/unpack_core/src/cache/cache_layers.rs:288-311 | Over every run: once the pack was published, prepared or cleared, no get that began before answers what it had decoded, unless it decodes again |
| CacheConfigurations.OneMapIff | crates/unpack_core/src/cache/cache_layers.rs:199-221 | Over every interleaving the cache answers as one map would, if and only if it is not opened over a read-only pack, or is with memory that never evicts |
| CacheConfigurations.ReadOnlyCanAnswerOlder | crates/unpack_core/src/cache/cache_layers.rs:372-378 | Over a read-only pack, no memory, and memory with any number of generations, can answer an older value under the current etag: a run for each |
| CacheConfigurations.PlainHidesStale | crates/unpack_core/src/cache/cache_layers.rs:328-358 | Over a read-only pack, memory that never evicts is never stale, and whatever the pack has that is stale lies hidden under the current entry |
| CacheConfigurations.PlainOverPackStep | crates/unpack_core/src/cache/cache_layers.rs:223-381 | Every step over a read-only pack keeps that, and answers as one map would |
| CacheLayerStack.CacheLayers.BeginGet | crates/unpack_core/src/cache/cache_layers.rs:223-260 | The loop over layers answers as the two-layer specification does |
| CacheLayerStack.CacheLayers.FinishRestore | crates/unpack_core/src/cache/cache_layers.rs:262-326 | Earlier layers are asked again, then the restored one |
| CacheLayerStack.CacheLayers.UseEntry | crates/unpack_core/src/cache/cache_layers.rs:328-358 | A value found below the top is copied into every writable earlier layer |
| CacheLayerStack.CacheLayers.Store | crates/unpack_core/src/cache/cache_layers.rs:360-381 | Stores in every writable layer and reports whether one of them is persistent |
| CacheLayerStack.CacheLayers.Clear | crates/unpack_core/src/cache/cache_layers.rs:407-411 | Every layer is emptied, the pack no longer read |
| CacheLayerStack.CacheLayers.OnCompilationCompleted | crates/unpack_core/src/cache/cache_layers.rs:423-432 | Only the memory layer with generations evicts |
| CacheLayerStack.CacheLayers.PreparePersistent | crates/unpack_core/src/cache/pack_file_cache_strategy.rs:505-519 | The pack is read or not read from now on, and plans made before no longer count |
| CacheLayerStack.CacheLayers.PublishPersistent | crates/unpack_core/src/cache/pack_file_cache_strategy.rs:426-451 | Pending entries go into a new pack, which is read from now on |
| ModuleComputationCaches.UnaffectedView | crates/unpack_core/src/module_computation_cache.rs:118-137 | An unaffected module sees the same signatures in its whole forward closure as before |
| ModuleComputationCaches.PreparedAgrees | crates/unpack_core/src/module_computation_cache.rs:90-174 | After the first stage every surviving memo equals recomputation on the current graph |
| ModuleComputationCaches.AssignedAgrees | crates/unpack_core/src/module_computation_cache.rs:176-217 | A late memo that survives the second stage, and so a hash answered from it, equals recomputation from the module's forward closure and its current late signature |
| ModuleComputationCaches.HistoryAgrees | crates/unpack_core/src/module_computation_cache.rs:90-217 | Over any sequence of compilations, every memo equals recomputation from scratch |
| ModuleComputationCaches.UnaffectedKeepsMemos | crates/unpack_core/src/module_computation_cache.rs:139-169 | An unaffected module keeps its memos: only the affected closure is invalidated |
| ModuleComputationCaches.UnchangedLateMemoKept | crates/unpack_core/src/module_computation_cache.rs:195-217 | The second stage keeps a late memo exactly if its chunk references and exports did not move, and touches nothing else |
| ModuleComputationCaches.UntouchedModuleKeepsAll | crates/unpack_core/src/module_computation_cache.rs:90-217 | A compilation that changed nothing beneath a module and assigned it the same keeps all its memos |
| ModuleComputationCaches.SurvivorTranslates | crates/unpack_core/src/module_computation_cache.rs:251-275 | After the first stage a surviving static closure never misses, although modules may have departed and handles moved: it gives exactly the handles of recomputation |
| ModuleComputationCaches.ModuleComputationCache.CollectAffected | crates/unpack_core/src/module_computation_cache.rs:118-137 | The queue loop collects exactly the modules that reach a new or changed one |
| ModuleComputationCaches.ModuleComputationCache.PrepareBeforeChunkGraph | crates/unpack_core/src/module_computation_cache.rs:90-174 | Forgets departed modules and every memo of an affected one; handles follow the current graph |
| ModuleComputationCaches.ModuleComputationCache.PrepareAfterIdAssignment | crates/unpack_core/src/module_computation_cache.rs:176-217 | Replaces late memos whose chunk references or exports changed |
| ModuleComputationCaches.ModuleComputationCache.GetStaticReachable | crates/unpack_core/src/module_computation_cache.rs:251-275 | A memo is translated to current handles, or missed if one of its modules has none |
| ModuleComputationCaches.ModuleComputationCache.StoreStaticReachable | crates/unpack_core/src/module_computation_cache.rs:277-301 | Stores one memo and changes no other |
| ModuleComputationCaches.ModuleComputationCache.StoreModuleHash | crates/unpack_core/src/module_computation_cache.rs:357-367 | Stores one hash and changes no other memo |
| ExpressionPurity.KindOfIff | crates/unpack_core/src/parser.rs:657-758 | A kind is judged if and only if the rules, listed form by form, make one sure |
| ExpressionPurity.PureIff | crates/unpack_core/src/parser.rs:431-566 | An expression is judged pure if and only if nothing inside it is refused: delete, in, instanceof, minus, plus or tilde on an operand of unknown kind, a comparison of unknown kinds, or arithmetic outside two non-BigInts or two BigInts as the operator allows |
| ExpressionPurity.KindSound | crates/unpack_core/src/parser.rs:657-758 | If a kind is judged, any resulting value has it |
| ExpressionPurity.AcceptedOperands | crates/unpack_core/src/parser.rs:718-758 | An operator accepted on judged kinds never fails on values of these kinds, and gives the judged kind |
| ExpressionPurity.PureFailsIff | crates/unpack_core/src/parser.rs:431-566 | A pure expression fails if and only if evaluation reaches a name that is unresolvable or not initialised, a unary plus on a BigInt, a template substitution with an object or symbol, or a division by a BigInt zero |
| ExpressionPurity.PureNeverFails | crates/unpack_core/src/parser.rs:431-566 | Pure expressions never fail when the names used are bound, unary plus is used on operands of non-BigInt kind, templates on known primitives, and BigInt zeros are written 0 |
| ExpressionPurity.PlusOnBigIntFails | crates/unpack_core/src/parser.rs:469-472 | Unary plus on an operand of BigInt kind is judged pure and always throws |
| ExpressionPurity.PureCanThrow | crates/unpack_core/src/parser.rs:469-472 | +1n is judged pure and throws |
| ExpressionPurity.NameThrowsIff | crates/unpack_core/src/parser.rs:431-439 | A name is judged pure, and throws exactly if it is unresolvable or not initialised, except under typeof, which accepts an unresolvable one |
| ExpressionPurity.TemplateCanRunCode | crates/unpack_core/src/parser.rs:524-531 | A template over a name bound to an object is judged pure and may run code |
| UsageFlagging.FlagAlong | crates/unpack_core/src/flag_dependency_usage_plugin.rs:49-103 | One connection: flags only grow, stay justified, and without a change the connection is satisfied |
| UsageFlagging.FlagFixpoint | crates/unpack_core/src/flag_dependency_usage_plugin.rs:47-107 | The loop ends, with flags that are closed and all justified |
| UsageFlagging.FlagDependencyUsage | crates/unpack_core/src/flag_dependency_usage_plugin.rs:26-117 | An export is flagged exactly if a finite chain of imports and re-exports from an entry or import() asks for it |
| UsageFlagging.ClosedHoldsJustified | crates/unpack_core/src/flag_dependency_usage_plugin.rs:47-107 | Any closed flags hold everything that has a justification chain |
| UsageFlagging.FlaggedIsLeast | crates/unpack_core/src/flag_dependency_usage_plugin.rs:47-107 | The result is the least closed usage, All or a set of names |
| UsageFlagging.StarPassesOn | crates/unpack_core/src/flag_dependency_usage_plugin.rs:79-104 | A star re-export passes on every name used of its module but default, unless its target is known not to have it |
| UsageFlagging.StarsPassNoDefault | crates/unpack_core/src/flag_dependency_usage_plugin.rs:94-104 | A module reached only by star re-exports is never asked for default, nor for a name it is known not to have, and only for names used of what re-exports it |
| UsageFlagging.FlaggingIgnoresOrder | crates/unpack_core/src/flag_dependency_usage_plugin.rs:49 | Order and repetition of connections and entries do not change a flag |
| UsageFlagging.GrowthUsesRoom | crates/unpack_core/src/flag_dependency_usage_plugin.rs:47-107 | Every change uses up room: termination |
| UsageFlagging.NamespaceOnlyUnused | crates/unpack_core/src/flag_dependency_usage_plugin.rs:56-68 | A module imported only as a namespace, whose ids are empty, has no used export |
| BuildingGraphs.BuildingModuleGraph.AddModule | crates/unpack_core/src/module_graph.rs:161-177 | A new module with empty indexes |
| BuildingGraphs.BuildingModuleGraph.Connect | crates/unpack_core/src/module_graph.rs:179-211 | One connection, entered in the outgoing, incoming and location indexes |
| BuildingGraphs.BuildingModuleGraph.UpdateConnectionModule | crates/unpack_core/src/module_graph.rs:99-111 | A connection is turned to another module; only the incoming indexes of both change |
| BuildingGraphs.ConnectIndexed | crates/unpack_core/src/module_graph.rs:179-211 | Connecting keeps all three indexes in agreement with the connections |
| BuildingGraphs.RetargetIndexed | crates/unpack_core/src/module_graph.rs:99-111 | So does retargeting |
| BuildingGraphs.RetargetLeads | crates/unpack_core/src/module_graph.rs:99-111 | The connection leads to the new module and is listed among what leads there and nowhere else; no other connection moves |
| BuildingGraphs.LocationExact | crates/unpack_core/src/module_graph.rs:138-153 | Where no two connections stand at one place, the location index is exact |
| MakePhases.GroupDependenciesForFactorization | crates/unpack_core/src/make.rs:999-1016 | The loop groups as specified |
| MakePhases.GroupedExact | crates/unpack_core/src/make.rs:999-1016 | Each request has one group with exactly its dependencies in order; dependencies without a request are dropped |
| MakeStates.MakeState.AddOrConnect | crates/unpack_core/src/make.rs:1056-1093 | The module of an identity is found or added, and each dependency gets one connection to it |
| MakeStates.MakeState.FinishBuild | crates/unpack_core/src/make.rs:1095-1106 | Built, and no longer building |
| MakeStates.MakeState.FailModule | crates/unpack_core/src/make.rs:1108-1121 | Failed, no longer building, one more error |
| MakeStates.ConnectAllEffect | crates/unpack_core/src/make.rs:1076-1087 | Connecting appends exactly one connection per dependency and changes no module |
| MakeSafety.AddLands | crates/unpack_core/src/make.rs:565-619 | A resolved or failed request lands on a module that stands for it |
| MakeSafety.RunKeeps | crates/unpack_core/src/make.rs:508-535 | Every task keeps the graph right and creates only tasks that are right |
| MakeSafety.RunBalanced | crates/unpack_core/src/make.rs:538-619 | What a task owes passes to connections and children and nowhere else |
| MakeSafety.QueuedOnce | crates/unpack_core/src/make.rs:957-997 | A built module queues each of its module dependencies once, at its place |
| MakeSafety.FailureMarksStandIn | crates/unpack_core/src/make.rs:603-615 | A failed request marks its stand-in module as failed even if it was built: what a collision of identities does |
| MakeQuiescence.StepInv | crates/unpack_core/src/make.rs:413-457 | Main queue, background tasks and their collection, in any interleaving, keep the invariant |
| MakeQuiescence.NeverStuck | crates/unpack_core/src/make.rs:413-438 | Unless everything is done some step can be taken |
| MakeQuiescence.BuiltOnce | crates/unpack_core/src/make.rs:592-601 | Each identity has one module, and a module has an outstanding build exactly while it is building, so it is built once |
| MakeQuiescence.AlwaysSound | crates/unpack_core/src/make.rs:413-457 | At every moment whatever was added is needed, and whatever is connected is connected to the right module |
| MakeQuiescence.ModulesAreReachable | crates/unpack_core/src/make.rs:390-457 | At quiescence the modules are exactly those reachable from the entries |
| MakeQuiescence.EntriesResolved | crates/unpack_core/src/make.rs:1077-1079 | Every entry has its module |
| MakeQuiescence.ConnectionsAreExact | crates/unpack_core/src/make.rs:957-1016 | Each module dependency has exactly one connection, nothing else has one, and the indexes agree |
| MakeQuiescence.LookupIsResolution | crates/unpack_core/src/module_graph.rs:138-153 | Looking a dependency up gives what its request resolves to in its module's context |
| MakeQuiescence.SchedulesBuildTheSame | crates/unpack_core/src/make.rs:413-457 | Any two schedules build the same modules |
| MakeQuiescence.SchedulesConnectTheSame | crates/unpack_core/src/make.rs:413-457 | and connect each dependency to the same module, whatever the handles |
| MakeCollisions.OneNodeEach | crates/unpack_core/src/make.rs:1056-1093 | Over every schedule of any world, an identity stands for a module or for a failed request, never for both |
| MakeCollisions.ReachableModulesIff | crates/unpack_core/src/make.rs:390-457 | A finished graph holds exactly the needed modules if and only if no identity is needed both as a module and as a failed request's stand-in |
| MakeCollisions.CollisionDependsOnSchedule | crates/unpack_core/src/make.rs:603-615 | A file asked for as ./x and as a package x that does not exist: two schedules end with different modules, and neither holds both |
| MakeErrors.ErrorsAreExact | crates/unpack_core/src/make.rs:604-615 | When nothing is left to do, exactly these errors have been reported: one for each entry that does not resolve, one for each module whose source does not parse, and one for each request that does not resolve in a module that was built, however many of its dependencies ask for it |
| MakeErrors.SchedulesReportTheSame | crates/unpack_core/src/make.rs:396-460 | Any two schedules report the same number of errors |
| MakeErrors.SilentIff | crates/unpack_core/src/make.rs:1108-1121 | No error is reported if and only if everything needed resolves and parses |
| LoaderWaiting.LoaderWaitCreatesCycle | crates/unpack_core/src/make.rs:1041-1054 | Answers exactly whether following the recorded waits from the target arrives at the origin |
| LoaderWaiting.RecordKeepsAcyclicIff | crates/unpack_core/src/make.rs:121-128 | Recording a wait keeps the tracked waits acyclic exactly if the check passes |
| LoaderWaiting.LoaderWaits.Record | crates/unpack_core/src/make.rs:121-138 | A wait that would close a circle is refused and not recorded |
| RenderIds.FewerUntried | crates/unpack_core/src/id_assignment.rs:183-186 | A renaming attempt in vain leaves fewer used names untried: the loop ends by pigeonhole |
| RenderIds.FirstFreeIsFirst | crates/unpack_core/src/id_assignment.rs:196-198 | No free name is passed over |
| RenderIds.IdsDistinct | crates/unpack_core/src/id_assignment.rs:147-205 | All ids print differently, strings and numbers together, and none prints as a reserved name |
| RenderIds.NamedExact | crates/unpack_core/src/id_assignment.rs:165-189 | What each name becomes: its short name if unshared and free, else that with the hash of the full name, else that with the first free number |
| RenderIds.NumbersExact | crates/unpack_core/src/id_assignment.rs:191-202 | The unnamed get ascending numbers, and no free number is passed over |
| RenderIds.NamedReadable | crates/unpack_core/src/id_assignment.rs:165-189 | Every string id begins with its short name, and is the short name where nobody shares it and it is free |
| RenderIds.DistinctShortsKept | crates/unpack_core/src/id_assignment.rs:173-176 | Short names that nobody shares and that are not reserved are all kept as they are |
| RenderIds.AssignNamedIdsWithReserved | crates/unpack_core/src/id_assignment.rs:147-205 | Every candidate gets the id of its place in sorted order, no other item gets one |
| RenderIds.AssignedDistinct | crates/unpack_core/src/id_assignment.rs:147-205 | No two items have ids that print alike or as a reserved name |
| RenderIds.IdsDependOnNames | crates/unpack_core/src/id_assignment.rs:147-205 | With distinct names an id depends only on the set of names, not on handles or input order |
| RenderIds.AssignChunkRenderIds | crates/unpack_core/src/id_assignment.rs:82-138 | Named chunks first, their ids reserved for the others: all chunk ids print differently |
| CacheIdentifiers.FromParts | crates/unpack_core/src/cache_facade.rs:55-62 | Each part behind its length in eight little-endian bytes |
| CacheIdentifiers.FromBorrowedParts | crates/unpack_core/src/cache_facade.rs:64-80 | The same bytes, with an exact capacity |
| CacheIdentifiers.DecodeEncode | crates/unpack_core/src/cache_facade.rs:55-80 | An identifier decodes to exactly the parts that built it |
| CacheIdentifiers.EncodeDecode | crates/unpack_core/src/cache_facade.rs:55-80 | Only identifiers decode: the encoding is a bijection onto what decodes |
| CacheIdentifiers.EncodeInjective | crates/unpack_core/src/cache_facade.rs:55-80 | Distinct part lists never share an identifier |
| CacheIdentifiers.IdentityInjective | crates/unpack_core/src/cache/cache_items.rs:44-83 | Distinct module identities, with optional fields and loader lists, never share an identifier |
| CacheIdentifiers.ModuleIdentifier | crates/unpack_core/src/cache/cache_items.rs:44-71 | The identifier of a module identity, decodable to its parts |

## Left out

- ChunkGraphAssembly.BuildChunkGraph: the order of module identities is given as a numbering of modules; the sort is a repeated choice of the least.
- ModuleComputationCaches.HistoryAgrees: a memoised computation sees the signatures of the module's forward closure and, late, its own late signature; hashes of concatenated roots, which also see the late signatures of inner modules, are outside it. Statistics are left out, and the invalidation loop names modules by identity instead of handle.
- CacheLayerStack.CacheLayers.UseEntry: the access time that a hit renews in a writable pack, and the generation that raises, are not part of the layers here; `CacheGenerations` has such generations as `Raised`.
- SplitApplication.ApplySplitChunks: with a name, groups may gain modules that nothing requires; loads that only such a module could start are not claimed to be safe, only those of the unsplit graph (`SplitNeverMisses`).
- CacheProtocol.StepInv: stores happen only while a run is active, so the early preparation before a run and tasks outliving a failed run lie outside; deadlines are numbers, and change notifications, cancellation and liveness are not modelled.
- CacheGenerations.PublishedIsDurable: generations are unbounded, so saturation at the top of u64 is not modelled; the same holds for timer tokens, run ids and memory generations. Which entries retention drops is left open.
- CacheLayerStates.StepInv: a pack is a map of entries under an identity; its file format, codecs and access times are not part of this model, and a decode may fail at any time. Hit and miss counters are left out. Read-only packs are the subject of `CacheConfigurations`.
- MakeQuiescence.StepInv: loaders, and modules they request while building, are left out, as are errors that abort the whole compilation; resolving and parsing are given functions. It is stated for worlds in which no identity is needed both as a module and as a failed request; `ReachableModulesIff` covers the others. Termination is not claimed, since the reachable set may be infinite.
- LoaderWaiting.LoaderWaits.Record: one wait per module, overwritten as in the source, so the tracked graph stays acyclic but freedom from deadlock is not claimed.
- RenderIds.AssignNamedIdsWithReserved: the ordered map of short names and the sort within each group are one sort by short name, full name and item; counters are unbounded, and the hash that gives the suffix is a given function.
- ExpressionPurity.PureFailsIff: covers literals, names, templates, unary, binary, logical, conditional, sequence and parenthesised forms; arrays, objects, classes and annotated calls are left out. The text of a BigInt literal is whatever the parser keeps, so a zero written otherwise than 0 counts as non-zero. The size limit of BigInts is not modelled.
- UsageFlagging.FlagDependencyUsage: a star re-export has no name of its own, as the parser builds it.
- RuntimeRequirementSets.ResolveRuntimeModules: the persisted mask's validity check is left out; the source of runtime modules is generated text.
- From one graph to the next: how the finished module graph is turned into what planning, usage flagging and memoisation read of it; each has the part it reads as its input.
- The module concatenation and side-effect plugins, which rewrite connections after the graph is built, apart from the update of one connection.
- File system snapshots, path normalisation and resolver calls: they rest on the file system.
- Generated JavaScript, source maps and asset emission: text templates over an external library.
- The visitors and scope collectors of the parser, the bridge to Node and the TypeScript facades.
- The watch cache: its correctness rests on what file watchers report.
