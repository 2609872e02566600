# Sessions, tasks and small protocols of the logos kernel, verified

A Dafny model of the parts of the kernel that decide something: which session a chat message joins and
where that session lives, what a task may become and in which order a plan is worked off, how JSON
documents are merged, how anchors supersede each other, how one-time tokens become sessions, how URIs
are read, and when the scanner for result pages ends. Check it with `dafny verify dfyconfig.toml`.

## The parts

**Session store** (`Recency`, `Layers`, `Refinement`, `Contents`, `Archive`, `Storage`, `SessionStore`,
`Forest`, `Interleaving`, `Sequential`, `Exclusivity`, `DoubleFault`). `Recency` is the specification:
one list of sessions, most recently active first; observing a message moves one session to the front or
opens a new one there. `Layers` states what one locked section does to the two hash maps and the index,
as a relation, because `min_by_key` may pick any of several equally old sessions. `Refinement` proves
that whatever is picked, L0 and L1 stay consecutive stretches of the list. `SessionStore` is the class,
with the loops of the source, and its `Observe` is proved to take the list to the next list. `Forest`
says what the list means: reply trees. `Interleaving` cuts `observe` into its locked and unlocked steps,
for any number of threads; `Sequential` says that these are the phases of the store; `Exclusivity` says
exactly which of these runs conserve sessions and messages, and `DoubleFault` has one that does not.

**Tasks and plans** (`Tasks`, `Plans`, `Complete`, `System`, `Scheduler`). `Tasks` has the SQL
statements as functions of a table and `TaskDb` on top of them. `Plans` is about runs: every sequence
of statements by agents and by the one scheduler. `System` is the class whose entry points record the
statements that they issue, so that what holds of all runs holds of all its states; `Complete` has the
contract of a completion, `Scheduler` the tick.

**The rest**: `JsonMerge` (with `Json`), `Anchors`, `Tokens`, `Uri`, `Scanner` (with `ResultPages`); `Text`
and `Wrappers` are shared.

## What is assumed

- Message ids are non-negative and never observed twice, in all chats together, and the clock that
  `observe` reads strictly increases (`Recency.WellFormed`). The index is keyed by message id alone, so
  this is needed although ids are given out per group.
- The two tables of L2 do what they are told and do not fail; the vector search returns any archived
  session of the chat, or none. An L2 store that is handed over is empty.
- An SQL statement is one step and fails only where a constraint of its table says so. A stored plan or
  fact list reads back as it was written.
- One scheduler; timestamps of executor ids have fifteen characters (`%Y%m%dT%H%M%S`).

## Where the code does less than one may expect

Each of these is proved, together with a condition that rules it out; where a lemma is named `…Iff` or
says "exactly", that condition is also necessary.

- Two replies to one archived session, faulted in at the same time, can lose a message for good
  (`DoubleFault.DoubleFaultLosesMessage`, for any capacities). Runs in which each loaded copy goes on to
  its deletion keep every session and message exactly if this never happens (`Exclusivity.ConservationIff`).
- `complete` is documented as atomic (crates/logos-system/src/complete.rs:32). On errors it leaves task rows
  and anchor rows as they were exactly for the calls of `Complete.AtomicIff`: a resume deletes before it
  checks, a plan is stored before the transition, the status is written before the anchor, and superseded
  anchors are marked before the new one is inserted (`Complete.FailureMarks`).
- A transition checks and writes in two statements, so a finished row can be put to sleep by two
  concurrent completions (`Tasks.FinishedCanSleep`, `Tasks.LateMoveHarmless`); a pop can overwrite a plan
  that was stored in between (`Tasks.LatePopHarmless`).
- The dispatch guard looks for active executors while new ones are pending: a planner can get a second
  executor before the first was started (`Plans.TwoExecutors`, `Scheduler.TwoTicks`). It never does exactly
  when all its unfinished executors are active whenever the scheduler takes (`Plans.AtMostOneGuarded`).
- A plan loses an item exactly when an executor id is taken (`Plans.LostIff`), and this ends the tick
  (`Scheduler.CronScheduler.TickPlans`).
- A second anchor in one minute that supersedes the first fails, but leaves the first one superseded by
  itself (`Anchors.SelfLink`, `Anchors.KeepsForwardIff`).
- `json_deep_merge` is not JSON Merge Patch for patches with null members (`JsonMerge.AgreesWithStandard`),
  and two patches can be merged beforehand only if the second puts no object over another value of the
  first (`JsonMerge.AssociativeIff`).
- Session keys repeat once the counter has wrapped (`Tokens.KeysRepeatIff`).
- The page scanner can come back to one place for ever, or fill its results with copies of one link
  (`ResultPages.LateRepeats`); when it ends is `Scanner.EndsIff`. On pages in the format that it is
  written for no good entry is lost, whatever other links lack (`ResultPages.PageReadsBack`).

## Model

| member | source | states |
|---|---|---|
| `SessionTypes.SessionIdInjective` | crates/logos-session/src/lib.rs:51-53 | Printed session ids of non-negative messages differ for different chats or messages, whatever dashes a chat name holds |
| `SessionTypes.NegativeIdsCollide` | crates/logos-session/src/lib.rs:51-53 | With negative message ids two chats can print one session id, so the bound is needed |
| `Recency.RunGood` | crates/logos-session/src/lib.rs:511-641 | In every run of observations the sessions are strictly ordered by activity, and no two share a name or a message |
| `Recency.StepIs` | crates/logos-session/src/lib.rs:511-641 | Which session a message joins: for a reply the one that holds the message replied to, otherwise the archived one of the same chat that the search names, otherwise a new one; it is then in front with the message at its end, and all others are as they were |
| `Recency.ChatsApart` | crates/logos-session/src/lib.rs:384-388 | Over every run in which replies stay in their chat, with any search results, each session holds messages of its own chat only |
| `Layers.CriticalSafe` | crates/logos-session/src/lib.rs:576-675 | A locked section keeps every index entry resident and both layers within capacity, whatever the unlocked phases hand to it |
| `Refinement.EvictsCut` | crates/logos-session/src/lib.rs:643-675 | The two eviction loops cut the recency list at both capacities and hand out what lies beyond, oldest first, whichever equally old session they pick |
| `Refinement.CriticalRefines` | crates/logos-session/src/lib.rs:576-675 | One locked section moves the joined session to the front of the list that the layers stand for |
| `Contents.CriticalConserves` | crates/logos-session/src/lib.rs:576-675 | A locked section loses and duplicates no session: layers and evicted sessions together are the old ones with the joined one put in |
| `Storage.LayersApart` | crates/logos-session/src/lib.rs:84-107 | At rest both layers are as full as the list allows, and no session is in two of L0, L1 and L2 |
| `Storage.IndexExact` | crates/logos-session/src/lib.rs:84-107 | `msg_index` knows exactly the messages of resident sessions and leads each to its session |
| `Storage.FaultFinds` | crates/logos-session/src/lib.rs:349-373 | Loading by message from L2 finds the session of the list that holds it exactly if that one is archived, and nothing otherwise |
| `Storage.PersistStores` | crates/logos-session/src/lib.rs:633-640 | Persisting the next evicted session extends the archived stretch of the list by it, the two tables agreeing |
| `Storage.Locate` | crates/logos-session/src/lib.rs:677-687 | In memory the index and the layers lead a message to its session exactly when that one is resident |
| `Archive.PersistAgrees` | crates/logos-session/src/lib.rs:230-316 | Persisting keeps index and sessions of L2 inverse to each other exactly when the session shares no message with another row and its older copy has none that it lost |
| `Archive.DeleteAgrees` | crates/logos-session/src/lib.rs:318-332 | Deleting a session keeps the two L2 tables inverse to each other |
| `Archive.LoadByMsgScans` | crates/logos-session/src/lib.rs:349-373 | Over agreeing tables the indexed lookup equals a full scan for the message |
| `Archive.L2Store.Persist` | crates/logos-session/src/lib.rs:230-279 | Drops an older copy, adds the row, and rewrites the index entries of its messages |
| `Archive.L2Store.UpdateMsgIndex` | crates/logos-session/src/lib.rs:281-316 | Deletes the entries of all messages of the session, whoever owned them, and adds its own |
| `SessionStore.SessionStore.Oldest` | crates/logos-session/src/lib.rs:645-649 | A key of least activity |
| `SessionStore.SessionStore.EvictCollect` | crates/logos-session/src/lib.rs:643-675 | The loops end within capacity and make only moves of an oldest session |
| `SessionStore.SessionStore.Locked` | crates/logos-session/src/lib.rs:576-631 | The four branches of the locked section and the eviction after them |
| `SessionStore.SessionStore.Fetch` | crates/logos-session/src/lib.rs:515-573 | Which session the unlocked phases load, and that it is gone from L2 afterwards |
| `SessionStore.SessionStore.PersistAll` | crates/logos-session/src/lib.rs:633-640 | After persisting, L2 holds exactly the rest of the list |
| `SessionStore.SessionStore.Observe` | crates/logos-session/src/lib.rs:511-641 | Move-to-front refinement: from any reachable store, any capacities and any semantic match, the list becomes the next list, its stretches in L0, L1 and L2, cut without L2; which session is in front and what it holds is said in terms of the message and the list alone |
| `SessionStore.SessionStore.GetSessionForMsg` | crates/logos-session/src/lib.rs:677-696 | The session of the list that holds the message, wherever it lies, or none; its messages are of one chat if replies stay in theirs |
| `SessionStore.SessionStore.GetActiveSession` | crates/logos-session/src/lib.rs:716-724 | The first session of the chat among those that L0 has room for |
| `Storage.LatestIsFirst` | crates/logos-session/src/lib.rs:716-724 | A latest session of a chat in the hash map is the first one of the chat in the list |
| `Forest.SessionsAreTrees` | crates/logos-session/src/lib.rs:515-631 | With L2 and no semantic match the sessions are exactly the trees of the reply forest, messages in arrival order |
| `Forest.LookupIsTree` | crates/logos-session/src/lib.rs:677-696 | Looking up an observed message gives the tree of its root |
| `Forest.CapacityIndependent` | crates/logos-session/src/lib.rs:643-675 | With L2 the capacities do not change the list, hence no lookup |
| `Forest.RepliesBind` | crates/logos-session/src/lib.rs:515-631 | With any semantic matches every observed message stays in some session, a reply in that of its parent |
| `Forest.OneSession` | crates/logos-session/src/lib.rs:511-641 | No message is in two sessions |
| `Interleaving.IndexSafety` | crates/logos-session/src/lib.rs:589-603 | In every interleaving, with arbitrary L2 results, index entries are resident and capacities kept, so the arm that drops a reply is unreachable |
| `Sequential.UpToTheLock` | crates/logos-session/src/lib.rs:515-573 | A call without interference loads, deletes and hands over in its steps what the unlocked phases of the store do |
| `Sequential.AfterTheLock` | crates/logos-session/src/lib.rs:633-640 | And persists each evicted session in the place of an older copy |
| `Interleaving.StepConserves` | crates/logos-session/src/lib.rs:511-641 | Every locked or unlocked step keeps one owner for each session and every message past its locked section |
| `Interleaving.Conservation` | crates/logos-session/src/lib.rs:511-641 | So does every interleaving in which no session is faulted in by two calls at once |
| `Exclusivity.ConservationIff` | crates/logos-session/src/lib.rs:511-641 | For every run in which each loaded copy goes on to its deletion: one owner for each session, no message twice and none lost, at every moment, exactly if no session was ever loaded by two calls at once |
| `Exclusivity.DeletesNewer` | crates/logos-session/src/lib.rs:540-547 | A deletion with a copy older than the first call's message leaves two owners or loses that message |
| `DoubleFault.DoubleFaultLosesMessage` | crates/logos-session/src/lib.rs:540-547 | For any capacities there is a run with two calls at once that loses a message for good |
| `Tasks.TaskDb.Create` | crates/logos-system/src/tasks.rs:67-100 | A new row is pending with an empty plan, a taken id or a text that is not JSON fails and changes nothing |
| `Tasks.InsertedIs` | crates/logos-system/src/tasks.rs:67-85 | Each column of a created row is the text of the member of its own name, or its default |
| `Tasks.DescribedApart` | crates/logos-system/src/tasks.rs:112-141 | A new description changes that field of that row alone, and transitions and pops come out the same before and after it |
| `Tasks.PlanDrains` | crates/logos-system/src/tasks.rs:144-202 | A stored plan is popped item by item in its order, and the row is listed for scheduling exactly while it sleeps and items remain |
| `Tasks.TaskDb.PopPlanHead` | crates/logos-system/src/tasks.rs:175-202 | Takes the head and stores the rest |
| `Tasks.TaskDb.TransitionStatus` | crates/logos-system/src/tasks.rs:204-234 | Writes a status exactly along an allowed edge |
| `Tasks.TaskDb.HasActiveExecutor` | crates/logos-system/src/lib.rs:80-91 | Some active row has the planner as its parent |
| `Tasks.FinishedCanSleep` | crates/logos-system/src/tasks.rs:209-231 | Two completions that both check before either writes put a finished row to sleep |
| `Tasks.LateMoveHarmless` | crates/logos-system/src/tasks.rs:209-231 | A late status update equals an undivided transition exactly when the row is gone, the check would come out the same, or the status is there already |
| `Tasks.LatePopHarmless` | crates/logos-system/src/tasks.rs:179-201 | A late write-back equals an undivided pop exactly when the row is gone or popping its plan leaves what popping the plan that was read leaves |
| `Plans.StatusStep` | crates/logos-system/src/tasks.rs:204-234 | Of all statements only a transition changes a status, along an allowed edge |
| `Plans.Lifecycle` | crates/logos-system/src/tasks.rs:6-11 | Over every run the statuses of a row begin with pending, use only the four edges, and finished comes only last |
| `Plans.FinishedStays` | crates/logos-system/src/tasks.rs:6-11 | A finished row stays finished for as long as it is there |
| `Plans.PlansInOrder` | crates/logos-kernel/src/cron.rs:95-122 | Over every run, what was dispatched and what is in hand begin each submitted plan, and with the stored rest make up the plan in force, unless a launch failed |
| `Plans.LostIff` | crates/logos-kernel/src/cron.rs:95-122 | Over every run, sent, held and stored items spell the plan in force exactly as long as no launch of one of them found its executor id taken; after that some are missing |
| `Plans.ExecutorIdInjective` | crates/logos-kernel/src/cron.rs:109-110 | Executor ids are printed from planner and timestamp, and with timestamps of one length determine both |
| `Plans.ExecutorIdsCanMeet` | crates/logos-kernel/src/cron.rs:109-110 | Without the fixed length two planners can ask for one id |
| `Plans.LaunchFresh` | crates/logos-kernel/src/cron.rs:109-118 | In a paced run the next executor id is free |
| `Plans.NothingLost` | crates/logos-kernel/src/cron.rs:95-122 | In a paced run no submission ever loses an item |
| `Plans.Conserved` | crates/logos-kernel/src/cron.rs:95-122 | So executors created since the submission, the item in hand and the stored rest spell the submitted list |
| `Plans.AtMostOneIff` | crates/logos-system/src/lib.rs:80-91 | Over every run, a planner never has two executors at work exactly when the scheduler takes from its plan only while none is unfinished |
| `Plans.GuardIff` | crates/logos-system/src/lib.rs:80-91 | The guard sees that none is unfinished exactly up to executors that are pending or asleep |
| `Plans.AtMostOneGuarded` | crates/logos-system/src/lib.rs:80-91 | So in runs that the guard lets through, never two at work exactly when every unfinished executor is active at each take |
| `Plans.TwoExecutors` | crates/logos-system/src/lib.rs:82-90 | A run of eight statements that the guard lets through and that leaves two unfinished executors |
| `Complete.CompletionTable` | crates/logos-system/src/complete.rs:42-133 | The whole table and the answer of a completion without resume, for missing, finished and other rows |
| `Complete.CompletionContract` | crates/logos-system/src/complete.rs:42-133 | It succeeds exactly for an unfinished row whose anchor can be inserted, reaches the goal, and changes no other row but for a new pending one |
| `Complete.CloseKeepsPromise` | crates/logos-system/src/complete.rs:42-133 | In terms of the call alone: the row is finished exactly without plan and reason to sleep, and asleep otherwise, with the plan stored; anchor, regeneration row, frame and answer for every case |
| `Complete.ResumeContract` | crates/logos-system/src/complete.rs:47-58 | A resume succeeds exactly for another row that is pending or asleep, and answers with its id; the current row is gone either way |
| `Complete.AtomicIff` | crates/logos-system/src/complete.rs:32-134 | A failing completion leaves task rows and anchor rows as they were exactly for the calls that a caller can tell beforehand |
| `Complete.FailureMarks` | crates/logos-system/src/complete.rs:95-108 | A call that fails, leaves the task table as it was, and has marked an anchor |
| `System.SystemModule.CompleteTask` | crates/logos-system/src/complete.rs:36-134 | Table, anchors and answer of every path in terms of the call alone, and the issued statements |
| `System.SystemModule.Write` | crates/logos-system/src/lib.rs:143-161 | Adds a pending row or changes one description; errors change nothing |
| `System.SystemModule.Patch` | crates/logos-system/src/lib.rs:163-184 | On a row nothing but the description changes, to what the patch says if it says a text; on any other path it is a write |
| `System.CreateReadsBack` | crates/logos-system/src/tasks.rs:67-85 | Creating from the printed form of a row gives that row again, but pending and without its plan |
| `System.PatchedDescription` | crates/logos-system/src/lib.rs:168-179 | Merging into the printed row and reading the description back is patching the description alone |
| `Scheduler.CronScheduler.TickPlans` | crates/logos-kernel/src/cron.rs:95-122 | A tick serves exactly the unblocked planners, and fails exactly when one of their executor ids is taken, after popping that item |
| `Scheduler.SameGuard` | crates/logos-kernel/src/cron.rs:99-101 | Executors of a tick do not block planners that come later in it |
| `Scheduler.OnePerPlanner` | crates/logos-kernel/src/cron.rs:108-118 | One new executor for each unblocked planner, none for others |
| `Scheduler.TickShrinks` | crates/logos-kernel/src/cron.rs:95-122 | A tick shortens what waits in all plans by the number of unblocked planners |
| `Scheduler.UnfinishedAfterTick` | crates/logos-system/src/lib.rs:80-91 | A tick adds one unfinished executor to the served planners and none to others |
| `Scheduler.SecondExecutor` | crates/logos-system/src/lib.rs:82-90 | Any two ticks without an activation in between give a planner with two items a second unfinished executor |
| `Scheduler.TwoTicks` | crates/logos-system/src/lib.rs:82-90 | Two such ticks from a table with one sleeping planner |
| `JsonMerge.DeepMerge` | crates/logos-vfs/src/lib.rs:11-22 | The in-place loop, in any order of the members, computes the merge |
| `JsonMerge.MergeAt` | crates/logos-vfs/src/lib.rs:11-22 | Path by path: the patch where it says something, nothing below its leaves, the base elsewhere |
| `JsonMerge.AtDetermines` | crates/logos-vfs/src/lib.rs:11-22 | The path-wise statement leaves one possible result |
| `JsonMerge.Idempotent` | crates/logos-vfs/src/lib.rs:11-22 | A patch applied twice changes nothing more |
| `JsonMerge.AssociativeIff` | crates/logos-vfs/src/lib.rs:11-22 | Two patches may be merged beforehand for all bases exactly when the second puts no object over another value of the first |
| `JsonMerge.AgreesWithStandard` | crates/logos-vfs/src/lib.rs:11-22 | For every base the result is that of MergePatch, section 2 of RFC 7396, exactly for patches without null members |
| `Anchors.UriRoundTrip` | crates/logos-system/src/anchors.rs:55-55 | A printed anchor URI reads back as its pair exactly when neither part has a slash |
| `Anchors.ParseUriIff` | crates/logos-system/src/anchors.rs:119-128 | An anchor URI is exactly a text of six parts between slashes with `anchors` as the fourth, whatever its scheme |
| `Anchors.CreatedAs` | crates/logos-system/src/anchors.rs:57-87 | An old row changes exactly if a fact names it as superseded, by a text or in an array; then each of its object facts has the status and the link to the new URI and is else as it was; the new row is there as asked for |
| `Anchors.AnchorDb.MarkSuperseded` | crates/logos-system/src/anchors.rs:114-167 | Marks the facts of the named row, if any, and rejects what is no anchor URI |
| `Anchors.AnchorDb.Create` | crates/logos-system/src/anchors.rs:47-107 | The same of the loops: exactly the superseded rows are marked, fact by fact, then the row is inserted, or fails on a taken key with the marks made |
| `Anchors.KeepsForwardIff` | crates/logos-system/src/anchors.rs:47-167 | Links keep leading to later anchors exactly when the key is free or only earlier rows than its holder are marked |
| `Anchors.SelfLink` | crates/logos-system/src/anchors.rs:53-87 | A second anchor in one minute that supersedes the first leaves it superseded by itself |
| `Anchors.BuildProper` | crates/logos-system/src/anchors.rs:47-107 | Over every proper run of creations links lead forward and every anchor is there under its key |
| `Anchors.SupersededStays` | crates/logos-system/src/anchors.rs:147-155 | A superseded fact stays superseded, whatever is created afterwards |
| `Anchors.ChainsEnd` | crates/logos-system/src/anchors.rs:59-74 | Following links from any anchor ends at one that is not superseded |
| `Tokens.OneSessionEach` | crates/logos-kernel/src/token.rs:97-115 | In every interleaving a registration yields at most one session, with the registered data |
| `Tokens.KeyReads` | crates/logos-kernel/src/token.rs:99-103 | A key is `s-` and its number in decimal digits, as a u64 has it |
| `Tokens.KeysRepeatIff` | crates/logos-kernel/src/token.rs:99-103 | Two session numbers print one key exactly when the u64 counter has gone round between them |
| `Tokens.KeysUnique` | crates/logos-kernel/src/token.rs:99-103 | Until then no two sessions ever had one key |
| `Tokens.Resolves` | crates/logos-kernel/src/token.rs:127-133 | A known key resolves to the data of its one grant |
| `Tokens.NeverReused` | crates/logos-kernel/src/token.rs:135-141 | A key that was cleaned up never comes back before the counter wraps |
| `Tokens.GoneStays` | crates/logos-kernel/src/token.rs:85-94 | A registration revoked or overwritten in time never yields a session |
| `Tokens.TokenRegistry.Consume` | crates/logos-kernel/src/token.rs:97-115 | Spends a pending token for a session under the key of the next number, which is new, and answers nothing otherwise |
| `Tokens.TokenRegistry.Register` | crates/logos-kernel/src/token.rs:85-90 | Adds or overwrites a pending token |
| `Tokens.TokenRegistry.Revoke` | crates/logos-kernel/src/token.rs:92-94 | Removes a pending token |
| `Tokens.TokenRegistry.ResolveInfo` | crates/logos-kernel/src/token.rs:127-133 | What a known key answers is the data of a grant of that key, and of every such grant until the counter wraps |
| `Tokens.TokenRegistry.CleanupExpired` | crates/logos-kernel/src/token.rs:135-141 | Keeps exactly the sessions younger than a day |
| `Uri.ParseIs` | crates/logos-vfs/src/uri.rs:17-33 | Both schemes mean the same and no other parses; the first segment is the namespace, the others the path |
| `Uri.ParsePrintIff` | crates/logos-vfs/src/uri.rs:17-33 | Parsing inverts printing exactly for non-empty segments without slashes |
| `Uri.NormalForm` | crates/logos-vfs/src/uri.rs:17-33 | Whatever parses has a printed form that parses to the same |
| `Uri.SlashesDoNotMatter` | crates/logos-vfs/src/uri.rs:23-23 | Repeated, leading and trailing slashes after the scheme change nothing |
| `Uri.ResolveStrips` | crates/logos-kernel/src/grpc.rs:115-126 | Of a relative path all leading `./` and then all slashes go, and what is left stands behind the sandbox and the task id |
| `Uri.LandsAt` | crates/logos-kernel/src/grpc.rs:115-126 | A relative path lands below the segments of the task id with the segments that it has behind its leading dots |
| `Uri.DotMeansNothing` | crates/logos-kernel/src/grpc.rs:121-121 | A leading `./` never matters |
| `Uri.ResolvePasses` | crates/logos-kernel/src/grpc.rs:116-125 | URIs with the scheme, and paths without a session, pass through |
| `Uri.ScopedIff` | crates/logos-kernel/src/grpc.rs:115-126 | Every relative path lands under the caller's task exactly when its id is one plain segment |
| `Uri.ResolveTwice` | crates/logos-kernel/src/grpc.rs:115-126 | A resolved URI resolves to itself |
| `Scanner.Truncate` | crates/logos-kernel/src/builtin_tools/web_search.rs:80-90 | Cuts at the last character boundary within the limit |
| `Scanner.ParseDdg` | crates/logos-kernel/src/builtin_tools/web_search.rs:119-195 | On every page and limit for which it ends at all, the loop returns what the scan says |
| `Scanner.TurnIs` | crates/logos-kernel/src/builtin_tools/web_search.rs:127-192 | What one round does, by where its marks stand: what it skips and how far, and link, title and snippet of a result |
| `Scanner.EndsIff` | crates/logos-kernel/src/builtin_tools/web_search.rs:125-192 | For every page and limit the loop ends exactly when every round that it reaches advances or gains a result, and exactly when the scan has an answer, which is then what it returns |
| `Scanner.SameTurn` | crates/logos-kernel/src/builtin_tools/web_search.rs:127-165 | A round that does not get past its marker is followed by the same round |
| `Scanner.WellTaggedEnds` | crates/logos-kernel/src/builtin_tools/web_search.rs:127-165 | It ends for every limit when every marker lies inside its own opening tag |
| `Scanner.ScanBounded` | crates/logos-kernel/src/builtin_tools/web_search.rs:126-191 | At most `max` results, each with a link, a title and a bounded snippet |
| `Scanner.ScanGrows` | crates/logos-kernel/src/builtin_tools/web_search.rs:126-191 | If it ends for a limit, then for every lower one too, with the beginning of the results |
| `ResultPages.PageReadsBack` | crates/logos-kernel/src/builtin_tools/web_search.rs:119-195 | On a page of good entries, links without `href`, stray markers before and links cut off behind, in any order, the loop ends and gives back the good entries, in order, up to the limit |
| `ResultPages.LateRepeats` | crates/logos-kernel/src/builtin_tools/web_search.rs:134-165 | On a page whose marker stands behind its link the loop never ends without a title, and with one returns copies of it up to the limit |

## Left out

- Interleaving.Conservation: L2 is one map there and not two tables, and deleting or adding a row with its index entries is one step; the two tables are in `Archive` and `SessionStore`. L2 is always present there.
- Failures of L2 and of embeddings: a failed load counts as nothing found and a failed persist only logs in the source; the store is modelled with operations that do not fail.
- Embeddings, vector distance and its threshold: the search is an oracle.
- Plans.Lifecycle: a transition is one step; the two statements of the source are treated in `Tasks.LateMoveHarmless`. The same holds of popping and `Tasks.LatePopHarmless`.
- Tasks.TaskDb.TransitionStatus: the target is one of the four statuses; any other text is rejected by the source and is not modelled.
- Tasks.TaskDb.PopPlanHead: the stored plan is a list, so text that is not a list of strings, which the source reads as empty, cannot occur.
- Scheduler.CronScheduler.TickPlans: the guard query and the popping do not fail; the source reads a failing guard as not blocked. Only planner scheduling is modelled, not cron jobs and their expressions.
- System.SystemModule.Patch: the printed row has no timestamps, and reading paths other than a single row is left out, since the source writes the partial text there without merging.
- Anchors.AnchorDb.Create: the full-text index of anchors, and with it the two statements after the insertion, are left out.
- Tokens.TokenRegistry.Consume: the class is used by one thread at a time; the interleavings are in `Tokens.Run`.
- Scanner.ParseDdg: requires that the loop ends, which the source does not ask and which it does not always do; `strip_html_tags` is a parameter.
- SessionStore.SessionStore.constructor: requires an empty L2 store, so that runs over tables that an earlier process left behind are not modelled; the layers then start empty below a list that is not.
- Uri.LandsAt: a segment `..` is kept as it is, as in the source; what the file system makes of it is not modelled.
- Timestamps of rows, `sleep_retry`, the logging, and listing or searching rows.
- Full-text search, access checks, gRPC and MCP plumbing, containers, shell execution and the search clients.
- Summaries, graph, views, users, services and `get_session`: single reads and writes.
