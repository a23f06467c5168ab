# OMP client protocols and tools, modelled in Dafny

OMP is a local agent Host with browser clients. This project models the parts of it in which several things happen at
once, or in which a small algorithm carries a promise over all its inputs, and proves what those parts keep.

`dafny verify dfyconfig.toml` checks the whole project.

| file | what it models |
|---|---|
| `InputContracts.dfy` | the records of the input queue, when a queue confirms a command, and when a failure is certain (`webui/src/shared/inputApi.ts`) |
| `InputStore.dfy` | the Host's input ledger (`packages/host/input-store.mjs`): admission, edits, transitions, recovery after a restart |
| `InputQueue.dfy`, `InputQueueHook.dfy` | the input-queue client (`webui/src/shared/useInputQueue.ts`), as a state machine and as the mutable hook that refines it |
| `ExactlyOnce.dfy` | that client and that ledger joined by a network that drops requests and answers |
| `TaskSubmission.dfy`, `SessionHook.dfy` | task submission with a stored request (`webui/src/shared/useNativeSession.ts`) against the Host's request table |
| `AppSend.dfy`, `SettingsQueue.dfy` | the other two senders, `webui/src/App.tsx` and `webui/src/SettingsQueue.tsx` |
| `Replica.dfy`, `HostView.dfy` | the replicated snapshot (`webui/src/shared/api.ts`) and the hook that shows it (`webui/src/shared/useHost.ts`) |
| `TerminalInput.dfy` | the terminal's input chain (`webui/src/TerminalPane.tsx`) against the Host's `write` |
| `Composer.dfy`, `ComposerSession.dfy` | the draft of the composer (`prototypes/src/native/Conversation.tsx`, `prototypes/src/native/NativeInputs.tsx`), alone and on top of task submission |
| `Editor.dfy`, `EditorHost.dfy` | the file editor (`webui/src/EditorWorkspace.tsx`) against the Host's conditional save and other programs |
| `XmlPaths.dfy`, `XmlNames.dfy`, `Ledger.dfy` | owner paths, those of documents with legal element names, and the documentation ledger (`scripts/probes/lib/gir-material-candidate.py`) |
| `ProcessTree.dfy`, `DepthListing.dfy` | process descendants (`scripts/verify-native-live.py`) and paths from a depth listing (`prototypes/src/prototypes/ReadingRoomCoder.tsx`) |

## How it is modelled

* One step is the code between two awaits. A React render together with its effects is one step. Steps of the client, of
  the Host and of the network interleave freely; requests and answers may be lost, delayed and reordered.
* Each stateful component appears twice: as a value with a `Step` function, over which the invariants and the statements
  about whole runs are proved, and as a `class` with the source's own fields, whose methods are proved to do exactly that
  step. In each class a method `Handle` takes any event and is proved to keep the invariant too.
* `crypto.randomUUID()` yields a value not used before. A SHA-256 digest stands for the text it is taken of.
* Fields named as history in a comment are not in the source. They record what happened so that a statement can refer to it.
* The Host is the one in `packages/host`. It answers with queues it really published, files it really has and tasks it
  really started. Its internal scheduling is any sequence of ledger operations.

## What the code does not give

Some promises a reader might expect fail, and each has an exact condition here.

* The command slot of the queue client is per stay in a scope, not per scope. Entering a connected scope keeps one
  outstanding command per scope, whatever follows, exactly when no command of that scope is unanswered at the entry
  (`InputQueue.EntrySafeExactly`); a run in which every entry is of that kind never has two
  (`InputQueue.OneCommandPerScope`).
* The busy flag is wrong after exactly one family of steps: the answer to a command of an earlier stay arrives while a new
  command is in flight (`InputQueue.BusyFlagExact`).
* A 4xx answer does not always mean that the task never starts. It is final exactly when no other POST of the same
  identity is still waiting (`TaskSubmission.RejectionIsFinalExactly`). A page that never retried the request can rely on
  it (`TaskSubmission.UnretriedRejectionIsFinal`); one that did cannot (`TaskSubmission.RejectedYetStarted`). A failed
  lookup overwrites the notice whatever is pending (`TaskSubmission.LateLookupOnlyNotice`).
* Consent to resume a session is asked for once. Every post with a resume key goes back to a first post made under an arm
  (`TaskSubmission.ResumeNeedsConsent`), but the retry button posts the key again from any selection
  (`TaskSubmission.RetryWithoutConsent`). Consent stands at a post exactly when the page is armed and shows that session
  (`TaskSubmission.ConsentStandsExactly`).
* Owner paths of legal documents collide, for example `<t name="x[0]/u=y"/>` beside `<t name="x"><u name="y"/></t>`
  (`XmlNames.IdentifierCollides`). A base can be the longer of two colliding siblings exactly when it can be cut, at
  bracketed numerals followed by a slash, into two or more pieces that are bases, the last of which may also just begin a
  namespace name (`XmlNames.UnsafeExactly`). That last case is real: a namespace name with such a numeral collides with an
  identifier that ends with its beginning (`XmlNames.NamespaceCollides`).
* Interned sources are confused, in some ledger over the given projects, exactly when one project name is another one
  followed by a colon and a rest (`Ledger.OwnSourceExactly`).
* Text typed while a clean file is being reloaded, or while the workspace is closing, is dropped without a question
  (`Editor.ReloadTakesTyping`, `Editor.AnswerKeepsDraft`). Paths rebuilt from a depth listing are right exactly when only
  directories, or nodes without a name, have children (`DepthListing.ListingRoundTrip`).

Also seen while reading: `deliverSupplement` can be refused with 409 `TASK_NOT_RUNNING` after its input was stored
(`packages/host/input-controller.mjs:156-159`), so a refusal that the client treats as certain does not prove that nothing
was stored. `ExactlyOnce` allows a refusal at any time and therefore covers this.

## Model

| member | source | states |
|---|---|---|
| `InputContracts.SameInputIsEquality` | webui/src/shared/inputApi.ts:34-38 | `sameInput` holds exactly when the two contents are equal: its field list leaves nothing out |
| `InputContracts.FindInput` | webui/src/shared/inputApi.ts:41 | absent exactly when no item has the identity; otherwise an item of the queue with it |
| `InputContracts.ConfirmationIsFullContent` | webui/src/shared/inputApi.ts:39-47 | a queue that confirms a command with an input contains that whole input, not only its identity |
| `InputContracts.Classify` | webui/src/shared/inputApi.ts:18-33 | a command is reported as certainly failed exactly when the Host refused it with a status below 500 and a body other than `null`; a read is never uncertain |
| `InputStore.OpShape` | packages/host/input-store.mjs:217-263 | every stored operation keeps all records in place, never lowers a revision, and adds at most one record, whose identity was in no scope |
| `InputStore.OpKeepsStore` | packages/host/input-store.mjs:92-104 | every operation keeps every shard valid, one scope per identity, and loses no record of any scope |
| `InputStore.NewlyListed` | packages/host/input-store.mjs:217-231 | an identity appears in a queue only by its own admission |
| `InputStore.SettledRecordKept` | packages/host/input-store.mjs:233-263 | a record that left `queued` and `paused` keeps its content and never returns to them |
| `InputStore.UniqueRecord` | packages/host/input-store.mjs:60-71 | two records with one identity are the same record in the same scope |
| `InputStore.DispatchCommits` | packages/host/input-store.mjs:249-263 | handing an input to a worker commits one content for it, and none was committed before |
| `InputStore.CommittedNeverDispatches` | packages/host/input-store.mjs:249-263 | over any further operations a committed input is never handed over again and keeps its content |
| `InputStore.DispatchedAtMostOnce` | packages/host/input-store.mjs:22-22 | over every sequence of admissions, edits, transitions and restarts, no input is handed to a worker twice |
| `InputStore.AdmitStoresExactly` | packages/host/input-store.mjs:217-231 | a new identity is stored exactly under the guards of `enqueue`, as one queued record at the end; a known one answers with the unchanged queue exactly if the content is the same |
| `InputStore.EditStoresExactly` | packages/host/input-store.mjs:233-245 | an edit is stored exactly under its guards, and then that record holds exactly the new content with one more revision, all else as before |
| `InputStore.EditRefusals` | packages/host/input-store.mjs:233-245 | the code of a refused edit, by the first check that fails |
| `InputStore.TransitionStoresExactly` | packages/host/input-store.mjs:249-263 | a transition is stored exactly under its guards, and then that record has the new state and its evidence, its content and the other records as before |
| `InputStore.UnlistedRefused` | packages/host/input-store.mjs:236-237 | edits and transitions of an identity that is not listed are refused |
| `InputStore.ContentIsLatest` | packages/host/input-store.mjs:217-245 | over every sequence of operations each record holds the content of the latest stored admission or edit of its identity |
| `InputStore.DispatchSendsLatest` | packages/host/input-store.mjs:249-263 | what a worker is handed is that latest content |
| `InputStore.RecoveryQuiesces` | packages/host/input-store.mjs:145-157 | recovery succeeds on a valid queue: queued records become paused, dispatching and accepted ones unknown, each with its reason and one more revision, all contents and all other records staying |
| `InputStore.RecoveryIsIdempotent` | packages/host/input-store.mjs:145-157 | recovering twice is recovering once |
| `InputStore.RecoverItems` | packages/host/input-store.mjs:149-155 | the in-place loop gives every record its recovered form, reports a change exactly when there is one, and counts both kinds exactly |
| `InputStore.HostInputStore.Enqueue` | packages/host/input-store.mjs:217-231 | the store becomes the admission's result, or stays unchanged on each of its refusals, and stays valid |
| `InputStore.HostInputStore.EditInput` | packages/host/input-store.mjs:233-245 | the same for an edit with its revision checks |
| `InputStore.HostInputStore.Move` | packages/host/input-store.mjs:249-263 | the same for a state transition |
| `InputStore.HostInputStore.Recover` | packages/host/input-store.mjs:145-157 | the same for the recovery of one queue, with the two counters |
| `InputStore.HostInputStore.Write` | packages/host/input-store.mjs:92-104 | an invalid shard is refused and changes nothing; a valid one replaces its scope's shard and no other |
| `InputQueue.StepKeeps` | webui/src/shared/useInputQueue.ts:17-77 | every step keeps one live read, one command in flight per stay, the slot and the shown queue in the current scope, and no forgotten refresh |
| `InputQueue.OnlyActSends` | webui/src/shared/useInputQueue.ts:56-63 | a command is sent only by an admitted `act`, one request each; no other step sends or resends |
| `InputQueue.UncertainBlocks` | webui/src/shared/useInputQueue.ts:32-35 | a step leaves an uncertain command in the slot and refuses every `act`, unless it leaves the scope or is a read of this stay that confirms the command (`ReadFreesExactly` is the converse) |
| `InputQueue.UncertainHolds` | webui/src/shared/useInputQueue.ts:56-59 | over any number of steps an uncertain command holds the slot and nothing is sent, until the scope is left or a read of this stay brings its evidence |
| `InputQueue.ShownQueueSafe` | webui/src/shared/useInputQueue.ts:17-21 | within a stay the shown queue is replaced only by an answer of that stay, by no read while a command is in flight, and its revision never drops |
| `InputQueue.LateReplyInert` | webui/src/shared/useInputQueue.ts:28-37 | an answer to a request of an earlier stay, even in the same scope, installs and settles nothing |
| `InputQueue.ConfirmationSource` | webui/src/shared/useInputQueue.ts:63-67 | a confirmation appears only by the answer that settles the command in the slot, and that answer contains its input |
| `InputQueue.SlotSource` | webui/src/shared/useInputQueue.ts:57-72 | the slot is taken only by an admitted `act`; otherwise it keeps its command or is emptied |
| `InputQueue.LiveReadSettles` | webui/src/shared/useInputQueue.ts:28-36 | a live answer of the scope is shown, and if it is evidence for the command in the slot it frees the slot, clears the uncertainty, reports the confirmation and admits the next command |
| `InputQueue.ReadFreesExactly` | webui/src/shared/useInputQueue.ts:31-35 | a read frees the slot exactly when it is live, of the scope, not older than what is shown, and evidence for the command |
| `InputQueue.FailedReadShows` | webui/src/shared/useInputQueue.ts:30-37 | a live read that fails only shows that the queue is out of step |
| `InputQueue.LiveCommandSettles` | webui/src/shared/useInputQueue.ts:63-75 | the answer to the command in flight settles it if it fits and confirms, frees the slot on a certain refusal, and otherwise leaves the command uncertain; the busy flag is cleared |
| `InputQueue.RefreshReads` | webui/src/shared/useInputQueue.ts:22-26 | a refresh that may read starts a live read of the scope, or marks the running one |
| `InputQueue.MarkedReadRepeats` | webui/src/shared/useInputQueue.ts:38-39 | a marked read that ends is followed by another live one |
| `InputQueue.UnmarkedReadEnds` | webui/src/shared/useInputQueue.ts:38-39 | one that was not marked is not |
| `InputQueue.CommandThenReads` | webui/src/shared/useInputQueue.ts:73-76 | the end of a command is followed by a live read |
| `InputQueue.EntryStartsAnew` | webui/src/shared/useInputQueue.ts:44-54 | entering a scope shows nothing of the last one, silences its reads, and reads the new scope |
| `InputQueue.RenderReads` | webui/src/shared/useInputQueue.ts:49-55 | a dirty hint or a new connection keeps what is shown and reads again |
| `InputQueue.UnmountSilences` | webui/src/shared/useInputQueue.ts:47-53 | after unmounting every read is overtaken, whether or not its abort signal was raised |
| `InputQueue.UnmountedIsSilent` | webui/src/shared/useInputQueue.ts:50-79 | in an unmounted client no answer shows anything and nothing new is requested |
| `InputQueue.ActOvertakes` | webui/src/shared/useInputQueue.ts:56-61 | an admitted command takes the slot, is sent once, shows itself busy and overtakes every read |
| `InputQueue.OneCommandPerScope` | webui/src/shared/useInputQueue.ts:56-63 | in every run that enters no scope while a command of that scope is unanswered, every state has at most one outstanding command per scope |
| `InputQueue.EntryAdmitsSecond` | webui/src/shared/useInputQueue.ts:44-48 | entering a connected scope with a session while a command of it is unanswered admits a second one |
| `InputQueue.EntrySafeExactly` | webui/src/shared/useInputQueue.ts:44-59 | such an entry keeps one command per scope in every continuation with quiet entries exactly when no command of the scope is unanswered |
| `InputQueue.ReentryAdmitsSecond` | webui/src/shared/useInputQueue.ts:44-59 | leaving and returning during a command admits a second one in the same scope |
| `InputQueue.BusyFlagExact` | webui/src/shared/useInputQueue.ts:73-76 | the displayed flag stays right for every step but the answer to an earlier stay's command during a new one |
| `InputQueue.ReachableInv` | webui/src/shared/useInputQueue.ts:22-77 | in every state of every run: one command per stay, and a refresh not yet followed by a new read implies no session, no connection, a command in flight, or a running read marked `again` |
| `InputQueue.RevisionsNeverDecrease` | webui/src/shared/useInputQueue.ts:17-21 | over any number of steps of one stay the shown queue never disappears and never steps back |
| `InputQueueHook.UseInputQueue.Accept` | webui/src/shared/useInputQueue.ts:17-21 | installs exactly an acceptable queue and changes nothing otherwise |
| `InputQueueHook.UseInputQueue.Refresh` | webui/src/shared/useInputQueue.ts:22-43 | the hook's fields become the machine's refresh: refused, coalesced, or a new read |
| `InputQueueHook.UseInputQueue.Render` | webui/src/shared/useInputQueue.ts:44-55 | a render and its effects, with scope change, connection change and dirty hint, are the machine's step |
| `InputQueueHook.UseInputQueue.Act` | webui/src/shared/useInputQueue.ts:56-62 | the part of `act` before its await is the machine's step |
| `InputQueueHook.UseInputQueue.ReadReply` | webui/src/shared/useInputQueue.ts:28-41 | the continuation of a read, with the confirmation and the repeated read, is the machine's step |
| `InputQueueHook.UseInputQueue.CommandReply` | webui/src/shared/useInputQueue.ts:63-76 | the continuation of a command, on success, refusal and unknown outcome, is the machine's step |
| `InputQueueHook.UseInputQueue.Unmount` | webui/src/shared/useInputQueue.ts:47-53 | the cleanups of both effects are the machine's step |
| `InputQueueHook.UseInputQueue.Handle` | webui/src/shared/useInputQueue.ts:17-77 | whatever happens next is the machine's step and keeps the invariant |
| `ExactlyOnce.ApplyKeepsLedger` | packages/host/input-store.mjs:217-231 | every ledger operation keeps each identity appended at most once, listed where it was appended, and known in every queue ever published |
| `ExactlyOnce.MoveKeeps` | webui/src/shared/useInputQueue.ts:56-77 | every move of client, network and Host keeps the joint invariant, including that the ledger holds what this page submitted under its identities |
| `ExactlyOnce.ReachableSystem` | webui/src/shared/useInputQueue.ts:22-77 | the joint invariant in every state of every run |
| `ExactlyOnce.ConfirmedExactlyOnce` | prototypes/src/native/NativeInputs.tsx:48-54 | in every run no identity is in the ledger twice, and a confirmed enqueue or supplement is there exactly once, with the submitted content, in the confirming scope |
| `ExactlyOnce.CommandsTravelOnce` | webui/src/shared/useInputQueue.ts:63-63 | a command is on its way from its admission until the Host serves or refuses it, once |
| `ExactlyOnce.LedgerMoves` | packages/host/input-store.mjs:106-115 | the ledger changes by the operations of served commands and by the Host's own, each applied fully, and by nothing else |
| `ExactlyOnce.AppliedConfirms` | webui/src/shared/inputApi.ts:39-47 | the queue the ledger stores for an enqueue, supplement, edit or removal confirms that command |
| `ExactlyOnce.ConfirmsExactly` | webui/src/shared/inputApi.ts:39-47 | with distinct identities a queue confirms a command exactly by the content, state and revision of the one record of its identity |
| `ExactlyOnce.ConfirmsNothingElse` | webui/src/shared/inputApi.ts:40-46 | without a record there is no evidence, and a resumption is confirmed exactly by a later queue with nothing left to send |
| `ExactlyOnce.SubmissionCompletes` | prototypes/src/native/NativeInputs.tsx:48-54 | from any state that may submit a new input there is a run in which it is sent, appended once and confirmed, and the slot is free again |
| `TaskSubmission.StepKeeps` | webui/src/shared/useNativeSession.ts:73-123 | every step keeps the stored copy equal to the pending request and every posted identity settled or pending |
| `TaskSubmission.SendStoresAndPosts` | webui/src/shared/useNativeSession.ts:95-117 | a send stores and posts one command under a new identity, from the view that is shown, and takes the lock |
| `TaskSubmission.RetryPostsAgain` | webui/src/shared/useNativeSession.ts:95-101 | a retry posts the pending command again under its first view; under the lock it does nothing |
| `TaskSubmission.LookupAsks` | webui/src/shared/useNativeSession.ts:87-90 | a lookup asks for the pending command, under its first view |
| `TaskSubmission.FinalAnswerSettles` | webui/src/shared/useNativeSession.ts:78-81 | a task, or the refusal of a POST, for the pending request removes it from memory and storage, frees the lock and silences the notice |
| `TaskSubmission.TaskAnswerSelectsExactly` | webui/src/shared/useNativeSession.ts:82-85 | a task answer to the pending request selects the task, disarms and acknowledges the prompt exactly when the view is the one the request was first posted from |
| `TaskSubmission.UnknownOutcomeKeeps` | webui/src/shared/useNativeSession.ts:106-111 | any other outcome keeps the pending request in memory and storage and says so; that of a POST frees the lock |
| `TaskSubmission.NavigateSelects` | webui/src/shared/useNativeSession.ts:118-123 | a navigation takes a new view token and the selection asked for, disarmed |
| `TaskSubmission.ReloadRestores` | webui/src/shared/useNativeSession.ts:38-41 | a reload brings back the selection, the view and the pending request with its first view |
| `TaskSubmission.ServeStarts` | packages/host/tasks.mjs:70-104 | serving a POST leaves exactly one task for its identity, with its content |
| `TaskSubmission.EveryRequestAccountedFor` | webui/src/shared/useNativeSession.ts:39-41 | in every run with reloads anywhere the invariant holds: an identity ever posted is settled exactly when it is not the one held in memory and storage; the Host starts it at most once and never sees a conflict |
| `TaskSubmission.SettledIsAnswered` | webui/src/shared/useNativeSession.ts:78-108 | settled means that a final answer for the identity arrived at an earlier index |
| `TaskSubmission.SentIsAnsweredOrHeld` | webui/src/shared/useNativeSession.ts:39-41 | every command sent in a run, from then on: a final answer for it has arrived, or else it is exactly the command held in memory and in storage |
| `TaskSubmission.LatePostInert` | webui/src/shared/useNativeSession.ts:102-111 | the late outcome of a POST whose request is not pending changes nothing on the page |
| `TaskSubmission.LateLookupOnlyNotice` | webui/src/shared/useNativeSession.ts:87-93 | a late lookup changes the notice at most, and a failed one always does |
| `TaskSubmission.AnswerMovesOwnView` | webui/src/shared/useNativeSession.ts:78-86 | an answer moves the selection only from the view the identity was first posted from, also after a reload |
| `TaskSubmission.ResumeNeedsConsent` | webui/src/shared/useNativeSession.ts:113-117 | every post with a resume key, first or repeated, goes back to a first post, made after an arm of that session with no change of selection in between |
| `TaskSubmission.ConsentStandsExactly` | webui/src/shared/useNativeSession.ts:114-120 | in every run an arm of the session without a later change of selection exists exactly when the page is armed and shows that session |
| `TaskSubmission.RetryWithoutConsent` | webui/src/shared/useNativeSession.ts:95-101 | after any navigation elsewhere the retry still posts the resume key, with nothing armed |
| `TaskSubmission.RejectionIsFinalExactly` | webui/src/shared/useNativeSession.ts:106-108 | a request settled without a task can never start, in any continuation, exactly when no POST of it is still waiting |
| `TaskSubmission.UnretriedRejectionIsFinal` | webui/src/shared/useNativeSession.ts:106-108 | in every run a request that was never retried and is settled without a task never starts |
| `TaskSubmission.RetryOvertakes` | webui/src/shared/useNativeSession.ts:95-101 | from any state that may send, a POST lost to the page and its retry can both wait at the Host |
| `TaskSubmission.RejectedYetStarted` | packages/host/tasks.mjs:62-104 | from any state that may send there is a run in which the refused retry settles the request and the first POST then starts it |
| `SessionHook.UseNativeSession.Remember` | webui/src/shared/useNativeSession.ts:73-77 | storage and ref change together |
| `SessionHook.UseNativeSession.Accept` | webui/src/shared/useNativeSession.ts:78-86 | the fields become the machine's acceptance, with its two guards |
| `SessionHook.UseNativeSession.Dispatch` | webui/src/shared/useNativeSession.ts:95-101 | refused under a lock; otherwise view token, lock, stored copy and POST are those of the machine |
| `SessionHook.UseNativeSession.Send` | webui/src/shared/useNativeSession.ts:113-117 | sends under a new identity exactly when all guards allow it |
| `SessionHook.UseNativeSession.PostReply` | webui/src/shared/useNativeSession.ts:101-112 | the continuation of a POST on success, 4xx and unknown outcome is the machine's step |
| `SessionHook.UseNativeSession.LookupReply` | webui/src/shared/useNativeSession.ts:90-92 | the continuation of a lookup is the machine's step |
| `SessionHook.UseNativeSession.Navigate` | webui/src/shared/useNativeSession.ts:118-123 | a new view token, no arm, the new selection |
| `SessionHook.UseNativeSession.Reload` | webui/src/shared/useNativeSession.ts:38-41 | the page after a reload is rebuilt from storage alone |
| `SessionHook.UseNativeSession.Handle` | webui/src/shared/useNativeSession.ts:65-123 | whatever happens next, on the page or at the Host, is the machine's step and keeps the invariant |
| `AppSend.StepKeeps` | webui/src/App.tsx:56-78 | every step keeps the remembered command among the posted ones and one content per identity |
| `AppSend.IdentityBindsContent` | webui/src/App.tsx:58-65 | over every run no two posted commands share an identity and differ in content |
| `AppSend.RetryKeepsIdentity` | webui/src/App.tsx:61-63 | the same content again reuses the identity; any difference takes one never posted |
| `AppSend.SendPostsWhatWasAsked` | webui/src/App.tsx:58-67 | a send posts exactly the model, prompt, mode and thinking asked for, in the chosen project and account, resuming the open session if and only if it is armed |
| `AppSend.FailureKeepsCommand` | webui/src/App.tsx:77-77 | a failed answer keeps the command and reports an error exactly if it is still the remembered one and nothing was navigated |
| `AppSend.SuccessForgetsCommand` | webui/src/App.tsx:70-71 | a task answer forgets the remembered command |
| `AppSend.NavigationCounts` | webui/src/App.tsx:56-57 | every navigation counts, moves the view, and gives up the arm except when a task is opened |
| `AppSend.SwitchesForget` | webui/src/App.tsx:129-130 | arming and choosing an account forget the remembered command |
| `AppSend.LateAnswerInert` | webui/src/App.tsx:67-77 | an answer to a command that is no longer remembered changes nothing the user sees |
| `AppSend.AnswerMovesOwnView` | webui/src/App.tsx:67-75 | an answer moves the view exactly when its command is still remembered and nothing was navigated since |
| `AppSend.ArmedByToggle` | webui/src/App.tsx:129-129 | a session that is open and armed was armed there, and has been open without navigation since |
| `AppSend.ResumeNeedsConsent` | webui/src/App.tsx:62-63 | every post with a resume key, first or repeated, follows an explicit arming of that open session with no navigation between |
| `AppSend.AppComponent.Submit` | webui/src/App.tsx:58-67 | the part of `send` before its await is the machine's step |
| `AppSend.AppComponent.Settle` | webui/src/App.tsx:67-77 | the part after it is, on success and on failure |
| `AppSend.AppComponent.Handle` | webui/src/App.tsx:56-94 | every navigation, switch, send and answer is the machine's step and keeps the invariant |
| `SettingsQueue.StepKeeps` | webui/src/SettingsQueue.tsx:15-35 | every step keeps one content per input identity and the submitted text equal to the text at its version |
| `SettingsQueue.IdentityBindsContent` | webui/src/SettingsQueue.tsx:29-35 | over every run no input identity is handed over with two contents |
| `SettingsQueue.EnqueueHandsOver` | webui/src/SettingsQueue.tsx:29-35 | `enqueue` hands over the text of the form with the task's binding, under the remembered identity exactly if that is the identity of this very content |
| `SettingsQueue.TextIsNew` | webui/src/SettingsQueue.tsx:15-17 | typing and a change of scope take a new version; the latter empties the form and forgets the submission |
| `SettingsQueue.ConfirmationForgets` | webui/src/SettingsQueue.tsx:18-24 | the confirmation of the remembered input forgets it, and of any other changes nothing |
| `SettingsQueue.EmptiedExactly` | webui/src/SettingsQueue.tsx:15-24 | a non-empty text is emptied exactly by a change of scope or by the confirmation of the remembered input at the version it was taken from |
| `SettingsQueue.ClearedTextWasConfirmed` | webui/src/SettingsQueue.tsx:15-24 | apart from typing the text changes only by being emptied, on a change of scope or when the queue confirms the remembered input, taken at the current version and with exactly that text |
| `SettingsQueue.TextNeverLost` | webui/src/SettingsQueue.tsx:15-35 | over every run segment without typing or a scope change the text is still there, or the queue confirmed the very input that an earlier `enqueue` took from it at the version it still had |
| `SettingsQueue.SettingsQueueForm.Submit` | webui/src/SettingsQueue.tsx:29-35 | the input handed over and the new refs are those of the machine |
| `SettingsQueue.SettingsQueueForm.OnConfirmed` | webui/src/SettingsQueue.tsx:18-24 | the confirmation effect is the machine's step |
| `SettingsQueue.SettingsQueueForm.Handle` | webui/src/SettingsQueue.tsx:15-35 | every event of the form is the machine's step and keeps the invariant |
| `Replica.FollowIsPrefix` | webui/src/shared/api.ts:65-70 | over any repeated and reordered delivery of a consecutive log, the fold is the exact state after a prefix, never a shorter one, and raises `EVENT_GAP` exactly when a delivery skips ahead |
| `Replica.TruncateCommutes` | webui/src/shared/api.ts:69-69 | cutting the list before moving a task to the front and cutting it only afterwards give the same list |
| `Replica.BoundedListAgrees` | webui/src/shared/api.ts:69-69 | the bounded list is always the first 100 entries of the list that is never cut, and identities stay distinct |
| `Replica.EventExactly` | webui/src/shared/api.ts:65-70 | what one event does: replace the copy, apply the next change of the epoch, ignore a repeated one, or fail |
| `Replica.ProjectsAreLatest` | webui/src/shared/api.ts:69-69 | the projects shown are those of the latest change of the projects |
| `Replica.TaskIsLatest` | webui/src/shared/api.ts:69-69 | a task has the body of its latest change, and is in front until another task changes |
| `Replica.UnchangedTaskStays` | webui/src/shared/api.ts:69-69 | a task no change was about stays as the snapshot has it |
| `Replica.OthersKeepOrder` | webui/src/shared/api.ts:69-69 | a change of one task keeps the others in their order behind it |
| `HostView.StepKeeps` | webui/src/shared/useHost.ts:24-48 | the generation rises exactly at a new snapshot, a live event of the selected task, a socket loss or a selection; fetches keep their version |
| `HostView.ShownTaskSource` | webui/src/shared/useHost.ts:74-79 | the shown task changes only by a selection, an overtaking event, or the answer to a fetch nothing has overtaken |
| `HostView.ShownIsSelected` | webui/src/shared/useHost.ts:39-41 | in every run the shown task is the selected one |
| `HostView.OvertakenNeverShown` | webui/src/shared/useHost.ts:39-48 | over all interleavings a fetch that was overtaken in flight never shows its answer |
| `HostView.ReplyShowsExactly` | webui/src/shared/useHost.ts:40-40 | the answer to a fetch is shown exactly when nothing has overtaken it and it brought a task |
| `HostView.SelectFetches` | webui/src/shared/useHost.ts:74-79 | a selection clears the shown task and fetches the selected one |
| `HostView.SnapshotShows` | webui/src/shared/useHost.ts:35-40 | a snapshot is taken over, hints are counted anew and the selected task is fetched |
| `HostView.ChangeShows` | webui/src/shared/useHost.ts:33-42 | the next event of the epoch is applied and shown if it is about the selected task; a repeated one changes nothing, any other closes the socket |
| `HostView.OldSocketsAreSilent` | webui/src/shared/useHost.ts:25-25 | a disposed hook, a replaced socket and a closing one deliver nothing |
| `HostView.SocketsOpenAndClose` | webui/src/shared/useHost.ts:22-25 | a new socket is listened to, and after disposal nothing is |
| `HostView.HintCountsExactly` | webui/src/shared/useHost.ts:28-32 | a hint of the epoch counts exactly if it is newer than the last one; a malformed or foreign one closes the socket |
| `HostView.HintCountsOnce` | webui/src/shared/useHost.ts:28-32 | a dirty hint raises the input revision at most once, however often it arrives |
| `HostView.UseHost.OnMessage` | webui/src/shared/useHost.ts:24-43 | the message handler is the machine's step, with its guards and its failure path |
| `HostView.UseHost.OnClose` | webui/src/shared/useHost.ts:44-48 | the close handler is the machine's step |
| `HostView.UseHost.SelectTask` | webui/src/shared/useHost.ts:74-79 | the selection effect is the machine's step |
| `HostView.UseHost.OnReply` | webui/src/shared/useHost.ts:40-40 | an answer is shown exactly when its version is the current one |
| `HostView.UseHost.Handle` | webui/src/shared/useHost.ts:13-79 | every socket, selection and fetch event is the machine's step and keeps the invariant |
| `TerminalInput.StepKeeps` | webui/src/TerminalPane.tsx:41-53 | every step keeps posts numbered in order, the chain the rest of what was accepted, and the byte count exact |
| `TerminalInput.StoppedForGood` | webui/src/TerminalPane.tsx:47-49 | a failed or disposed pane posts nothing in a step and stays failed or disposed |
| `TerminalInput.NothingAfterStop` | webui/src/TerminalPane.tsx:41-52 | from a failure or disposal on, over the rest of every run, nothing more is posted |
| `TerminalInput.TypedPrefixArrives` | webui/src/TerminalPane.tsx:42-53 | in every run the i-th post is the i-th chunk typed into a ready pane, under the i-th number, at most one is unanswered, unless the pane failed no typed chunk is left out, the bytes stay within 65536, and without other writers the terminal receives exactly a prefix of what was typed |
| `TerminalInput.SendAcceptsOrFails` | webui/src/TerminalPane.tsx:43-46 | a ready pane appends what is typed, or fails, exactly when the chunk has more than 16384 bytes or the unfinished bytes would pass 65536 |
| `TerminalInput.PollReadies` | webui/src/TerminalPane.tsx:68-72 | the first poll of a running terminal makes a fresh pane ready under the Host's number |
| `TerminalInput.LinkPostsOrReleases` | webui/src/TerminalPane.tsx:47-51 | a link posts its chunk under the next number, or, once the pane has stopped, only releases it |
| `TerminalInput.ReplyReleases` | webui/src/TerminalPane.tsx:51-52 | the end of a link releases its bytes, and a failure stops the pane |
| `TerminalInput.StopsAtOnce` | webui/src/TerminalPane.tsx:41-41 | a fault and a disposal stop the pane, and a disposed pane reports no fault |
| `TerminalInput.HostWritesExactly` | packages/host/terminals.mjs:109-117 | the Host takes exactly the next write within its limit, answers a repetition of the last one, and refuses the rest |
| `TerminalInput.AsciiBytes` | webui/src/TerminalPane.tsx:44-44 | ASCII text has one byte per character |
| `TerminalInput.Utf8Limits` | webui/src/TerminalPane.tsx:44-44 | the byte counts at the limits of UTF-8 |
| `TerminalInput.ChunkArrives` | webui/src/TerminalPane.tsx:42-53 | a chunk typed into a ready, empty pane can be posted, served and answered, and then the terminal has it |
| `TerminalInput.ServeExact` | packages/host/terminals.mjs:109-117 | one write, repeated or not, extends the received prefix by at most the next chunk |
| `TerminalInput.TerminalPane.Send` | webui/src/TerminalPane.tsx:42-53 | the fields become the machine's, with both limits |
| `TerminalInput.TerminalPane.RunLink` | webui/src/TerminalPane.tsx:47-51 | a link of the chain posts its chunk or, after a failure, only releases it |
| `TerminalInput.TerminalPane.OnReply` | webui/src/TerminalPane.tsx:51-52 | the end of a link releases its bytes and latches a failure |
| `TerminalInput.TerminalPane.OnPoll` | webui/src/TerminalPane.tsx:66-72 | a poll fixes the first number once |
| `TerminalInput.TerminalPane.Handle` | webui/src/TerminalPane.tsx:41-80 | every event of the page is the machine's step and keeps the pane's invariant |
| `Composer.StepKeeps` | prototypes/src/native/Conversation.tsx:40-69 | every step keeps each submission made at the current revision equal to the current text, or the text cleared |
| `Composer.ProgramTouchesDraft` | prototypes/src/native/Conversation.tsx:51-66 | whatever the program does to the draft is appending or inserting a suggestion, or clearing it on the answer to a submission of exactly this text at exactly this revision |
| `Composer.DraftNeverLost` | prototypes/src/native/Conversation.tsx:57-68 | over every run segment without typing a non-blank draft still begins the text, or within the segment the Host answered the very submission, made at an earlier index, of the text and revision then in the composer, which began with the draft |
| `Composer.AnswerSource` | prototypes/src/native/NativeInputs.tsx:38-53 | every answer that can clear a draft goes back to the submission it answers, under the same call or input number |
| `Composer.EmptiedExactly` | prototypes/src/native/Conversation.tsx:57-66 | a non-blank draft is emptied exactly by the Host's answer to a submission of it, except that a confirmation during composition leaves it |
| `Composer.SubmitRecords` | prototypes/src/native/Conversation.tsx:63-66 | a submission records its text and revision, for its call and as the last one |
| `Composer.DeliverRecords` | prototypes/src/native/NativeInputs.tsx:48-54 | a delivery to the queue records its text and revision under a new input |
| `Composer.TypingIsNew` | prototypes/src/native/Conversation.tsx:40-41 | typing shows the text under a revision no earlier submission has |
| `Composer.CallEnds` | prototypes/src/native/Conversation.tsx:66-68 | the end of a call frees the composer whatever the outcome |
| `Composer.SuggestionShows` | prototypes/src/native/Conversation.tsx:51-55 | a new suggestion goes below the draft or in place of a blank one, once, and waits for the end of a composition |
| `Composer.AnswersAreUsedUp` | prototypes/src/native/Conversation.tsx:57-62 | an acknowledgement forgets the submission, and a confirmation the queued input |
| `Composer.CompositionNoted` | prototypes/src/native/Conversation.tsx:51-52 | composition is noted, and only its end may bring a suggestion in |
| `Composer.NativeComposer.ApplyNewSuggestion` | prototypes/src/native/Conversation.tsx:51-55 | a suggestion is applied once, never while composing |
| `Composer.NativeComposer.Send` | prototypes/src/native/Conversation.tsx:63-66 | the part of `send` before its await is the machine's step |
| `Composer.NativeComposer.OnSent` | prototypes/src/native/Conversation.tsx:66-68 | the part after it is, on success and on failure |
| `Composer.NativeComposer.OnAcknowledgedEffect` | prototypes/src/native/Conversation.tsx:57-62 | the acknowledgement effect is the machine's step |
| `Composer.NativeComposer.OnConfirmed` | prototypes/src/native/NativeInputs.tsx:38-43 | the confirmation effect with `onInputAccepted` is the machine's step |
| `Composer.NativeComposer.Handle` | prototypes/src/native/Conversation.tsx:37-69 | every event of the composer is the machine's step and keeps the invariant |
| `ComposerSession.MoveKeeps` | prototypes/src/native/Conversation.tsx:57-69 | every move of composer, session, network and Host keeps the composer's last submission tied to the request posted for it, and the POST its call awaits to that request |
| `ComposerSession.ClearedHasTask` | webui/src/shared/useNativeSession.ts:78-86 | the program clears a draft only when the Host has the task of the very request posted for this text at this revision, or on the queue's confirmation of the input taken from it |
| `ComposerSession.PromptNeverLost` | prototypes/src/native/Conversation.tsx:57-66 | over every run segment of one mounted composer without typing, a draft still begins the text, or it was cleared when the Host had the task of the request that an earlier submission, at a given index, posted for this very text and revision, or when the queue confirmed it |
| `ComposerSession.SessionSteps` | webui/src/shared/useNativeSession.ts:95-123 | the session takes its own step in every move that concerns it |
| `ComposerSession.ComposerSteps` | prototypes/src/native/Conversation.tsx:37-69 | the composer takes its own step in an edit, and a navigation or reload mounts a fresh one |
| `ComposerSession.AcceptedClears` | prototypes/src/native/Conversation.tsx:57-62 | a task answer the session accepts in its own view clears the submitted draft if it is unchanged, by POST or by lookup |
| `ComposerSession.CallEnds` | prototypes/src/native/Conversation.tsx:66-68 | the answer to its POST ends the composer's call |
| `Editor.StepKeeps` | webui/src/EditorWorkspace.tsx:72-131 | every user event keeps all open files in agreement, the tab list true, and what a pending operation or question relies on |
| `Editor.SettleKeeps` | webui/src/EditorWorkspace.tsx:119-129 | so does every answer |
| `Editor.TabsShowDirty` | webui/src/EditorWorkspace.tsx:108-109 | the guard on leaving asks exactly when some file differs from its baseline |
| `Editor.DraftNeedsConsent` | webui/src/EditorWorkspace.tsx:95-113 | a user event takes unsaved text exactly when the user typed over it, confirmed giving it up, or left the page |
| `Editor.AnswerKeepsDraft` | webui/src/EditorWorkspace.tsx:118-130 | an answer takes text exactly when it ends a reload of that file or a quit; a save keeps what was typed meanwhile and compares it with what it stored |
| `Editor.ReloadTakesTyping` | webui/src/EditorWorkspace.tsx:126-130 | text typed during the reload of a clean file is overwritten |
| `Editor.SaveSends` | webui/src/EditorWorkspace.tsx:114-119 | a save of a dirty file sends the user's text under the version of the text it started from |
| `Editor.SaveOtherwiseIdle` | webui/src/EditorWorkspace.tsx:114-116 | nothing is sent for a clean file, without manual mode, or while busy |
| `Editor.SavedShows` | webui/src/EditorWorkspace.tsx:120-121 | the answer to a save makes the stored text the baseline and keeps what the user has by then |
| `Editor.OpenShows` | webui/src/EditorWorkspace.tsx:78-93 | opening a closed file reads it and shows it clean and active; an open one is only activated, and a thirteenth is refused |
| `Editor.ReloadShows` | webui/src/EditorWorkspace.tsx:124-130 | a reload of a clean file shows the text on disk; a dirty one is asked about first |
| `Editor.TypingShows` | webui/src/EditorWorkspace.tsx:88-91 | typing changes exactly the text of the active file |
| `Editor.CloseRemoves` | webui/src/EditorWorkspace.tsx:99-107 | closing removes exactly that file, after a question if it is dirty, and activates the first of the others if it was active |
| `Editor.ManualModeChanges` | webui/src/EditorWorkspace.tsx:108-140 | manual mode is entered and left by the answers to its requests; leaving and quitting ask first if a file is dirty |
| `Editor.SmallEvents` | webui/src/EditorWorkspace.tsx:43-45 | picking a tab, keeping a draft and the first answer change one thing each |
| `Editor.FailureOnlyFrees` | webui/src/EditorWorkspace.tsx:75-76 | a failed operation changes nothing but the busy flag |
| `Editor.EditorWorkspace.OpenPath` | webui/src/EditorWorkspace.tsx:78-82 | activates an open file, refuses a thirteenth, or starts one read |
| `Editor.EditorWorkspace.Change` | webui/src/EditorWorkspace.tsx:88-91 | the change listener is the machine's step |
| `Editor.EditorWorkspace.CloseFile` | webui/src/EditorWorkspace.tsx:99-107 | nothing while busy, a question for a dirty file, removal for a clean one |
| `Editor.EditorWorkspace.SaveFile` | webui/src/EditorWorkspace.tsx:114-119 | sends the active file's version and text exactly when it is dirty and manual mode is held |
| `Editor.EditorWorkspace.ReloadFile` | webui/src/EditorWorkspace.tsx:124-127 | nothing while busy, a question for a dirty file, one read for a clean one |
| `Editor.EditorWorkspace.Answered` | webui/src/EditorWorkspace.tsx:82-92 | the continuation of every operation is the machine's step |
| `Editor.EditorWorkspace.Proceed` | webui/src/EditorWorkspace.tsx:148-148 | the confirming button runs the question's action |
| `Editor.EditorWorkspace.Refresh` | webui/src/EditorWorkspace.tsx:35-35 | the tab list becomes the listing of the map in insertion order |
| `Editor.EditorWorkspace.Handle` | webui/src/EditorWorkspace.tsx:38-148 | every user event, and the first answer that names a manual mode already held, is the machine's step and keeps the invariant |
| `Editor.EditorWorkspace.HandleAnswer` | webui/src/EditorWorkspace.tsx:72-77 | so is any fitting answer to the operation under way |
| `EditorHost.Work` | packages/host/manual-workspaces.mjs:28-58 | a request is answered truthfully or begins the only save, and changes no file |
| `EditorHost.MoveKeeps` | packages/host/manual-workspaces.mjs:40-73 | every move of user, network, Host and other programs keeps the joint invariant |
| `EditorHost.EditorAgreement` | webui/src/EditorWorkspace.tsx:72-131 | in every run every open file is dirty exactly when it differs from its baseline, with the diff original and the Host version of that baseline, at most twelve open, the active path open or empty |
| `EditorHost.DraftsNeverLost` | webui/src/EditorWorkspace.tsx:95-131 | in every run an unsaved draft at one index is still there, unsaved, at a later one, or in between the user gave it up, a reload or quit took it that he had agreed to or typed it into, or an answer showed that the disk has exactly this text |
| `EditorHost.AnswerTakesLicensed` | webui/src/EditorWorkspace.tsx:108-131 | a reload or quit takes only a draft typed after it began, or one whose question the user confirmed when it began |
| `EditorHost.NoLostUpdate` | packages/host/manual-workspaces.mjs:57-67 | in every run a file changes only by other programs or by a save the user asked for at an earlier index, which replaces exactly the baseline the file had then by exactly the draft it had then |
| `EditorHost.SaveWasAsked` | webui/src/EditorWorkspace.tsx:114-119 | every save request goes back to the user's save, with the draft and baseline the active file had |
| `EditorHost.SaveCompletes` | packages/host/manual-workspaces.mjs:40-69 | an undisturbed save ends with the disk equal to the draft and the file clean |
| `EditorHost.SaveConflicts` | packages/host/manual-workspaces.mjs:57-57 | a save whose file has changed on disk is refused and changes nothing |
| `EditorHost.PageSteps` | webui/src/EditorWorkspace.tsx:72-77 | the page takes its own step in the user's moves and on its answers, and no other |
| `EditorHost.ServedOnce` | packages/host/manual-workspaces.mjs:40-72 | a request is served once, an answer delivered once, and a refused or finished save is answered |
| `EditorHost.OutsideMoves` | packages/host/manual-workspaces.mjs:62-63 | another program's write is seen, and a broken request only frees the page |
| `XmlPaths.DecimalRoundTrip` | scripts/probes/lib/gir-material-candidate.py:80-80 | a numeral reads back as the number it prints |
| `XmlPaths.BaseExactly` | scripts/probes/lib/gir-material-candidate.py:76-77 | the base is the tag with the `name`, failing that with the C identifier, failing both alone |
| `XmlPaths.SegmentInjective` | scripts/probes/lib/gir-material-candidate.py:77-80 | a path segment determines its base and its index |
| `XmlPaths.OverlapBreaks` | scripts/probes/lib/gir-material-candidate.py:80-80 | a segment can read as part of another only if the other's base contains a seam |
| `XmlPaths.SiblingsApart` | scripts/probes/lib/gir-material-candidate.py:74-80 | different siblings share no path below them |
| `XmlPaths.PathsDistinct` | scripts/probes/lib/gir-material-candidate.py:67-83 | in every tree whose bases contain no seam all owner paths differ |
| `XmlPaths.SeamNeedsBracket` | scripts/probes/lib/gir-material-candidate.py:76-77 | a base with a seam contains an opening bracket, so a base without one is safe |
| `XmlPaths.InsertDistinct` | scripts/probes/lib/gir-material-candidate.py:72-73 | distinct new keys all go in, each with its node, and nothing is lost |
| `XmlPaths.InsertNeedsDistinct` | scripts/probes/lib/gir-material-candidate.py:72-73 | only distinct keys can all go in |
| `XmlPaths.XmlNodes.Walk` | scripts/probes/lib/gir-material-candidate.py:71-80 | the recursive walk fills the dictionary as the listing says, or stops at the first repeated key |
| `XmlPaths.XmlNodes.WalkChild` | scripts/probes/lib/gir-material-candidate.py:75-80 | one round of the loop: the counter stays exact and the child's whole subtree is inserted |
| `XmlPaths.NodesOf` | scripts/probes/lib/gir-material-candidate.py:67-83 | succeeds exactly when all paths differ, always without seams, and the dictionary then has exactly one entry per node |
| `XmlNames.LegalPathsDistinct` | scripts/probes/lib/gir-material-candidate.py:67-83 | in every document with legal element names and no fragile base all owner paths differ |
| `XmlNames.CollisionNeedsFragile` | scripts/probes/lib/gir-material-candidate.py:75-80 | two siblings with a common path make one of their bases fragile |
| `XmlNames.UnsafeExactly` | scripts/probes/lib/gir-material-candidate.py:71-80 | a base is the longer of two colliding siblings, in some document a parser delivers, and `xml_nodes` then raises, exactly when it is fragile |
| `XmlNames.FragileBreaks` | scripts/probes/lib/gir-material-candidate.py:77-80 | a fragile base contains a seam and an opening bracket |
| `XmlNames.CollisionRaises` | scripts/probes/lib/gir-material-candidate.py:72-72 | siblings with a common path make `xml_nodes` raise |
| `XmlNames.IdentifierCollides` | scripts/probes/lib/gir-material-candidate.py:76-80 | a seam in an identifier, for any names and texts around it, makes a legal document collide |
| `XmlNames.NamespaceCollides` | scripts/probes/lib/gir-material-candidate.py:76-80 | so does a seam in a namespace name, which holds no closing brace, beside an identifier that ends with its beginning |
| `Ledger.ResolveIsComplete` | scripts/probes/lib/gir-material-candidate.py:165-179 | a node is bound to every declared file with its prose, else to every package file with it, else to its reviewed projection, no source twice |
| `Ledger.ResolvesExactly` | scripts/probes/lib/gir-material-candidate.py:165-179 | a node resolves exactly if a declared file or a package file holds its prose or a reviewed projection agrees |
| `Ledger.LedgerSucceedsExactly` | scripts/probes/lib/gir-material-candidate.py:139-197 | the ledger is made exactly when every documentation node resolves and is unchanged in, or gone from, its candidate, and no candidate has one the raw tree does not have |
| `Ledger.LedgerKeeps` | scripts/probes/lib/gir-material-candidate.py:144-197 | every successful prefix of the loop keeps rows, counts and intern table in agreement with the documents read |
| `Ledger.LedgerConserves` | scripts/probes/lib/gir-material-candidate.py:139-202 | on success every raw documentation node has exactly one row, in order, in `rows` or in `removed`; counts are exact and sum to the rows; the intern table is a bijection |
| `Ledger.OwnSourceExactly` | scripts/probes/lib/gir-material-candidate.py:181-187 | in every successful ledger over given projects each identity leads to its own source, exactly when no project name is another one followed by a colon and a rest |
| `Ledger.KeysInjectiveExactly` | scripts/probes/lib/gir-material-candidate.py:182-182 | keys tell all sources of given projects apart exactly under that condition |
| `Ledger.UnnestedLeadsToOwn` | scripts/probes/lib/gir-material-candidate.py:180-188 | under that condition every identity in every row, kept or removed, leads to the source it was recorded for |
| `Ledger.NestedMisleads` | scripts/probes/lib/gir-material-candidate.py:182-186 | for any two nested project names a ledger of two supplies records one source as the other |
| `Ledger.BindSources` | scripts/probes/lib/gir-material-candidate.py:180-187 | the interning loop yields the table and one identity per member in order |
| `Ledger.NoteNode` | scripts/probes/lib/gir-material-candidate.py:149-194 | the body of the inner loop, with its errors, is one step of the fold |
| `Ledger.EnterSupply` | scripts/probes/lib/gir-material-candidate.py:145-197 | the inner loops with the check for unbound nodes are one step of the outer fold |
| `Ledger.Documentation` | scripts/probes/lib/gir-material-candidate.py:139-197 | the nested loops compute the ledger of the fold or its first error |
| `ProcessTree.Descendants` | scripts/verify-native-live.py:46-52 | ends on every finite table, cyclic ones included, and returns exactly the processes reached by one or more child steps |
| `ProcessTree.ClosedHoldsPath` | scripts/verify-native-live.py:49-51 | a set closed under children holds every path of child steps |
| `DepthListing.PassShows` | prototypes/src/prototypes/ReadingRoomCoder.tsx:1070-1078 | on every forest the stack pass yields each path with ancestors that are not directories blanked |
| `DepthListing.ShownTrueExactly` | prototypes/src/prototypes/ReadingRoomCoder.tsx:1073-1075 | blanked and true paths agree exactly when only directories, or nodes without a name, have children |
| `DepthListing.ListingRoundTrip` | prototypes/src/prototypes/ReadingRoomCoder.tsx:1070-1078 | flattening and rebuilding gives every node its true path exactly under that condition |
| `DepthListing.RebuildPaths` | prototypes/src/prototypes/ReadingRoomCoder.tsx:1071-1077 | the loop with its one mutable stack computes the pass |

## Left out

- Drafts of the input store (`saveDraft`, `clearDraft`, `submitPrompt`): a separate shard kind with easier rules.
- Size limits of shards, the identity catalogue and file names of the input store, and storage that is written but not
  confirmed durable: each is a refusal, and refusals are allowed at any time.
- Lanes and scheduling of the input controller: any sequence of ledger operations stands for them.
- The exact texts of errors and notices, labels and budgets: settled by reading one branch.
- InputContracts.Classify: the field-by-field shape checks of `shard` are the types of the model, and only its scope checks are stated.
- ExactlyOnce.ConfirmedExactlyOnce: states nothing about edits, removals and resumptions being applied once, because their evidence in the source is a state and not an identity.
- TaskSubmission.EveryRequestAccountedFor: counts a 4xx answer as settling, as the page does; `RejectionIsFinalExactly` says what that is worth.
- ComposerSession: a `sessionStorage` that refuses a write, after which nothing is posted.
- TaskSubmission: the effect that picks a first project when none is chosen, cancelling a task, and a Host whose storage fails after it registered a request and withdraws it with a 503.
- HostView: replacement of the shown task by other components through `setTask`, and exact reconnect delays.
- Replica.FollowIsPrefix: one epoch and one log; the order in which a Host lists tasks in a new snapshot is not compared with the order a client has built up.
- TerminalInput: resizing and output; the Host's answer to a first poll is its current input number when nobody else writes.
- Composer: which button is enabled when; a step that the buttons would forbid is allowed.
- Editor: Monaco's own text handling (line ends, undo, view state) and the directory tree; texts are plain strings.
- EditorHost: the moment between the last version check and the rename, and file attributes checked beside the version; the two are one step.
- XmlNames: a namespace name may be any text without a closing brace, which the parser refuses because it separates namespace and local name by one. Characters that XML forbids in attribute values are not excluded; the colliding documents are built from pieces of the base itself and the names `r`, `q` and `l`. Element names follow the fifth edition of XML 1.0.
- XmlPaths and Ledger: parsing, regular-expression cleaning, archive reading, digests and the derivation of reviewed projections; their results are fields of a node. A project without configured notice rules is not an input.
- Prototype stores with simulated data, extensions, accounts, model calls and other tools of the repository: thin adapters or code without state that spans operations.
