/** Submitting a task (webui/src/shared/useNativeSession.ts) against the Host's request table
    (packages/host/tasks.mjs), over a network that may lose or delay requests and replies, with page
    reloads at any point. A step is the code between two awaits; a render and its effects are one step. */
module TaskSubmission {
  import opened Options

  /** Identities drawn by `crypto.randomUUID()`, numbered in the order they are drawn. */
  type Uuid = nat

  datatype Content = Content(projectId: string, accountId: string, model: string, prompt: string,
                             controlled: bool, thinking: Option<string>, resume: Option<string>)
  datatype Submission = Submission(requestId: Uuid, content: Content)
  datatype HostTask = HostTask(taskId: string, projectId: string)
  datatype Selection = Selection(projectId: string, taskId: Option<string>, session: Option<string>)
  datatype Notice = Silent | Unconfirmed | NotFound | Unreachable
  datatype Acknowledged = Acknowledged(prompt: string, requestId: Uuid)

  /** A POST or a lookup in flight, with the view token its continuation closes over. */
  datatype Call = Call(command: Submission, version: Uuid)

  datatype Page = Page(
    selection: Selection, armed: bool, navigation: Uuid,
    pending: Option<Submission>, pendingView: Uuid, sending: Option<Uuid>,
    notice: Notice, acknowledged: Option<Acknowledged>,
    posts: map<nat, Call>, lookups: map<nat, Call>)

  /** `sessionStorage`. */
  datatype Storage = Storage(submission: Option<Submission>, owner: Option<Uuid>, view: Uuid, selection: Selection)

  /** The Host: POSTs that reached it and wait to be served, its request table, and how often each request started a
      task. */
  datatype Host = Host(waiting: map<nat, Submission>, tasks: map<Uuid, Content>, starts: multiset<Uuid>)

  /** What happened so far: the content first posted under each identity, the view it was first posted
      from, and the identities the Host answered for. */
  datatype History = History(posted: map<Uuid, Content>, firstView: map<Uuid, Uuid>, settled: set<Uuid>)

  datatype State = State(page: Page, storage: Storage, host: Host, history: History, drawn: nat)

  datatype Outcome = Started(task: HostTask) | Rejected | Lost

  datatype Event =
    | Send(content: Content)
    | Retry
    | PostReply(id: nat, outcome: Outcome)
    | Lookup
    | LookupReply(id: nat, outcome: Outcome)
    | Navigate(selection: Selection)
    | Arm
    | ShowHistory(session: string)
    | Reload
    | Serve(id: nat)
    | Refuse(id: nat)

  // ---- The page ----

  /** `remember`: the stored copy first, then the ref. */
  function Remember(s: State, command: Option<Submission>): State {
    s.(storage := s.storage.(submission := command), page := s.page.(pending := command))
  }

  predicate Holds(page: Page, id: Uuid) { page.pending.Some? && page.pending.value.requestId == id }

  function Settle(s: State, id: Uuid): State {
    Remember(s, None).(history := s.history.(settled := s.history.settled + {id}))
  }

  /** Every change of the selection disarms and is stored with the view token. */
  function Select(s: State, selection: Selection): State {
    s.(page := s.page.(selection := selection, armed := false),
       storage := s.storage.(selection := selection, view := s.page.navigation))
  }

  function Release(s: State, id: Uuid): State {
    if s.page.sending == Some(id) then s.(page := s.page.(sending := None)) else s
  }

  /** All that a reply may touch: no request is posted or forgotten, and a moved selection is disarmed. */
  predicate Answers(s: State, r: State) {
    && r.host == s.host && r.drawn == s.drawn
    && r.history.posted == s.history.posted && r.history.firstView == s.history.firstView
    && r.page.navigation == s.page.navigation
    && (r.page.armed ==> s.page.armed && r.page.selection == s.page.selection)
    && (!r.page.armed && s.page.armed ==> r.page.selection.session.None?)
    && r.page.pending in {None, s.page.pending}
  }

  function Accept(s: State, task: HostTask, call: Call): (r: State)
    ensures Answers(s, r) && r.page.posts == s.page.posts && r.page.lookups == s.page.lookups
    ensures r.page.selection == s.page.selection
         || (Holds(s.page, call.command.requestId) && s.page.navigation == call.version
             && r.page.selection == Selection(task.projectId, Some(task.taskId), None))
  {
    var id := call.command.requestId;
    if !Holds(s.page, id) then s else
    var settled := Settle(Release(s, id), id);
    var quiet := settled.(page := settled.page.(notice := Silent));
    if quiet.page.navigation != call.version then quiet
    else Select(quiet.(page := quiet.page.(acknowledged := Some(Acknowledged(call.command.content.prompt, id)))),
                Selection(task.projectId, Some(task.taskId), None))
  }

  function Dispatch(s: State, command: Submission): State {
    if s.page.sending.Some? then s else
    var id := command.requestId;
    var viewed := if Holds(s.page, id) then s
                  else s.(page := s.page.(pendingView := s.page.navigation),
                    storage := s.storage.(owner := Some(s.page.navigation)));
    var call, kept := Call(command, viewed.page.pendingView), Remember(viewed, Some(command));
    kept.(page := kept.page.(sending := Some(id), posts := kept.page.posts[s.drawn := call]),
          host := s.host.(waiting := s.host.waiting[s.drawn := command]),
          history := if id in s.history.posted then s.history
                     else s.history.(posted := s.history.posted[id := command.content],
                       firstView := s.history.firstView[id := call.version]),
          drawn := s.drawn + 1)
  }

  /** The part of the guard of `send` that is about this state; the rest (project, account, model) only disables
      more sends. */
  predicate MaySend(page: Page) {
    page.selection.taskId.None? && page.pending.None? && (page.selection.session.Some? ==> page.armed)
  }

  /** The body of `dispatch` after its await, up to the `finally`. */
  function PostTold(s: State, call: Call, outcome: Outcome): (r: State)
    ensures Answers(s, r)
  {
    var id := call.command.requestId;
    match outcome
    case Started(task) => Accept(s, task, call)
    case Rejected =>
      if !Holds(s.page, id) then s
      else var settled := Settle(Release(s, id), id); settled.(page := settled.page.(notice := Silent))
    case Lost =>
      if !Holds(s.page, id) then s else s.(page := s.page.(notice := Unconfirmed))
  }

  function PostReplied(s: State, id: nat, outcome: Outcome): (r: State)
    requires id in s.page.posts
    ensures Answers(s, r)
  {
    var call, got := s.page.posts[id], s.(page := s.page.(posts := s.page.posts - {id}));
    Release(PostTold(got, call, outcome), call.command.requestId)
  }

  function LookupReplied(s: State, id: nat, outcome: Outcome): (r: State)
    requires id in s.page.lookups
    ensures Answers(s, r)
  {
    var call := s.page.lookups[id];
    var got := s.(page := s.page.(lookups := s.page.lookups - {id}));
    match outcome
    case Started(task) => Accept(got, task, call)
    case Rejected => got.(page := got.page.(notice := NotFound))
    case Lost => got.(page := got.page.(notice := Unreachable))
  }

  /** What a new page makes of `sessionStorage`. */
  function Reloaded(s: State): State {
    s.(page := Page(s.storage.selection, false, s.storage.view, s.storage.submission,
                    if s.storage.owner.Some? then s.storage.owner.value else s.storage.view,
                    None, Silent, None, map[], map[]))
  }

  // ---- The Host ----

  /** `HostTasks.start`: one task per request identity, and the identity must keep its content. */
  function Served(host: Host, id: nat): Host
    requires id in host.waiting
  {
    var command := host.waiting[id];
    if command.requestId in host.tasks then host.(waiting := host.waiting - {id})
    else Host(host.waiting - {id}, host.tasks[command.requestId := command.content],
      host.starts + multiset{command.requestId})
  }

  predicate Conflicts(host: Host, id: nat)
    requires id in host.waiting
  {
    host.waiting[id].requestId in host.tasks && host.tasks[host.waiting[id].requestId] != host.waiting[id].content
  }

  // ---- Steps ----

  /** The Host answers with a task only for a request it has, and with that task's project. It answers
      a POST, either way, only once that POST no longer waits to be served. */
  predicate HostKnows(s: State, command: Submission, outcome: Outcome) {
    outcome.Started? ==>
      command.requestId in s.host.tasks && outcome.task.projectId == s.host.tasks[command.requestId].projectId
  }

  predicate Enabled(s: State, e: Event) {
    match e
    case Send(content) =>
      MaySend(s.page) && content.resume == s.page.selection.session && content.projectId == s.page.selection.projectId
    case Retry => s.page.pending.Some?
    case PostReply(id, outcome) =>
      id in s.page.posts && HostKnows(s, s.page.posts[id].command, outcome)
        && (!outcome.Lost? ==> id !in s.host.waiting)
    case Lookup => s.page.pending.Some?
    case LookupReply(id, outcome) => id in s.page.lookups && HostKnows(s, s.page.lookups[id].command, outcome)
    case Navigate(_) => true
    case Arm => s.page.selection.session.Some? && s.page.pending.None?
    case ShowHistory(_) => s.page.selection.taskId.Some? && s.page.selection.session.None?
    case Reload => true
    case Serve(id) => id in s.host.waiting
    case Refuse(id) => id in s.host.waiting
  }

  function Step(s: State, e: Event): State
    requires Enabled(s, e)
  {
    match e
    case Send(content) => Dispatch(s.(drawn := s.drawn + 1), Submission(s.drawn, content))
    case Retry => Dispatch(s, s.page.pending.value)
    case PostReply(id, outcome) => PostReplied(s, id, outcome)
    case Lookup =>
      s.(page := s.page.(lookups := s.page.lookups[s.drawn := Call(s.page.pending.value, s.page.pendingView)]),
        drawn := s.drawn + 1)
    case LookupReply(id, outcome) => LookupReplied(s, id, outcome)
    case Navigate(selection) => Select(s.(page := s.page.(navigation := s.drawn), drawn := s.drawn + 1), selection)
    case Arm => s.(page := s.page.(armed := true))
    case ShowHistory(session) => Select(s, Selection(s.page.selection.projectId, None, Some(session)))
    case Reload => Reloaded(s)
    case Serve(id) => s.(host := Served(s.host, id))
    case Refuse(id) => s.(host := s.host.(waiting := s.host.waiting - {id}))
  }

  /** The first mount in a tab without stored state. */
  const Start: State :=
    var nothing := Selection("", None, None);
    State(Page(nothing, false, 0, None, 0, None, Silent, None, map[], map[]), Storage(None, None, 0, nothing),
          Host(map[], map[], multiset{}), History(map[], map[], {}), 1)

  // ---- The invariant ----

  /** The command is the one first posted under its identity, and the token is its view. */
  ghost predicate Genuine(h: History, command: Submission, version: Uuid) {
    var id := command.requestId;
    && id in h.posted && h.posted[id] == command.content
    && id in h.firstView && h.firstView[id] == version
  }

  ghost predicate CallsGenuine(h: History, calls: map<nat, Call>) {
    forall i :: i in calls ==> Genuine(h, calls[i].command, calls[i].version)
  }

  /** The stored copy is the pending request, and every identity ever posted is settled or is that one. */
  ghost predicate PendingInv(s: State) {
    && s.storage.submission == s.page.pending
    && (s.page.pending.Some? ==>
          && Genuine(s.history, s.page.pending.value, s.page.pendingView)
          && s.storage.owner == Some(s.page.pendingView)
          && s.page.pending.value.requestId !in s.history.settled)
    && (forall id :: id in s.history.posted ==> id in s.history.settled || Holds(s.page, id))
    && (s.page.sending.Some? ==> Holds(s.page, s.page.sending.value))
  }

  ghost predicate ViewInv(s: State) {
    && s.storage.view == s.page.navigation && s.storage.selection == s.page.selection
    && (s.page.armed ==> s.page.selection.session.Some?)
  }

  ghost predicate HostInv(h: History, host: Host) {
    && (forall i :: i in host.waiting ==>
          var id := host.waiting[i].requestId; id in h.posted && h.posted[id] == host.waiting[i].content)
    && (forall id :: id in host.tasks ==> id in h.posted && h.posted[id] == host.tasks[id])
    && (forall id :: host.starts[id] == if id in host.tasks then 1 else 0)
  }

  ghost predicate Drawn(s: State) {
    && (forall id :: id in s.history.posted ==> id < s.drawn)
    && (forall id :: id in s.history.settled ==> id in s.history.posted)
    && (forall i :: i in s.page.posts ==> i < s.drawn) && (forall i :: i in s.page.lookups ==> i < s.drawn)
    && (forall i :: i in s.host.waiting ==> i < s.drawn)
    && s.page.navigation < s.drawn
  }

  ghost predicate AckInv(s: State) {
    s.page.acknowledged.Some? ==>
      var Acknowledged(prompt, id) := s.page.acknowledged.value;
      id in s.host.tasks && s.host.tasks[id].prompt == prompt
  }

  ghost predicate Inv(s: State) {
    && PendingInv(s) && ViewInv(s) && HostInv(s.history, s.host) && Drawn(s) && AckInv(s)
    && CallsGenuine(s.history, s.page.posts) && CallsGenuine(s.history, s.page.lookups)
  }

  lemma SelectKeeps(s: State, selection: Selection)
    requires PendingInv(s) && HostInv(s.history, s.host) && Drawn(s) && AckInv(s)
    requires CallsGenuine(s.history, s.page.posts) && CallsGenuine(s.history, s.page.lookups)
    ensures Inv(Select(s, selection))
  {
  }

  lemma SettleKeeps(s: State, id: Uuid)
    requires Inv(s) && Holds(s.page, id)
    ensures Inv(Settle(Release(s, id), id))
  {
  }

  lemma AcceptKeeps(s: State, task: HostTask, call: Call)
    requires Inv(s) && Genuine(s.history, call.command, call.version) && HostKnows(s, call.command, Started(task))
    ensures Inv(Accept(s, task, call))
  {
    var id := call.command.requestId;
    if Holds(s.page, id) {
      SettleKeeps(s, id);
      var settled := Settle(Release(s, id), id);
      var quiet := settled.(page := settled.page.(notice := Silent));
      if quiet.page.navigation == call.version {
        SelectKeeps(quiet.(page := quiet.page.(acknowledged := Some(Acknowledged(call.command.content.prompt, id)))),
                    Selection(task.projectId, Some(task.taskId), None));
      }
    }
  }

  lemma RetryKeeps(s: State)
    requires Inv(s) && s.page.pending.Some?
    ensures Inv(Dispatch(s, s.page.pending.value))
  {
  }

  lemma SendKeeps(s: State, command: Submission)
    requires Inv(s) && s.page.pending.None? && command.requestId < s.drawn && command.requestId !in s.history.posted
    ensures Inv(Dispatch(s, command))
  {
    assert s.page.sending.None?;
    SendKeepsCalls(s, command);
    var sent := Dispatch(s, command);
    assert PendingInv(sent);
  }

  lemma SendKeepsCalls(s: State, command: Submission)
    requires Inv(s) && s.page.pending.None? && s.page.sending.None? && command.requestId !in s.history.posted
    ensures var sent := Dispatch(s, command);
            && HostInv(sent.history, sent.host)
            && CallsGenuine(sent.history, sent.page.posts) && CallsGenuine(sent.history, sent.page.lookups)
  {
    var sent := Dispatch(s, command);
    assert HostInv(sent.history, sent.host);
    assert CallsGenuine(sent.history, sent.page.posts);
    assert CallsGenuine(sent.history, sent.page.lookups);
  }

  lemma DrawKeeps(s: State)
    requires Inv(s)
    ensures Inv(s.(drawn := s.drawn + 1))
  {
  }

  lemma SendEventKeeps(s: State, content: Content)
    requires Inv(s) && Enabled(s, Send(content))
    ensures Inv(Step(s, Send(content)))
  {
    assert s.drawn !in s.history.posted;
    DrawKeeps(s);
    SendKeeps(s.(drawn := s.drawn + 1), Submission(s.drawn, content));
  }

  lemma ReleaseKeeps(s: State, id: Uuid)
    requires Inv(s)
    ensures Inv(Release(s, id))
  {
  }

  lemma ForgetKeeps(s: State, posts: map<nat, Call>, lookups: map<nat, Call>)
    requires Inv(s) && posts.Keys <= s.page.posts.Keys && lookups.Keys <= s.page.lookups.Keys
    requires forall i :: i in posts ==> posts[i] == s.page.posts[i]
    requires forall i :: i in lookups ==> lookups[i] == s.page.lookups[i]
    ensures Inv(s.(page := s.page.(posts := posts, lookups := lookups)))
  {
  }

  lemma PostToldKeeps(s: State, call: Call, outcome: Outcome)
    requires Inv(s) && Genuine(s.history, call.command, call.version) && HostKnows(s, call.command, outcome)
    ensures Inv(PostTold(s, call, outcome))
  {
    match outcome
    case Started(task) => AcceptKeeps(s, task, call);
    case Rejected =>
      if Holds(s.page, call.command.requestId) {
        SettleKeeps(s, call.command.requestId);
      }
    case Lost =>
  }

  lemma PostRepliedKeeps(s: State, id: nat, outcome: Outcome)
    requires Inv(s) && Enabled(s, PostReply(id, outcome))
    ensures Inv(PostReplied(s, id, outcome))
  {
    var call, got := s.page.posts[id], s.(page := s.page.(posts := s.page.posts - {id}));
    ForgetKeeps(s, s.page.posts - {id}, s.page.lookups);
    PostToldKeeps(got, call, outcome);
    ReleaseKeeps(PostTold(got, call, outcome), call.command.requestId);
  }

  lemma LookupRepliedKeeps(s: State, id: nat, outcome: Outcome)
    requires Inv(s) && Enabled(s, LookupReply(id, outcome))
    ensures Inv(LookupReplied(s, id, outcome))
  {
    var got := s.(page := s.page.(lookups := s.page.lookups - {id}));
    ForgetKeeps(s, s.page.posts, s.page.lookups - {id});
    if outcome.Started? {
      AcceptKeeps(got, outcome.task, s.page.lookups[id]);
    }
  }

  lemma ArmKeeps(s: State)
    requires Inv(s) && Enabled(s, Arm)
    ensures Inv(Step(s, Arm))
  {
  }

  lemma ReloadKeeps(s: State)
    requires Inv(s)
    ensures Inv(Reloaded(s))
  {
    ForgetKeeps(s, map[], map[]);
  }

  lemma LookupKeeps(s: State)
    requires Inv(s) && s.page.pending.Some?
    ensures Inv(Step(s, Lookup))
  {
  }

  lemma ServeKeeps(s: State, id: nat)
    requires Inv(s) && id in s.host.waiting
    ensures Inv(Step(s, Serve(id))) && Inv(Step(s, Refuse(id)))
  {
    assert HostInv(s.history, Served(s.host, id));
    assert HostInv(s.history, s.host.(waiting := s.host.waiting - {id}));
  }

  lemma StepKeeps(s: State, e: Event)
    requires Inv(s) && Enabled(s, e)
    ensures Inv(Step(s, e))
  {
    match e
    case Send(content) => SendEventKeeps(s, content);
    case Retry => RetryKeeps(s);
    case PostReply(id, outcome) => PostRepliedKeeps(s, id, outcome);
    case Lookup => LookupKeeps(s);
    case LookupReply(id, outcome) => LookupRepliedKeeps(s, id, outcome);
    case Navigate(selection) =>
      SelectKeeps(s.(page := s.page.(navigation := s.drawn), drawn := s.drawn + 1), selection);
    case Arm => ArmKeeps(s);
    case ShowHistory(session) => SelectKeeps(s, Selection(s.page.selection.projectId, None, Some(session)));
    case Reload => ReloadKeeps(s);
    case Serve(id) => ServeKeeps(s, id);
    case Refuse(id) => ServeKeeps(s, id);
  }

  // ---- What single steps may do ----

  predicate IsReply(e: Event) { e.PostReply? || e.LookupReply? }

  function ReplyCall(s: State, e: Event): Call
    requires IsReply(e) && Enabled(s, e)
  {
    if e.PostReply? then s.page.posts[e.id] else s.page.lookups[e.id]
  }

  /** The late outcome of a POST whose request is no longer pending changes nothing on the page: not
      the newer request, its stored copy, the sending lock, the selection nor the notice. */
  lemma LatePostInert(s: State, id: nat, outcome: Outcome)
    requires Inv(s) && Enabled(s, PostReply(id, outcome)) && !Holds(s.page, s.page.posts[id].command.requestId)
    ensures Step(s, PostReply(id, outcome)) == s.(page := s.page.(posts := s.page.posts - {id}))
  {
  }

  /** A late lookup is as inert except for the notice, which a failed one always overwrites. */
  lemma LateLookupOnlyNotice(s: State, id: nat, outcome: Outcome)
    requires Inv(s) && Enabled(s, LookupReply(id, outcome)) && !Holds(s.page, s.page.lookups[id].command.requestId)
    ensures var notice :=
              if outcome.Started? then s.page.notice else if outcome.Rejected? then NotFound else Unreachable;
            Step(s, LookupReply(id, outcome)) == s.(page := s.page.(lookups := s.page.lookups - {id}, notice := notice))
  {
  }

  /** A Host answer moves the selection only from the view the request was first posted from. */
  lemma AnswerMovesOwnView(s: State, e: Event)
    requires Inv(s) && Enabled(s, e) && IsReply(e) && Step(s, e).page.selection != s.page.selection
    ensures var id := ReplyCall(s, e).command.requestId;
            && id in s.history.firstView && s.page.navigation == s.history.firstView[id]
            && Holds(s.page, id) && e.outcome.Started?
            && Step(s, e).page.selection == Selection(e.outcome.task.projectId, Some(e.outcome.task.taskId), None)
  {
  }

  // ---- What sending and its answers must do ----

  /** A send stores and posts one command under a new identity, from the view that is shown, and takes the lock. */
  lemma SendStoresAndPosts(s: State, content: Content)
    requires Inv(s) && Enabled(s, Send(content))
    ensures var next, command := Step(s, Send(content)), Submission(s.drawn, content);
            && next.page.pending == Some(command) && next.storage.submission == Some(command)
            && next.page.pendingView == s.page.navigation && next.storage.owner == Some(s.page.navigation)
            && next.page.sending == Some(s.drawn)
            && next.host.waiting == s.host.waiting[s.drawn + 1 := command]
            && next.page.posts == s.page.posts[s.drawn + 1 := Call(command, s.page.navigation)]
            && s.drawn !in s.history.posted && next.page.selection == s.page.selection
  {
    assert s.page.sending.None?;
  }

  /** A retry posts the pending command again, under its first view; under the lock it does nothing. */
  lemma RetryPostsAgain(s: State)
    requires Inv(s) && s.page.pending.Some?
    ensures var next, command := Step(s, Retry), s.page.pending.value;
            if s.page.sending.Some? then next == s
            else
              && next.page.pending == s.page.pending && next.storage == s.storage
              && next.page.sending == Some(command.requestId)
              && next.host.waiting == s.host.waiting[s.drawn := command]
              && next.page.posts == s.page.posts[s.drawn := Call(command, s.page.pendingView)]
  {
  }

  /** A lookup asks for the pending command, under its first view. */
  lemma LookupAsks(s: State)
    requires Inv(s) && s.page.pending.Some?
    ensures Step(s, Lookup).page
            == s.page.(lookups := s.page.lookups[s.drawn := Call(s.page.pending.value, s.page.pendingView)])
  {
  }

  /** The answer is a task, or the refusal of a POST. */
  predicate Final(e: Event) { IsReply(e) && (e.outcome.Started? || (e.PostReply? && e.outcome.Rejected?)) }

  /** A final answer to the pending request settles it: it is gone from memory and storage, the lock is free and the
      notice is silent. */
  lemma FinalAnswerSettles(s: State, e: Event)
    requires Inv(s) && Enabled(s, e) && Final(e) && Holds(s.page, ReplyCall(s, e).command.requestId)
    ensures var next, id := Step(s, e), ReplyCall(s, e).command.requestId;
            && next.page.pending.None? && next.storage.submission.None? && next.page.sending != Some(id)
            && next.page.notice == Silent && id in next.history.settled
  {
    match e {
      case PostReply(i, outcome) =>
        var got := s.(page := s.page.(posts := s.page.posts - {i}));
        assert SettledNow(PostTold(got, s.page.posts[i], outcome), s.page.posts[i].command.requestId) by {
          if outcome.Started? { AcceptSettles(got, outcome.task, s.page.posts[i]); }
        }
      case LookupReply(i, outcome) =>
        AcceptSettles(s.(page := s.page.(lookups := s.page.lookups - {i})), outcome.task, s.page.lookups[i]);
    }
  }

  predicate SettledNow(s: State, id: Uuid) {
    && s.page.pending.None? && s.storage.submission.None? && s.page.sending != Some(id)
    && s.page.notice == Silent && id in s.history.settled
  }

  lemma AcceptSettles(s: State, task: HostTask, call: Call)
    requires Holds(s.page, call.command.requestId)
    ensures SettledNow(Accept(s, task, call), call.command.requestId)
  {
  }

  /** A task answer to the pending request selects the task, disarms and acknowledges the prompt, exactly when the
      view is still the one the request was first posted from; otherwise it leaves all three alone. */
  lemma TaskAnswerSelectsExactly(s: State, e: Event)
    requires Inv(s) && Enabled(s, e) && IsReply(e) && e.outcome.Started?
    requires Holds(s.page, ReplyCall(s, e).command.requestId)
    ensures var next, command := Step(s, e), ReplyCall(s, e).command;
            && command.requestId in s.history.firstView
            && if s.page.navigation == s.history.firstView[command.requestId] then
                 && next.page.selection == Selection(e.outcome.task.projectId, Some(e.outcome.task.taskId), None)
                 && !next.page.armed && next.storage.selection == next.page.selection
                 && next.page.acknowledged == Some(Acknowledged(command.content.prompt, command.requestId))
               else
                 && next.page.selection == s.page.selection && next.page.armed == s.page.armed
                 && next.page.acknowledged == s.page.acknowledged
  {
  }

  /** An unknown outcome of the pending request keeps it, in memory and in storage, frees the lock and says so; so
      does a lookup that finds nothing or fails, without touching the lock. */
  lemma UnknownOutcomeKeeps(s: State, e: Event)
    requires Inv(s) && Enabled(s, e) && IsReply(e) && !Final(e) && Holds(s.page, ReplyCall(s, e).command.requestId)
    ensures var next, id := Step(s, e), ReplyCall(s, e).command.requestId;
            && next.page.pending == s.page.pending && next.storage == s.storage
            && next.page.selection == s.page.selection
            && (e.PostReply? ==> next.page.notice == Unconfirmed)
            && (e.LookupReply? ==> next.page.notice == if e.outcome.Rejected? then NotFound else Unreachable)
            && next.page.sending == (if e.PostReply? && s.page.sending == Some(id) then None else s.page.sending)
  {
  }

  /** A navigation takes a new view token and the selection asked for, disarmed; the pending request stays. */
  lemma NavigateSelects(s: State, selection: Selection)
    requires Inv(s)
    ensures var next := Step(s, Navigate(selection));
            && next.page.selection == selection && next.storage.selection == selection && !next.page.armed
            && next.page.navigation == s.drawn && next.storage.view == s.drawn && s.drawn != s.page.navigation
            && next.page.pending == s.page.pending && next.storage.submission == s.storage.submission
  {
  }

  /** A reload brings back the selection, the view and the pending request with its first view, and nothing in
      flight. */
  lemma ReloadRestores(s: State)
    requires Inv(s)
    ensures var next := Step(s, Reload);
            && next.page.selection == s.page.selection && next.page.navigation == s.page.navigation
            && next.page.pending == s.page.pending
            && (s.page.pending.Some? ==> next.page.pendingView == s.page.pendingView)
            && !next.page.armed && next.page.sending.None? && next.page.posts == map[] && next.page.lookups == map[]
            && next.storage == s.storage && next.host == s.host
  {
  }

  /** The Host starts exactly one task for a new identity, with its content, and none for one it has. */
  lemma ServeStarts(s: State, i: nat)
    requires Inv(s) && i in s.host.waiting
    ensures var next, command := Step(s, Serve(i)), s.host.waiting[i];
            && command.requestId in next.host.tasks && next.host.tasks[command.requestId] == command.content
            && next.host.starts[command.requestId] == 1 && i !in next.host.waiting
            && forall id :: id != command.requestId ==> (id in next.host.tasks <==> id in s.host.tasks)
  {
    assert HostInv(Step(s, Serve(i)).history, Step(s, Serve(i)).host) by { StepKeeps(s, Serve(i)); }
  }

  // ---- Runs ----

  ghost predicate IsRun(states: seq<State>, events: seq<Event>) {
    && |states| == |events| + 1 && states[0] == Start
    && forall i {:trigger events[i]} :: 0 <= i < |events| ==>
         Enabled(states[i], events[i]) && states[i + 1] == Step(states[i], events[i])
  }

  /** In every state of every run, with reloads anywhere: each identity ever posted was answered by the
      Host or is exactly the pending request, held both in memory and in storage; the Host has at most
      one task for it, with the content first posted, and never sees an identity conflict. */
  lemma {:induction false} EveryRequestAccountedFor(states: seq<State>, events: seq<Event>, k: nat)
    requires IsRun(states, events) && k < |states|
    ensures Inv(states[k])
    ensures forall id :: id in states[k].history.posted ==>
              id in states[k].history.settled <==>
                !(Holds(states[k].page, id) && states[k].storage.submission == states[k].page.pending)
    ensures forall id :: states[k].host.starts[id] <= 1
    ensures forall i :: i in states[k].host.waiting ==> !Conflicts(states[k].host, i)
    ensures AckInv(states[k])
  {
    if k > 0 {
      EveryRequestAccountedFor(states, events, k - 1);
      StepKeeps(states[k - 1], events[k - 1]);
    }
  }

  /** Some event before `k` brought a final answer for the identity. */
  ghost predicate AnsweredBefore(states: seq<State>, events: seq<Event>, id: Uuid, k: nat)
    requires IsRun(states, events)
  {
    exists m :: 0 <= m < k && m < |events| && AnswersAt(states, events, m, id)
  }

  ghost predicate AnswersAt(states: seq<State>, events: seq<Event>, m: nat, id: Uuid)
    requires IsRun(states, events) && m < |events|
  {
    Enabled(states[m], events[m]) && Final(events[m]) && ReplyCall(states[m], events[m]).command.requestId == id
  }

  /** What the page settled is what was answered. */
  lemma {:induction false} SettledIsAnswered(states: seq<State>, events: seq<Event>, k: nat, id: Uuid)
    requires IsRun(states, events) && k < |states| && id in states[k].history.posted
    ensures id in states[k].history.settled <==> AnsweredBefore(states, events, id, k)
  {
    EveryRequestAccountedFor(states, events, k);
    if k > 0 {
      EveryRequestAccountedFor(states, events, k - 1);
      AnsweredNext(states, events, k, id);
      if id in states[k - 1].history.posted {
        SettledIsAnswered(states, events, k - 1, id);
        SettlingStep(states[k - 1], events[k - 1], id);
      } else {
        NothingBeforePosting(states, events, k - 1, id);
        NewlyPosted(states[k - 1], events[k - 1], id);
      }
    }
  }

  lemma AnsweredNext(states: seq<State>, events: seq<Event>, k: nat, id: Uuid)
    requires IsRun(states, events) && 0 < k < |states|
    ensures Enabled(states[k - 1], events[k - 1]) && states[k] == Step(states[k - 1], events[k - 1])
    ensures AnsweredBefore(states, events, id, k) <==>
              AnsweredBefore(states, events, id, k - 1)
              || (Final(events[k - 1]) && ReplyCall(states[k - 1], events[k - 1]).command.requestId == id)
  {
    assert AnswersAt(states, events, k - 1, id) <==>
      (Final(events[k - 1]) && ReplyCall(states[k - 1], events[k - 1]).command.requestId == id);
  }

  /** A step settles a posted identity exactly if it was settled or is answered now. */
  lemma SettlingStep(s: State, e: Event, id: Uuid)
    requires Inv(s) && Enabled(s, e) && id in s.history.posted
    ensures id in Step(s, e).history.settled <==>
              id in s.history.settled || (Final(e) && ReplyCall(s, e).command.requestId == id)
  {
    if Final(e) && ReplyCall(s, e).command.requestId == id && Holds(s.page, id) {
      FinalAnswerSettles(s, e);
    }
    if id in Step(s, e).history.settled && id !in s.history.settled {
      SettledSource(s, e, id);
    }
    SettledStays(s, e, id);
  }

  lemma SettledStays(s: State, e: Event, id: Uuid)
    requires Enabled(s, e)
    ensures id in s.history.settled ==> id in Step(s, e).history.settled
  {
  }

  /** A new identity is not settled by the step that posts it, which is no answer. */
  lemma NewlyPosted(s: State, e: Event, id: Uuid)
    requires Inv(s) && Enabled(s, e) && id !in s.history.posted && id in Step(s, e).history.posted
    ensures e.Send? && id !in Step(s, e).history.settled
  {
  }

  /** No answer is for an identity that is not posted by then. */
  lemma {:induction false} NothingBeforePosting(states: seq<State>, events: seq<Event>, k: nat, id: Uuid)
    requires IsRun(states, events) && k < |states| && id !in states[k].history.posted
    ensures !AnsweredBefore(states, events, id, k)
  {
    if k > 0 {
      EveryRequestAccountedFor(states, events, k - 1);
      PostedStays(states[k - 1], events[k - 1], id);
      NothingBeforePosting(states, events, k - 1, id);
    }
  }

  lemma PostedStays(s: State, e: Event, id: Uuid)
    requires Inv(s) && Enabled(s, e)
    ensures id in s.history.posted ==>
              id in Step(s, e).history.posted && Step(s, e).history.posted[id] == s.history.posted[id]
    ensures Final(e) && ReplyCall(s, e).command.requestId == id ==> id in s.history.posted
  {
  }

  /** Every command sent in a run, from the moment it was sent: either a final answer for it has arrived, or it is
      exactly the command held in memory and in storage. */
  lemma {:induction false} SentIsAnsweredOrHeld(states: seq<State>, events: seq<Event>, i: nat, k: nat)
    requires IsRun(states, events) && i < k < |states| && events[i].Send?
    ensures var command := Submission(states[i].drawn, events[i].content);
            AnsweredBefore(states, events, command.requestId, k) <==>
              !(states[k].page.pending == Some(command) && states[k].storage.submission == Some(command))
  {
    var command := Submission(states[i].drawn, events[i].content);
    SentIsPosted(states, events, i, k);
    EveryRequestAccountedFor(states, events, k);
    SettledIsAnswered(states, events, k, command.requestId);
  }

  lemma {:induction false} SentIsPosted(states: seq<State>, events: seq<Event>, i: nat, k: nat)
    requires IsRun(states, events) && i < k < |states| && events[i].Send?
    ensures states[i].drawn in states[k].history.posted
    ensures states[k].history.posted[states[i].drawn] == events[i].content
    decreases k
  {
    EveryRequestAccountedFor(states, events, k - 1);
    if i < k - 1 {
      SentIsPosted(states, events, i, k - 1);
      PostedStays(states[k - 1], events[k - 1], states[i].drawn);
    } else {
      assert Enabled(states[i], events[i]);
      assert states[i].page.sending.None?;
    }
  }

  // ---- Resuming needs consent ----

  /** The command an event hands to the network, first or again. */
  function Posting(s: State, e: Event): Option<Submission>
    requires Enabled(s, e)
  {
    if s.page.sending.Some? then None
    else match e
      case Send(content) => Some(Submission(s.drawn, content))
      case Retry => s.page.pending
      case _ => None
  }

  lemma PendingSource(s: State, e: Event)
    requires Inv(s) && Enabled(s, e) && Step(s, e).page.pending.Some?
    ensures Step(s, e).page.pending == s.page.pending
         || (e.Send? && Step(s, e).page.pending == Some(Submission(s.drawn, e.content)))
  {
  }

  /** A pending command goes back to the `send` that made it. */
  lemma {:induction false} PendingWasSent(states: seq<State>, events: seq<Event>, k: nat) returns (i: nat)
    requires IsRun(states, events) && k < |states| && states[k].page.pending.Some?
    ensures i < k && events[i].Send? && states[k].page.pending == Some(Submission(states[i].drawn, events[i].content))
  {
    EveryRequestAccountedFor(states, events, k - 1);
    PendingSource(states[k - 1], events[k - 1]);
    if states[k].page.pending == states[k - 1].page.pending {
      i := PendingWasSent(states, events, k - 1);
    } else {
      i := k - 1;
    }
  }

  /** The event leaves the selection, the view token and the page as they are. */
  predicate StaysPut(s: State, e: Event, next: State) {
    next.page.selection == s.page.selection && next.page.navigation == s.page.navigation && !e.Reload?
  }

  /** The session was armed at `j` while it was selected, and the selection did not change from then to `k`. */
  ghost predicate ConsentFrom(states: seq<State>, events: seq<Event>, j: nat, k: nat, key: string)
    requires |states| == |events| + 1
  {
    && j < k < |states| && events[j].Arm? && states[j].page.selection.session == Some(key)
    && forall m {:trigger events[m]} :: j <= m < k ==> StaysPut(states[m], events[m], states[m + 1])
  }

  lemma ArmSource(s: State, e: Event)
    requires Inv(s) && Enabled(s, e)
    ensures Step(s, e).page.armed <==> StaysPut(s, e, Step(s, e)) && (e.Arm? || s.page.armed)
  {
  }

  lemma {:induction false} ConsentArms(states: seq<State>, events: seq<Event>, j: nat, k: nat, key: string)
    requires IsRun(states, events) && ConsentFrom(states, events, j, k, key)
    ensures states[k].page.armed && states[k].page.selection.session == Some(key)
    decreases k
  {
    ArmedAt(states, events, k - 1);
    assert StaysPut(states[k - 1], events[k - 1], states[k]);
    if j < k - 1 {
      ConsentArms(states, events, j, k - 1, key);
    }
  }

  lemma ArmedAt(states: seq<State>, events: seq<Event>, m: nat)
    requires IsRun(states, events) && m < |events|
    ensures states[m + 1].page.armed <==>
              StaysPut(states[m], events[m], states[m + 1]) && (events[m].Arm? || states[m].page.armed)
    ensures states[m].page.armed ==> states[m].page.selection.session.Some?
    ensures events[m].Arm? ==> states[m].page.selection.session.Some?
  {
    EveryRequestAccountedFor(states, events, m);
    ArmSource(states[m], events[m]);
  }

  lemma {:induction false} ArmedByConsent(states: seq<State>, events: seq<Event>, k: nat) returns (j: nat)
    requires IsRun(states, events) && k < |states| && states[k].page.armed
    ensures states[k].page.selection.session.Some?
    ensures ConsentFrom(states, events, j, k, states[k].page.selection.session.value)
  {
    ArmedAt(states, events, k - 1);
    if events[k - 1].Arm? {
      j := k - 1;
    } else {
      j := ArmedByConsent(states, events, k - 1);
    }
  }

  /** Consent to resume a session stands exactly when the page shows it: armed, with that session selected. */
  lemma ConsentStandsExactly(states: seq<State>, events: seq<Event>, k: nat, key: string)
    requires IsRun(states, events) && k < |states|
    ensures (exists j :: ConsentFrom(states, events, j, k, key)) <==>
              states[k].page.armed && states[k].page.selection.session == Some(key)
  {
    if j :| ConsentFrom(states, events, j, k, key) {
      ConsentArms(states, events, j, k, key);
    }
    if states[k].page.armed && states[k].page.selection.session == Some(key) {
      var j := ArmedByConsent(states, events, k);
    }
  }

  /** Every post of a command with a resume key, first or repeated, goes back to a first post, made under an arm of that
      session with no change of selection in between. */
  lemma ResumeNeedsConsent(states: seq<State>, events: seq<Event>, k: nat, key: string) returns (i: nat, j: nat)
    requires IsRun(states, events) && k < |events| && Posting(states[k], events[k]).Some?
    requires Posting(states[k], events[k]).value.content.resume == Some(key)
    ensures i <= k && events[i].Send?
    ensures Posting(states[k], events[k]) == Some(Submission(states[i].drawn, events[i].content))
    ensures ConsentFrom(states, events, j, i, key)
  {
    i := k;
    if events[k].Retry? {
      i := PendingWasSent(states, events, k);
    }
    assert Enabled(states[i], events[i]);
    assert states[i].page.armed && states[i].page.selection.session == Some(key);
    j := ArmedByConsent(states, events, i);
  }

  /** A retry does not ask again: after any navigation the pending resume request can be posted from
      another selection, with nothing armed. */
  lemma RetryWithoutConsent(s: State, elsewhere: Selection)
    requires Inv(s) && s.page.pending.Some? && s.page.pending.value.content.resume.Some? && s.page.sending.None?
    requires elsewhere.session != s.page.pending.value.content.resume
    ensures var away := Step(s, Navigate(elsewhere));
            && Enabled(away, Retry) && Posting(away, Retry) == s.page.pending
            && !away.page.armed && away.page.selection.session != s.page.pending.value.content.resume
  {
  }

  // ---- What a rejection proves, exactly ----

  ghost predicate Waiting(host: Host, id: Uuid) { exists i :: i in host.waiting && host.waiting[i].requestId == id }

  ghost predicate Gone(s: State, id: Uuid) { id in s.history.settled && id !in s.host.tasks && !Waiting(s.host, id) }

  lemma DispatchAdds(s: State, command: Submission)
    ensures var sent := Dispatch(s, command);
            && sent.host.tasks == s.host.tasks && sent.history.settled == s.history.settled
            && (sent.host.waiting == s.host.waiting || sent.host.waiting == s.host.waiting[s.drawn := command])
            && (forall i :: i in sent.page.posts && i != s.drawn ==>
                 i in s.page.posts && sent.page.posts[i] == s.page.posts[i])
            && (s.drawn in sent.page.posts && s.drawn !in s.page.posts ==> sent.page.posts[s.drawn].command == command)
            && (s.page.sending.None? ==> command.requestId in sent.history.posted)
            && (forall id :: id in sent.history.posted ==> id in s.history.posted || id == command.requestId)
            && s.history.posted.Keys <= sent.history.posted.Keys
  {
  }

  lemma GoneStays(s: State, e: Event, id: Uuid)
    requires Enabled(s, e) && Gone(s, id) && id < s.drawn && !Holds(s.page, id)
    ensures Gone(Step(s, e), id)
  {
    match e
    case Send(content) => DispatchAdds(s.(drawn := s.drawn + 1), Submission(s.drawn, content));
    case Retry => DispatchAdds(s, s.page.pending.value);
    case Serve(i) => assert s.host.waiting[i].requestId != id;
    case Refuse(i) =>
    case _ => assert Step(s, e).host == s.host;
  }

  ghost predicate Continues(s: State, states: seq<State>, events: seq<Event>) {
    && |states| == |events| + 1 && states[0] == s
    && forall i {:trigger events[i]} :: 0 <= i < |events| ==>
         Enabled(states[i], events[i]) && states[i + 1] == Step(states[i], events[i])
  }

  lemma {:induction false} GoneForever(s: State, states: seq<State>, events: seq<Event>, id: Uuid, k: nat)
    requires Inv(s) && Gone(s, id) && Continues(s, states, events) && k < |states|
    ensures Inv(states[k]) && Gone(states[k], id)
  {
    if k > 0 {
      GoneForever(s, states, events, id, k - 1);
      assert id < states[k - 1].drawn && !Holds(states[k - 1].page, id);
      StepKeeps(states[k - 1], events[k - 1]);
      GoneStays(states[k - 1], events[k - 1], id);
    }
  }

  /** A request the page has settled without a task on the Host, that is after a rejection, can still
      start one exactly when another POST of the same identity still waits to be served. */
  lemma RejectionIsFinalExactly(s: State, id: Uuid)
    requires Inv(s) && id in s.history.settled && id !in s.host.tasks
    ensures !Waiting(s.host, id) <==>
            forall states: seq<State>, events :: Continues(s, states, events) ==> id !in states[|events|].host.tasks
  {
    if Waiting(s.host, id) {
      var i :| i in s.host.waiting && s.host.waiting[i].requestId == id;
      var states, events := [s, Step(s, Serve(i))], [Serve(i)];
      assert Continues(s, states, events) && id in states[|events|].host.tasks;
    } else {
      forall states: seq<State>, events | Continues(s, states, events) ensures id !in states[|events|].host.tasks {
        GoneForever(s, states, events, id, |events|);
      }
    }
  }

  /** All POSTs of `id` on their way are the one numbered `n`, and a settled request that has no task has none
      waiting. */
  ghost predicate OnlyPost(s: State, id: Uuid, n: nat) {
    && (forall i :: i in s.host.waiting && s.host.waiting[i].requestId == id ==> i == n)
    && (forall i :: i in s.page.posts && s.page.posts[i].command.requestId == id ==> i == n)
    && (id !in s.history.posted ==> !Waiting(s.host, id))
    && (id in s.history.settled && id !in s.host.tasks ==> !Waiting(s.host, id))
  }

  /** The page settles a request by an answer to it: a task the Host has, or a refusal of a POST. */
  lemma SettledSource(s: State, e: Event, id: Uuid)
    requires Inv(s) && Enabled(s, e) && id in Step(s, e).history.settled && id !in s.history.settled
    ensures IsReply(e) && ReplyCall(s, e).command.requestId == id
    ensures e.outcome.Started? || (e.PostReply? && e.outcome.Rejected?)
  {
  }

  lemma ReplyKeepsPosts(s: State, e: Event)
    requires Enabled(s, e) && IsReply(e)
    ensures forall i :: i in Step(s, e).page.posts ==> i in s.page.posts && Step(s, e).page.posts[i] == s.page.posts[i]
  {
  }

  lemma OnlyPostAfterReply(s: State, e: Event, id: Uuid, n: nat)
    requires Inv(s) && Enabled(s, e) && IsReply(e) && OnlyPost(s, id, n)
    ensures OnlyPost(Step(s, e), id, n)
  {
    var next := Step(s, e);
    assert next.host == s.host && next.history.posted == s.history.posted;
    ReplyKeepsPosts(s, e);
    if id in next.history.settled && id !in s.history.settled {
      SettledSource(s, e, id);
    }
  }

  lemma OnlyPostAfterDispatch(s: State, command: Submission, id: Uuid, n: nat)
    requires OnlyPost(s, id, n) && command.requestId != id
    ensures OnlyPost(Dispatch(s, command), id, n)
  {
    DispatchAdds(s, command);
  }

  lemma OnlyPostStays(s: State, e: Event, id: Uuid, n: nat) returns (next: nat)
    requires Inv(s) && Enabled(s, e) && OnlyPost(s, id, n) && !(e.Retry? && Holds(s.page, id))
    ensures OnlyPost(Step(s, e), id, next)
  {
    next := n;
    match e {
      case Send(content) =>
        var drawn, command := s.(drawn := s.drawn + 1), Submission(s.drawn, content);
        if id == s.drawn {
          next := s.drawn + 1;
          DispatchAdds(drawn, command);
          assert id !in s.history.posted;
        } else {
          OnlyPostAfterDispatch(drawn, command, id, n);
        }
      case Retry => OnlyPostAfterDispatch(s, s.page.pending.value, id, n);
      case PostReply(_, _) => OnlyPostAfterReply(s, e, id, n);
      case LookupReply(_, _) => OnlyPostAfterReply(s, e, id, n);
      case Serve(i) => assert Waiting(Step(s, e).host, id) ==> Waiting(s.host, id);
      case Refuse(i) => assert Waiting(Step(s, e).host, id) ==> Waiting(s.host, id);
      case _ =>
    }
  }

  /** A page can rely on a rejection of a request it never retried: no later step starts it. */
  lemma {:induction false} UnretriedRejectionIsFinal(states: seq<State>, events: seq<Event>, id: Uuid, k: nat)
      returns (n: nat)
    requires IsRun(states, events) && k < |states|
    requires forall i :: 0 <= i < k ==> !(events[i].Retry? && Holds(states[i].page, id))
    ensures OnlyPost(states[k], id, n)
    ensures id in states[k].history.settled && id !in states[k].host.tasks ==>
              forall later: seq<State>, more :: Continues(states[k], later, more) ==> id !in later[|more|].host.tasks
  {
    EveryRequestAccountedFor(states, events, k);
    if k == 0 {
      n := 0;
    } else {
      n := UnretriedRejectionIsFinal(states, events, id, k - 1);
      EveryRequestAccountedFor(states, events, k - 1);
      n := OnlyPostStays(states[k - 1], events[k - 1], id, n);
    }
    if id in states[k].history.settled && id !in states[k].host.tasks {
      RejectionIsFinalExactly(states[k], id);
    }
  }

  /** A lost POST and its retry can both wait at the Host. */
  lemma RetryOvertakes(s: State, content: Content) returns (states: seq<State>, events: seq<Event>)
    requires Inv(s) && Enabled(s, Send(content))
    ensures Continues(s, states, events) && |events| == 3
    ensures var again, first, second, command := states[3], s.drawn + 1, s.drawn + 2, Submission(s.drawn, content);
            && first in again.host.waiting && again.host.waiting[first] == command
            && second in again.host.waiting && again.host.waiting[second] == command
            && second in again.page.posts && again.page.posts[second].command == command
            && again.page.pending == Some(command) && again.host.tasks == s.host.tasks
  {
    var first := s.drawn + 1;
    assert s.page.sending.None?;
    var sent := Step(s, Send(content));
    assert sent.page.sending == Some(s.drawn) && sent.drawn == s.drawn + 2;
    var lost := Step(sent, PostReply(first, Lost));
    assert lost.page.sending.None? && lost.drawn == s.drawn + 2 && lost.host == sent.host
      && lost.page.pending == sent.page.pending;
    states, events := [s, sent, lost, Step(lost, Retry)], [Send(content), PostReply(first, Lost), Retry];
  }

  lemma RefusedThenServed(s: State, first: nat, second: nat) returns (states: seq<State>, events: seq<Event>)
    requires first != second && first in s.host.waiting && second in s.host.waiting && second in s.page.posts
    requires s.page.pending == Some(s.host.waiting[first]) == Some(s.page.posts[second].command)
    requires s.host.waiting[first].requestId !in s.host.tasks
    ensures Continues(s, states, events) && |events| == 3
    ensures var id := s.host.waiting[first].requestId;
            && id in states[2].history.settled && states[2].page.pending.None? && id !in states[2].host.tasks
            && id in states[3].host.tasks
  {
    var refused := Step(s, Refuse(second));
    var rejected := Step(refused, PostReply(second, Rejected));
    assert rejected.host == refused.host;
    states, events := [s, refused, rejected, Step(rejected, Serve(first))],
      [Refuse(second), PostReply(second, Rejected), Serve(first)];
  }

  lemma {:induction false} Joined(s: State, a: seq<State>, x: seq<Event>, b: seq<State>, y: seq<Event>)
    requires Continues(s, a, x) && Continues(a[|x|], b, y)
    ensures Continues(s, a[..|x|] + b, x + y)
  {
    var states, events := a[..|x|] + b, x + y;
    forall i | 0 <= i < |events| ensures Enabled(states[i], events[i]) && states[i + 1] == Step(states[i], events[i]) {
      if i < |x| {
        assert states[i] == a[i] && states[i + 1] == a[i + 1] && events[i] == x[i];
      } else {
        assert states[i] == b[i - |x|] && states[i + 1] == b[i + 1 - |x|] && events[i] == y[i - |x|];
      }
    }
  }

  /** A retried one it cannot: from any state that may send, the first POST is lost to the page, the retry is
      refused and settles the request, and the first POST then starts it. */
  lemma RejectedYetStarted(s: State, content: Content) returns (states: seq<State>, events: seq<Event>)
    requires Inv(s) && Enabled(s, Send(content))
    ensures Continues(s, states, events) && |events| == 6
    ensures s.drawn in states[5].history.settled && states[5].page.pending.None? && s.drawn !in states[5].host.tasks
    ensures s.drawn in states[6].host.tasks
  {
    assert s.drawn !in s.host.tasks;
    var a, x := RetryOvertakes(s, content);
    var b, y := RefusedThenServed(a[3], s.drawn + 1, s.drawn + 2);
    Joined(s, a, x, b, y);
    states, events := a[..3] + b, x + y;
  }
}
