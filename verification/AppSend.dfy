/** `send` of webui/src/App.tsx with the state it reads: the remembered command, the navigation counter, the open
    history session and the resume switch. */
module AppSend {
  import opened Options

  /** What identifies a submission besides its identity. */
  datatype Content = Content(model: string, prompt: string, mode: string, project: string, account: string,
                             resume: Option<string>, thinking: Option<string>)
  datatype Command = Command(id: nat, content: Content)
  datatype Post = Post(command: Command, from: nat)

  /** `posted` is history: every command given to the Host. */
  datatype App = App(project: string, account: string, session: Option<string>, resume: Option<string>,
                     task: Option<nat>, pending: Option<Command>, navigation: nat, posts: map<nat, Post>,
                     posted: set<Command>, error: bool, drawn: nat)

  /** `known` says whether the snapshot lists the chosen project. */
  datatype Event =
    | ChooseProject(project: string)
    | Renew
    | OpenHistory(key: string)
    | OpenTask(task: nat)
    | ToggleResume
    | SelectAccount(account: string)
    | Send(model: string, prompt: string, mode: string, thinking: Option<string>, known: bool)
    | Answered(post: nat, result: Option<nat>)

  const Start: App := App("", "", None, None, None, None, 0, map[], {}, false, 0)

  /** An empty string is falsy, so it is compared but not carried. */
  function Carried(value: Option<string>): Option<string> { if value == Some("") then None else value }

  function ResumeKey(a: App): Option<string> { if a.session == a.resume then a.resume else None }

  function Wanted(a: App, e: Event): Content
    requires e.Send?
  {
    Content(e.model, e.prompt, e.mode, a.project, a.account, ResumeKey(a), e.thinking)
  }

  /** The remembered command if it has the wanted content, else one under a new identity. */
  function Chosen(a: App, wanted: Content): Command {
    if a.pending.Some? && a.pending.value.content == wanted then a.pending.value
    else Command(a.drawn, wanted.(resume := Carried(wanted.resume), thinking := Carried(wanted.thinking)))
  }

  function Posted(a: App, command: Command): App {
    a.(pending := Some(command), posts := a.posts[a.drawn + 1 := Post(command, a.navigation)],
       posted := a.posted + {command}, drawn := a.drawn + 2)
  }

  predicate Enabled(a: App, e: Event) {
    match e
    case ToggleResume => a.session.Some?
    case Answered(post, _) => post in a.posts
    case _ => true
  }

  function Step(a: App, e: Event): App
    requires Enabled(a, e)
  {
    match e
    case ChooseProject(project) =>
      a.(navigation := a.navigation + 1, resume := None, project := project, session := None, task := None,
        pending := None)
    case Renew => a.(navigation := a.navigation + 1, resume := None, session := None, task := None, pending := None)
    case OpenHistory(key) => a.(navigation := a.navigation + 1, resume := None, session := Some(key), task := None)
    case OpenTask(task) => a.(navigation := a.navigation + 1, session := None, task := Some(task))
    case ToggleResume =>
      a.(resume := if a.resume.Some? && a.resume != Some("") then None else a.session, pending := None)
    case SelectAccount(account) => a.(account := account, pending := None)
    case Send(_, _, _, _, _) =>
      if !e.known || a.account == "" then a else Posted(a, Chosen(a, Wanted(a, e)))
    case Answered(post, result) =>
      var call, rest := a.posts[post], a.(posts := a.posts - {post});
      if a.pending != Some(call.command) then rest
      else if result.None? then rest.(error := a.error || a.navigation == call.from)
      else if a.navigation != call.from then rest.(pending := None)
      else rest.(pending := None, resume := None, session := None, task := result, error := false)
  }

  // ---- An identity binds one content ----

  ghost predicate Inv(a: App) {
    && (a.pending.Some? ==> a.pending.value in a.posted)
    && (forall command :: command in a.posted ==> command.id < a.drawn)
    && (forall x, y :: x in a.posted && y in a.posted && x.id == y.id ==> x == y)
    && (forall command :: command in a.posted ==>
          command.content.resume != Some("") && command.content.thinking != Some(""))
    && (forall post :: post in a.posts ==>
         post < a.drawn && a.posts[post].command in a.posted && a.posts[post].from <= a.navigation)
  }

  lemma StepKeeps(a: App, e: Event)
    requires Inv(a) && Enabled(a, e)
    ensures Inv(Step(a, e)) && a.posted <= Step(a, e).posted
  {
    if e.Send? && e.known && a.account != "" {
      PostKeeps(a, Chosen(a, Wanted(a, e)));
    } else if !e.Send? {
      QuietKeeps(a, Step(a, e));
    }
  }

  lemma QuietKeeps(a: App, next: App)
    requires Inv(a) && next.posted == a.posted && next.drawn == a.drawn && a.navigation <= next.navigation
    requires next.pending in {None, a.pending}
    requires forall post :: post in next.posts ==> post in a.posts && next.posts[post] == a.posts[post]
    ensures Inv(next)
  {
  }

  lemma PostKeeps(a: App, command: Command)
    requires Inv(a) && (command in a.posted || command.id == a.drawn)
    requires command.content.resume != Some("") && command.content.thinking != Some("")
    ensures Inv(Posted(a, command))
  {
  }

  ghost predicate IsRun(states: seq<App>, events: seq<Event>) {
    && |states| == |events| + 1 && states[0] == Start
    && forall i {:trigger events[i]} :: 0 <= i < |events| ==>
         Enabled(states[i], events[i]) && states[i + 1] == Step(states[i], events[i])
  }

  lemma {:induction false} Reachable(states: seq<App>, events: seq<Event>, k: nat)
    requires IsRun(states, events) && k < |states|
    ensures Inv(states[k])
  {
    if k > 0 {
      Reachable(states, events, k - 1);
      StepKeeps(states[k - 1], events[k - 1]);
    }
  }

  lemma {:induction false} PostedGrows(states: seq<App>, events: seq<Event>, i: nat, k: nat)
    requires IsRun(states, events) && i <= k < |states|
    ensures states[i].posted <= states[k].posted
  {
    if i < k {
      PostedGrows(states, events, i, k - 1);
      Reachable(states, events, k - 1);
      StepKeeps(states[k - 1], events[k - 1]);
    }
  }

  /** No two commands ever posted in a run share an identity and differ in content. */
  lemma {:induction false} IdentityBindsContent(states: seq<App>, events: seq<Event>, i: nat, k: nat, x: Command,
      y: Command)
    requires IsRun(states, events) && i <= k < |states| && x in states[i].posted && y in states[k].posted
    requires x.id == y.id
    ensures x.content == y.content
  {
    PostedGrows(states, events, i, k);
    Reachable(states, events, k);
  }

  /** Sending again what is still unanswered posts the same identity, and any difference posts a new one. */
  lemma RetryKeepsIdentity(a: App, e: Event)
    requires Inv(a) && Enabled(a, e) && e.Send? && e.known && a.account != ""
    ensures var next := Step(a, e).pending.value;
            if a.pending.Some? && a.pending.value.content == Wanted(a, e) then next == a.pending.value
            else next.id == a.drawn && forall command :: command in a.posted ==> command.id != next.id
  {
  }

  /** What a send posts: exactly what was asked for, in the project and under the account chosen, resuming the open
      session if and only if it is armed. Without a known project or an account it posts nothing. */
  lemma SendPostsWhatWasAsked(a: App, e: Event)
    requires Inv(a) && e.Send?
    ensures var next := Step(a, e);
            if !e.known || a.account == "" then next == a
            else
              && next.pending.Some?
              && next.posts == a.posts[a.drawn + 1 := Post(next.pending.value, a.navigation)]
              && next.navigation == a.navigation && next.session == a.session && next.resume == a.resume
              && var content := next.pending.value.content;
                 && content.model == e.model && content.prompt == e.prompt && content.mode == e.mode
                 && content.project == a.project && content.account == a.account
                 && content.thinking == (if e.thinking == Some("") then None else e.thinking)
                 && content.resume == if a.resume == a.session && a.session != Some("") then a.session else None
  {
  }

  /** A failed answer keeps the command for a retry and reports an error exactly if it still is the remembered one and
      nothing was navigated. */
  lemma FailureKeepsCommand(a: App, post: nat)
    requires Inv(a) && post in a.posts
    ensures var next, call := Step(a, Answered(post, None)), a.posts[post];
            && next.pending == a.pending && next.posts == a.posts - {post} && next.task == a.task
            && next.session == a.session
            && next.error == (a.error || (a.pending == Some(call.command) && a.navigation == call.from))
  {
  }

  /** A task answer forgets the remembered command, so that the same content later is a new request. */
  lemma SuccessForgetsCommand(a: App, post: nat, task: nat)
    requires Inv(a) && post in a.posts && a.pending == Some(a.posts[post].command)
    ensures Step(a, Answered(post, Some(task))).pending.None?
  {
  }

  /** Every navigation counts and gives up the arm, except that opening a task only leaves the session. */
  lemma NavigationCounts(a: App, e: Event)
    requires e.ChooseProject? || e.Renew? || e.OpenHistory? || e.OpenTask?
    ensures var next := Step(a, e);
            && next.navigation == a.navigation + 1
            && (!e.OpenTask? ==> next.resume.None? && next.task.None?)
            && next.session == (if e.OpenHistory? then Some(e.key) else None)
            && (e.OpenTask? ==> next.task == Some(e.task) && next.resume == a.resume)
            && next.project == (if e.ChooseProject? then e.project else a.project)
            && (e.ChooseProject? || e.Renew? ==> next.pending.None?)
  {
  }

  /** The switch arms the open session, or disarms; choosing an account keeps the session. Both forget the remembered
      command. */
  lemma SwitchesForget(a: App, e: Event)
    requires Inv(a) && Enabled(a, e) && (e.ToggleResume? || e.SelectAccount?)
    ensures var next := Step(a, e);
            && next.pending.None? && next.session == a.session && next.navigation == a.navigation
            && (e.ToggleResume? ==> next.resume == (if a.resume.Some? && a.resume.value != "" then None else a.session))
            && (e.SelectAccount? ==> next.account == e.account && next.resume == a.resume)
  {
  }

  // ---- Late answers ----

  /** An answer to a command that is no longer the remembered one changes nothing the user sees. */
  lemma LateAnswerInert(a: App, post: nat, task: Option<nat>)
    requires post in a.posts && a.pending != Some(a.posts[post].command)
    ensures Step(a, Answered(post, task)) == a.(posts := a.posts - {post})
  {
  }

  /** An answer moves the view exactly when it is a task, its command is still remembered and the user has not navigated
      since it was posted. */
  lemma AnswerMovesOwnView(a: App, post: nat, task: nat)
    requires Inv(a) && post in a.posts
    ensures var next, call := Step(a, Answered(post, Some(task))), a.posts[post];
            && next.navigation == a.navigation && next.project == a.project
            && (a.pending == Some(call.command) && a.navigation == call.from ==>
                 next.task == Some(task) && next.session.None? && next.resume.None? && !next.error)
            && (!(a.pending == Some(call.command) && a.navigation == call.from) ==>
                  next.task == a.task && next.session == a.session && next.resume == a.resume && next.error == a.error)
  {
  }

  // ---- Resuming needs consent ----

  ghost predicate Armed(a: App, key: string) { a.session == Some(key) && a.resume == Some(key) }

  /** Whenever a session is open and armed, the user armed it there, and it has been open without any navigation
      since. */
  lemma {:induction false} ArmedByToggle(states: seq<App>, events: seq<Event>, k: nat, key: string) returns (j: nat)
    requires IsRun(states, events) && k < |states| && Armed(states[k], key)
    ensures j < k && events[j] == ToggleResume && states[j].session == Some(key)
    ensures forall i :: j < i <= k ==> Armed(states[i], key) && states[i].navigation == states[j].navigation
  {
    var before, e := states[k - 1], events[k - 1];
    if e.ToggleResume? && before.resume != Some(key) {
      j := k - 1;
    } else {
      assert Armed(before, key) && before.navigation == states[k].navigation;
      j := ArmedByToggle(states, events, k - 1, key);
    }
  }

  /** Every posted command that resumes a session, first or repeated, follows an explicit arming of that session, with
      the session open and no navigation in between. */
  lemma ResumeNeedsConsent(states: seq<App>, events: seq<Event>, k: nat, key: string) returns (j: nat)
    requires IsRun(states, events) && k < |events| && events[k].Send? && events[k].known && states[k].account != ""
    requires states[k + 1].pending.value.content.resume == Some(key)
    ensures j < k && events[j] == ToggleResume && states[j].session == Some(key)
    ensures forall i :: j < i <= k ==> states[i].session == Some(key) && states[i].navigation == states[j].navigation
  {
    j := ArmedByToggle(states, events, k, key);
  }

  /** The component. */
  class AppComponent {
    var project: string
    var account: string
    var session: Option<string>
    var resume: Option<string>
    var task: Option<nat>
    var pending: Option<Command>
    var navigation: nat
    var posts: map<nat, Post>
    ghost var posted: set<Command>
    var error: bool
    var drawn: nat

    ghost function View(): App
      reads this
    {
      App(project, account, session, resume, task, pending, navigation, posts, posted, error, drawn)
    }

    constructor ()
      ensures View() == Start
    {
      project, account, session, resume, task := "", "", None, None, None;
      pending, navigation, posts, posted, error, drawn := None, 0, map[], {}, false, 0;
    }

    method Submit(model: string, prompt: string, mode: string, thinking: Option<string>, known: bool)
      modifies this`pending, this`posts, this`posted, this`drawn
      ensures View() == Step(old(View()), Send(model, prompt, mode, thinking, known))
    {
      if !known || account == "" { return; }
      var resumeKey := if session == resume then resume else None;
      var command;
      if pending.Some? && pending.value.content == Content(model, prompt, mode, project, account, resumeKey, thinking) {
        command := pending.value;
      } else {
        command := Command(drawn,
          Content(model, prompt, mode, project, account, Carried(resumeKey), Carried(thinking)));
      }
      pending, posts := Some(command), posts[drawn + 1 := Post(command, navigation)];
      posted, drawn := posted + {command}, drawn + 2;
    }

    method Settle(post: nat, result: Option<nat>)
      requires post in posts
      modifies this
      ensures View() == Step(old(View()), Answered(post, result))
    {
      var call := posts[post];
      posts := posts - {post};
      if result.None? {
        if pending == Some(call.command) && navigation == call.from { error := true; }
      } else if pending == Some(call.command) {
        pending := None;
        if navigation == call.from {
          resume, session, task, error := None, None, result, false;
        }
      }
    }

    /** Whatever happens next, the component takes its step and keeps the invariant. */
    method Handle(e: Event)
      requires Inv(View()) && Enabled(View(), e)
      modifies this
      ensures View() == Step(old(View()), e) && Inv(View())
    {
      StepKeeps(View(), e);
      match e {
        case ChooseProject(chosen) =>
          navigation, resume, project, session, task, pending := navigation + 1, None, chosen, None, None, None;
        case Renew => navigation, resume, session, task, pending := navigation + 1, None, None, None, None;
        case OpenHistory(key) => navigation, resume, session, task := navigation + 1, None, Some(key), None;
        case OpenTask(shown) => navigation, session, task := navigation + 1, None, Some(shown);
        case ToggleResume =>
          resume, pending := if resume.Some? && resume != Some("") then None else session, None;
        case SelectAccount(selected) => account, pending := selected, None;
        case Send(model, prompt, mode, thinking, known) => Submit(model, prompt, mode, thinking, known);
        case Answered(post, result) => Settle(post, result);
      }
    }
  }
}
