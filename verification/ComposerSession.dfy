/** The composer on top of task submission: `send` of prototypes/src/native/Conversation.tsx awaits `send` of
    webui/src/shared/useNativeSession.ts, and `acknowledged` flows back. */
module ComposerSession {
  import opened Options
  import opened Text
  import C = Composer
  import T = TaskSubmission

  /** The call of the composer that is under way, and the POST it awaits. */
  datatype Link = Link(call: nat, post: nat)

  /** The request posted for the last submission of the composer. */
  datatype Request = Request(id: T.Uuid, sent: C.Sent)

  /** `request` is history. */
  datatype Joint = Joint(draft: C.Draft, session: T.State, awaited: Option<Link>, request: Option<Request>)

  /** `Edit` is anything in the composer that task submission has no part in, `Session` anything in the session that
      does not answer a POST. */
  datatype Move =
    | Edit(event: C.Event)
    | Submit(content: T.Content)
    | Session(change: T.Event)
    | Reply(post: nat, outcome: T.Outcome)

  predicate MaySubmit(d: C.Draft) { !d.busy && !d.composing && !Blank(d.text) }

  /** The composer is disabled whenever the guard of the session's `send` would throw, so what it submits is posted. */
  predicate CanMove(j: Joint, m: Move) {
    match m
    case Edit(e) => !e.Submit? && !e.Accepted? && !e.Rejected? && !e.Acknowledge?
    case Submit(content) =>
      MaySubmit(j.draft) && T.Enabled(j.session, T.Send(content)) && content.prompt == j.draft.text
    case Session(e) => !e.Send? && !e.PostReply? && T.Enabled(j.session, e)
    case Reply(post, outcome) => T.Enabled(j.session, T.PostReply(post, outcome))
  }

  /** A navigation or a reload mounts a new composer. */
  predicate Remounts(m: Move) { m.Session? && (m.change.Navigate? || m.change.Reload?) }

  /** The session moves to `next`, and the composer is rendered with it: its effect runs if `acknowledged` is new. */
  function Rendered(j: Joint, next: T.State): Joint {
    var ack := next.page.acknowledged;
    if ack.None? || ack == j.session.page.acknowledged then j.(session := next)
    else j.(session := next, draft := C.Step(j.draft, C.Acknowledge(ack.value.prompt)))
  }

  /** The end of the composer's own call, if the answer is for its POST. */
  function Told(j: Joint, post: nat, outcome: T.Outcome): Joint {
    if j.awaited.None? || j.awaited.value.post != post || j.awaited.value.call !in j.draft.calls then j
    else
      var call := j.awaited.value.call;
      j.(draft := C.Step(j.draft, if outcome.Started? then C.Accepted(call) else C.Rejected(call)), awaited := None)
  }

  function After(j: Joint, m: Move): Joint
    requires CanMove(j, m)
  {
    var d, s := j.draft, j.session;
    match m
    case Edit(e) => j.(draft := C.Step(d, e))
    case Submit(content) =>
      Joint(C.Step(d, C.Submit), T.Step(s, T.Send(content)), Some(Link(d.drawn, s.drawn + 1)),
            Some(Request(s.drawn, C.Sent(d.text, d.revision))))
    case Session(e) => if Remounts(m) then Joint(C.Empty, T.Step(s, e), None, None) else Rendered(j, T.Step(s, e))
    case Reply(post, outcome) => Rendered(Told(j, post, outcome), T.Step(s, T.PostReply(post, outcome)))
  }

  // ---- The invariant ----

  /** The last submission's request was posted with its text, and while a request is pending it is that one. */
  ghost predicate Requested(draft: C.Draft, s: T.State, request: Option<Request>) {
    && (draft.submitted.Some? ==> request.Some? && request.value.sent == draft.submitted.value)
    && (request.Some? ==>
          && request.value.id in s.history.posted
          && s.history.posted[request.value.id].prompt == request.value.sent.text
          && (s.page.pending.Some? ==> s.page.pending.value.requestId == request.value.id))
  }

  /** The call under way made that submission, and awaits a POST of that request. */
  ghost predicate Awaited(draft: C.Draft, s: T.State, request: Option<Request>, link: Link) {
    && link.post < s.drawn
    && (link.call in draft.calls ==>
          && request.Some? && draft.calls[link.call] == request.value.sent
          && (link.post in s.page.posts ==> s.page.posts[link.post].command.requestId == request.value.id))
  }

  ghost predicate Numbered(d: C.Draft) { forall call :: call in d.calls ==> call < d.drawn }

  ghost predicate Inv(j: Joint) {
    && C.Inv(j.draft) && T.Inv(j.session) && Numbered(j.draft)
    && Requested(j.draft, j.session, j.request)
    && (j.awaited.Some? ==> Awaited(j.draft, j.session, j.request, j.awaited.value))
  }

  /** A step of the session that sends nothing new keeps what was posted, its numbers, and the pending request or
      none. */
  lemma SessionFrame(s: T.State, e: T.Event)
    requires T.Inv(s) && T.Enabled(s, e) && !e.Send?
    ensures var next := T.Step(s, e);
            && s.drawn <= next.drawn && next.history.posted == s.history.posted
            && next.page.pending in {None, s.page.pending}
            && (forall i :: i < s.drawn && i in next.page.posts ==>
                 i in s.page.posts && next.page.posts[i] == s.page.posts[i])
  {
    match e {
      case Retry => T.DispatchAdds(s, s.page.pending.value);
      case PostReply(_, _) => T.ReplyKeepsPosts(s, e);
      case LookupReply(_, _) => T.ReplyKeepsPosts(s, e);
      case _ =>
    }
  }

  /** The new POST of a `send` has the next number; its request is then the pending one. */
  lemma SendPosts(s: T.State, content: T.Content)
    requires T.Inv(s) && T.Enabled(s, T.Send(content))
    ensures var next := T.Step(s, T.Send(content));
            && s.drawn + 1 < next.drawn && s.drawn + 1 in next.page.posts
            && next.page.posts[s.drawn + 1].command.requestId == s.drawn
            && next.page.pending == Some(T.Submission(s.drawn, content))
            && s.drawn in next.history.posted && next.history.posted[s.drawn] == content
  {
    assert s.page.sending.None?;
    assert s.drawn !in s.history.posted;
  }

  /** An event of the composer keeps the calls it had, under their numbers. */
  lemma CallsStay(d: C.Draft, e: C.Event)
    requires C.Enabled(d, e) && Numbered(d)
    ensures var next := C.Step(d, e);
            && Numbered(next)
            && (forall call :: call in next.calls && call < d.drawn ==>
                 call in d.calls && next.calls[call] == d.calls[call])
  {
  }

  lemma DraftKeeps(j: Joint, e: C.Event)
    requires Inv(j) && C.Enabled(j.draft, e) && !e.Submit?
    ensures Inv(j.(draft := C.Step(j.draft, e)))
  {
    C.StepKeeps(j.draft, e);
    CallsStay(j.draft, e);
    assert C.Step(j.draft, e).submitted in {None, j.draft.submitted};
  }

  lemma SessionKeeps(j: Joint, e: T.Event)
    requires Inv(j) && T.Enabled(j.session, e) && !e.Send?
    ensures Inv(j.(session := T.Step(j.session, e)))
  {
    T.StepKeeps(j.session, e);
    SessionFrame(j.session, e);
  }

  lemma RenderKeeps(j: Joint, e: T.Event)
    requires Inv(j) && T.Enabled(j.session, e) && !e.Send?
    ensures Inv(Rendered(j, T.Step(j.session, e)))
  {
    SessionKeeps(j, e);
    var ack := T.Step(j.session, e).page.acknowledged;
    if ack.Some? {
      DraftKeeps(j.(session := T.Step(j.session, e)), C.Acknowledge(ack.value.prompt));
    }
  }

  lemma ToldKeeps(j: Joint, post: nat, outcome: T.Outcome)
    requires Inv(j)
    ensures Inv(Told(j, post, outcome)) && Told(j, post, outcome).session == j.session
  {
    if j.awaited.Some? && j.awaited.value.call in j.draft.calls {
      var call := j.awaited.value.call;
      DraftKeeps(j, if outcome.Started? then C.Accepted(call) else C.Rejected(call));
    }
  }

  lemma SubmitKeeps(j: Joint, content: T.Content)
    requires Inv(j) && CanMove(j, Submit(content))
    ensures Inv(After(j, Submit(content)))
  {
    var next := After(j, Submit(content));
    assert C.Inv(next.draft) && Numbered(next.draft) by {
      C.StepKeeps(j.draft, C.Submit);
      CallsStay(j.draft, C.Submit);
    }
    assert T.Inv(next.session) by { T.StepKeeps(j.session, T.Send(content)); }
    SendPosts(j.session, content);
  }

  lemma MoveKeeps(j: Joint, m: Move)
    requires Inv(j) && CanMove(j, m)
    ensures Inv(After(j, m))
  {
    match m {
      case Edit(e) => DraftKeeps(j, e);
      case Submit(content) => SubmitKeeps(j, content);
      case Session(e) =>
        if Remounts(m) {
          T.StepKeeps(j.session, e);
        } else {
          RenderKeeps(j, e);
        }
      case Reply(post, outcome) =>
        ToldKeeps(j, post, outcome);
        RenderKeeps(Told(j, post, outcome), T.PostReply(post, outcome));
    }
  }

  // ---- A cleared prompt is that of its own request's task ----

  /** The Host has a task for the request of the composer's last submission, which was of exactly this text at this
      revision. */
  ghost predicate OwnTask(j: Joint, host: T.Host) {
    && j.request.Some? && j.request.value.sent == C.Sent(j.draft.text, j.draft.revision)
    && j.request.value.id in host.tasks && host.tasks[j.request.value.id].prompt == j.draft.text
  }

  /** The composer takes the queue's confirmation of the very input it queued from this text. */
  ghost predicate QueueConfirms(j: Joint, m: Move) {
    m.Edit? && m.event.Confirm? && C.Answers(j.draft, m.event, C.Sent(j.draft.text, j.draft.revision))
  }

  lemma AcceptAcknowledges(s: T.State, task: T.HostTask, call: T.Call)
    ensures var after := T.Accept(s, task, call).page.acknowledged;
            after == s.page.acknowledged || (after.Some? && T.Holds(s.page, after.value.requestId))
  {
  }

  /** A new acknowledgement comes with an answer, and is of the pending request. */
  lemma AcknowledgesPending(s: T.State, e: T.Event)
    requires T.Enabled(s, e)
    requires T.Step(s, e).page.acknowledged.Some? && T.Step(s, e).page.acknowledged != s.page.acknowledged
    ensures T.IsReply(e) && T.Holds(s.page, T.Step(s, e).page.acknowledged.value.requestId)
  {
    match e {
      case PostReply(id, outcome) =>
        if outcome.Started? {
          AcceptAcknowledges(s.(page := s.page.(posts := s.page.posts - {id})), outcome.task, s.page.posts[id]);
        }
      case LookupReply(id, outcome) =>
        if outcome.Started? {
          AcceptAcknowledges(s.(page := s.page.(lookups := s.page.lookups - {id})), outcome.task, s.page.lookups[id]);
        }
      case _ =>
    }
  }

  /** So the Host has a task for it, as it had before the answer. */
  lemma AcknowledgedHasTask(s: T.State, e: T.Event)
    requires T.Inv(s) && T.Enabled(s, e)
    requires T.Step(s, e).page.acknowledged.Some? && T.Step(s, e).page.acknowledged != s.page.acknowledged
    ensures var id := T.Step(s, e).page.acknowledged.value.requestId; T.Holds(s.page, id) && id in s.host.tasks
  {
    AcknowledgesPending(s, e);
    assert T.Step(s, e).host == s.host;
    assert T.AckInv(T.Step(s, e)) by { T.StepKeeps(s, e); }
  }

  lemma TaskPrompt(j: Joint)
    requires Inv(j) && j.request.Some? && j.request.value.id in j.session.host.tasks
    ensures j.session.host.tasks[j.request.value.id].prompt == j.request.value.sent.text
  {
  }

  lemma EffectHasOwnTask(j: Joint, e: T.Event)
    requires Inv(j) && T.Enabled(j.session, e) && !e.Send? && !Blank(j.draft.text)
    requires !(j.draft.text <= Rendered(j, T.Step(j.session, e)).draft.text)
    ensures OwnTask(j, j.session.host)
  {
    AcknowledgedHasTask(j.session, e);
    C.ProgramTouchesDraft(j.draft, C.Acknowledge(T.Step(j.session, e).page.acknowledged.value.prompt));
    TaskPrompt(j);
  }

  lemma AnswerHasOwnTask(j: Joint, post: nat, outcome: T.Outcome)
    requires Inv(j) && CanMove(j, Reply(post, outcome)) && !Blank(j.draft.text)
    requires !(j.draft.text <= Told(j, post, outcome).draft.text)
    ensures OwnTask(j, j.session.host)
  {
    var call := j.awaited.value.call;
    C.ProgramTouchesDraft(j.draft, if outcome.Started? then C.Accepted(call) else C.Rejected(call));
    TaskPrompt(j);
  }

  /** The program clears a draft only on the confirmation of the queued input taken from it, or when the Host has
      the task of the very request that was posted for this text at this revision. */
  lemma ClearedHasTask(j: Joint, m: Move)
    requires Inv(j) && CanMove(j, m) && !Remounts(m) && !(m.Edit? && m.event.Type?)
    requires !Blank(j.draft.text) && !(j.draft.text <= After(j, m).draft.text)
    ensures OwnTask(j, j.session.host) || QueueConfirms(j, m)
  {
    match m {
      case Edit(e) => C.ProgramTouchesDraft(j.draft, e);
      case Submit(_) =>
      case Session(e) => EffectHasOwnTask(j, e);
      case Reply(post, outcome) =>
        var told := Told(j, post, outcome);
        if j.draft.text <= told.draft.text {
          ToldKeepsText(j, post, outcome);
          ToldKeeps(j, post, outcome);
          EffectHasOwnTask(told, T.PostReply(post, outcome));
        } else {
          AnswerHasOwnTask(j, post, outcome);
        }
    }
  }

  /** The end of a call changes the text by clearing it, if at all. */
  lemma ToldKeepsText(j: Joint, post: nat, outcome: T.Outcome)
    requires Inv(j) && !Blank(j.draft.text) && j.draft.text <= Told(j, post, outcome).draft.text
    ensures var told := Told(j, post, outcome);
            told.draft.text == j.draft.text && told.draft.revision == j.draft.revision && told.request == j.request
  {
  }

  // ---- What the moves must do ----

  /** The session takes its own step in every move that concerns it, and no other. */
  lemma SessionSteps(j: Joint, m: Move)
    requires Inv(j) && CanMove(j, m)
    ensures After(j, m).session ==
              match m
              case Edit(_) => j.session
              case Submit(content) => T.Step(j.session, T.Send(content))
              case Session(e) => T.Step(j.session, e)
              case Reply(post, outcome) => T.Step(j.session, T.PostReply(post, outcome))
  {
    if m.Reply? {
      ToldKeeps(j, m.post, m.outcome);
    }
  }

  /** The composer takes its own step in an edit, and a fresh one is mounted by a navigation or reload. */
  lemma ComposerSteps(j: Joint, m: Move)
    requires Inv(j) && CanMove(j, m)
    ensures m.Edit? ==> After(j, m) == j.(draft := C.Step(j.draft, m.event))
    ensures Remounts(m) ==> After(j, m).draft == C.Empty && After(j, m).awaited.None?
    ensures m.Submit? ==> After(j, m).draft == C.Step(j.draft, C.Submit) && After(j, m).draft.text == j.draft.text
  {
  }

  /** A task answer that the session accepts in its own view clears the submitted draft if it is unchanged, whether
      it comes by the POST or by a lookup. */
  lemma AcceptedClears(j: Joint, e: T.Event)
    requires Inv(j) && (e.PostReply? || e.LookupReply?) && T.Enabled(j.session, e) && e.outcome.Started?
    requires T.Holds(j.session.page, T.ReplyCall(j.session, e).command.requestId)
    requires j.session.page.navigation == j.session.history.firstView[T.ReplyCall(j.session, e).command.requestId]
    requires j.session.page.acknowledged.None?
             || j.session.page.acknowledged.value.requestId != T.ReplyCall(j.session, e).command.requestId
    requires j.draft.submitted == Some(C.Sent(j.draft.text, j.draft.revision))
    ensures After(j, if e.PostReply? then Reply(e.id, e.outcome) else Session(e)).draft.text == ""
  {
    var next, id := T.Step(j.session, e), T.ReplyCall(j.session, e).command.requestId;
    assert j.request.Some? && j.request.value.id == id && j.session.history.posted[id].prompt == j.draft.text;
    assert next.page.acknowledged == Some(T.Acknowledged(j.draft.text, id)) by {
      T.TaskAnswerSelectsExactly(j.session, e);
      assert T.Genuine(j.session.history, T.ReplyCall(j.session, e).command, T.ReplyCall(j.session, e).version);
    }
    if e.PostReply? {
      ToldClearsOrKeeps(j, e.id, e.outcome);
      RenderedClears(Told(j, e.id, e.outcome), next, id);
    } else {
      RenderedClears(j, next, id);
    }
  }

  lemma RenderedClears(j: Joint, next: T.State, id: T.Uuid)
    requires next.page.acknowledged.Some? && next.page.acknowledged != j.session.page.acknowledged
    requires j.draft.text == ""
             || (next.page.acknowledged.value.prompt == j.draft.text
                 && j.draft.submitted == Some(C.Sent(j.draft.text, j.draft.revision)))
    ensures Rendered(j, next).draft.text == ""
  {
  }

  lemma ToldClearsOrKeeps(j: Joint, post: nat, outcome: T.Outcome)
    ensures var told := Told(j, post, outcome);
            && told.session == j.session && told.draft.submitted == j.draft.submitted
            && told.draft.revision == j.draft.revision
            && told.draft.text in {"", j.draft.text}
  {
  }

  /** The end of a call frees the composer, and its link is forgotten. */
  lemma CallEnds(j: Joint, post: nat, outcome: T.Outcome)
    requires Inv(j) && CanMove(j, Reply(post, outcome))
    requires j.awaited.Some? && j.awaited.value.post == post && j.awaited.value.call in j.draft.calls
    ensures var next := After(j, Reply(post, outcome));
            !next.draft.busy && j.awaited.value.call !in next.draft.calls && next.awaited.None?
  {
    var told, next := Told(j, post, outcome), T.Step(j.session, T.PostReply(post, outcome));
    assert !told.draft.busy && j.awaited.value.call !in told.draft.calls && told.awaited.None?;
    var ended := Rendered(told, next);
    assert ended.draft.busy == told.draft.busy && ended.draft.calls == told.draft.calls
      && ended.awaited == told.awaited;
  }

  // ---- Runs ----

  ghost predicate IsRun(states: seq<Joint>, moves: seq<Move>) {
    && |states| == |moves| + 1 && states[0] == Joint(C.Empty, T.Start, None, None)
    && forall i {:trigger moves[i]} :: 0 <= i < |moves| ==>
         CanMove(states[i], moves[i]) && states[i + 1] == After(states[i], moves[i])
  }

  lemma {:induction false} ReachableJoint(states: seq<Joint>, moves: seq<Move>, k: nat)
    requires IsRun(states, moves) && k < |states|
    ensures Inv(states[k])
  {
    if k > 0 {
      ReachableJoint(states, moves, k - 1);
      MoveKeeps(states[k - 1], moves[k - 1]);
    }
  }

  /** The submission at `b` handed over `sent` and posted it under the identity `id`. */
  ghost predicate Posts(j: Joint, m: Move, request: Request) {
    && m.Submit? && m.content.prompt == request.sent.text
    && request == Request(j.session.drawn, C.Sent(j.draft.text, j.draft.revision))
  }

  lemma {:induction false} RequestSource(states: seq<Joint>, moves: seq<Move>, k: nat) returns (b: nat)
    requires IsRun(states, moves) && k < |states| && states[k].request.Some?
    ensures b < k && Posts(states[b], moves[b], states[k].request.value)
  {
    if moves[k - 1].Submit? {
      b := k - 1;
    } else {
      b := RequestSource(states, moves, k - 1);
    }
  }

  /** The Host's task for what `b` posted answers the text in the composer at `n`. */
  ghost predicate TaskFor(states: seq<Joint>, moves: seq<Move>, b: nat, n: nat)
    requires |states| == |moves| + 1
  {
    && b < n < |moves|
    && var request := Request(states[b].session.drawn, C.Sent(states[n].draft.text, states[n].draft.revision));
       && Posts(states[b], moves[b], request)
       && request.id in states[n].session.host.tasks
       && states[n].session.host.tasks[request.id].prompt == states[n].draft.text
  }

  /** In every run of composer, session, network and Host: a draft that is not typed over, in a composer that stays
      mounted, still begins the text; or a text that began with it was cleared when the Host had the task of the request
      that an earlier submission posted for this very text and revision, or when the queue confirmed it. */
  lemma {:induction false} PromptNeverLost(states: seq<Joint>, moves: seq<Move>, i: nat, k: nat)
      returns (b: nat, n: nat)
    requires IsRun(states, moves) && i <= k < |states| && !Blank(states[i].draft.text)
    requires forall m {:trigger moves[m]} :: i <= m < k ==>
               !Remounts(moves[m]) && !(moves[m].Edit? && moves[m].event.Type?)
    ensures !(states[i].draft.text <= states[k].draft.text) ==>
              && i <= n < k && states[i].draft.text <= states[n].draft.text
              && (TaskFor(states, moves, b, n) || QueueConfirms(states[n], moves[n]))
    decreases k
  {
    b, n := 0, 0;
    if i < k {
      b, n := PromptNeverLost(states, moves, i, k - 1);
      if states[i].draft.text <= states[k - 1].draft.text && !(states[i].draft.text <= states[k].draft.text) {
        n := k - 1;
        ReachableJoint(states, moves, n);
        C.BlankPrefix(states[i].draft.text, states[n].draft.text);
        ClearedHasTask(states[n], moves[n]);
        if OwnTask(states[n], states[n].session.host) {
          b := RequestSource(states, moves, n);
        }
      }
    }
  }
}
