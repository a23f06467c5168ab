/** The submission part of `useNativeSession` itself: its refs, its React state and `sessionStorage` as
    mutable fields, one method per piece of code between two awaits. */
module SessionHook {
  import opened Options
  import opened TaskSubmission

  class UseNativeSession {
    var selection: Selection
    var armed: bool
    var navigation: Uuid
    var pending: Option<Submission>
    var pendingView: Uuid
    var sending: Option<Uuid>
    var notice: Notice
    var acknowledged: Option<Acknowledged>
    var posts: map<nat, Call>
    var lookups: map<nat, Call>
    var storage: Storage
    var drawn: nat
    ghost var host: Host
    ghost var history: History

    ghost function ThePage(): Page
      reads this
    {
      Page(selection, armed, navigation, pending, pendingView, sending, notice, acknowledged, posts, lookups)
    }

    ghost function View(): State
      reads this
    {
      State(ThePage(), storage, host, history, drawn)
    }

    constructor ()
      ensures View() == Start
    {
      selection, armed, navigation := Selection("", None, None), false, 0;
      pending, pendingView, sending := None, 0, None;
      notice, acknowledged, posts, lookups := Silent, None, map[], map[];
      storage, drawn := Storage(None, None, 0, Selection("", None, None)), 1;
      host, history := Host(map[], map[], multiset{}), History(map[], map[], {});
    }

    method Remember(command: Option<Submission>)
      modifies this`storage, this`pending
      ensures View() == TaskSubmission.Remember(old(View()), command)
    {
      storage := storage.(submission := command);
      pending := command;
    }

    /** The selection setters and the effect that stores what they set. */
    method Select(next: Selection)
      modifies this`selection, this`armed, this`storage
      ensures View() == TaskSubmission.Select(old(View()), next)
    {
      selection, armed := next, false;
      storage := storage.(selection := next, view := navigation);
    }

    method Accept(task: HostTask, call: Call)
      modifies this
      ensures View() == TaskSubmission.Accept(old(View()), task, call)
    {
      var id := call.command.requestId;
      if pending.None? || pending.value.requestId != id { return; }
      if sending == Some(id) { sending := None; }
      Remember(None);
      history := history.(settled := history.settled + {id});
      notice := Silent;
      if navigation == call.version {
        acknowledged := Some(Acknowledged(call.command.content.prompt, id));
        Select(Selection(task.projectId, Some(task.taskId), None));
      }
    }

    method Dispatch(command: Submission) returns (sent: bool)
      modifies this
      ensures View() == TaskSubmission.Dispatch(old(View()), command)
      ensures sent == old(sending.None?)
    {
      if sending.Some? { return false; }
      var id := command.requestId;
      if pending.None? || pending.value.requestId != id {
        pendingView, storage := navigation, storage.(owner := Some(navigation));
      }
      var version := pendingView;
      Remember(Some(command));
      Post(Call(command, version));
      sent := true;
    }

    /** Taking the sending lock and handing the request to the network. */
    method Post(call: Call)
      modifies this`sending, this`posts, this`host, this`history, this`drawn
      ensures var s, id := old(View()), call.command.requestId;
              View() == s.(page := s.page.(sending := Some(id), posts := s.page.posts[s.drawn := call]),
                           host := s.host.(waiting := s.host.waiting[s.drawn := call.command]),
                           history := if id in s.history.posted then s.history
                                      else s.history.(posted := s.history.posted[id := call.command.content],
                                                      firstView := s.history.firstView[id := call.version]),
                           drawn := s.drawn + 1)
    {
      var id := call.command.requestId;
      sending, posts := Some(id), posts[drawn := call];
      host := host.(waiting := host.waiting[drawn := call.command]);
      if id !in history.posted {
        history := history.(posted := history.posted[id := call.command.content],
          firstView := history.firstView[id := call.version]);
      }
      drawn := drawn + 1;
    }

    method Send(content: Content) returns (sent: bool)
      modifies this
      ensures View() ==
              if !MaySend(old(ThePage())) then old(View())
              else TaskSubmission.Dispatch(old(View()).(drawn := old(drawn) + 1), Submission(old(drawn), content))
    {
      if selection.taskId.Some? || pending.Some? || (selection.session.Some? && !armed) { return false; }
      var requestId := drawn;
      drawn := drawn + 1;
      sent := Dispatch(Submission(requestId, content));
    }

    method PostReply(id: nat, outcome: Outcome)
      requires id in posts
      modifies this
      ensures View() == PostReplied(old(View()), id, outcome)
    {
      var call := posts[id];
      posts := posts - {id};
      PostTold(call, outcome);
      if sending == Some(call.command.requestId) { sending := None; }
    }

    method PostTold(call: Call, outcome: Outcome)
      modifies this
      ensures View() == TaskSubmission.PostTold(old(View()), call, outcome)
    {
      var id := call.command.requestId;
      if outcome.Started? {
        Accept(outcome.task, call);
      } else if pending.Some? && pending.value.requestId == id {
        if outcome.Rejected? {
          if sending == Some(id) { sending := None; }
          Remember(None);
          history := history.(settled := history.settled + {id});
          notice := Silent;
        } else {
          notice := Unconfirmed;
        }
      }
    }

    method Lookup()
      modifies this`lookups, this`drawn
      ensures View() == if old(pending).Some? then Step(old(View()), TaskSubmission.Lookup) else old(View())
    {
      if pending.None? { return; }
      lookups, drawn := lookups[drawn := Call(pending.value, pendingView)], drawn + 1;
    }

    method LookupReply(id: nat, outcome: Outcome)
      requires id in lookups
      modifies this
      ensures View() == LookupReplied(old(View()), id, outcome)
    {
      var call := lookups[id];
      lookups := lookups - {id};
      match outcome
      case Started(task) => Accept(task, call);
      case Rejected => notice := NotFound;
      case Lost => notice := Unreachable;
    }

    method Navigate(next: Selection)
      modifies this
      ensures View() == Step(old(View()), TaskSubmission.Navigate(next))
    {
      navigation, drawn := drawn, drawn + 1;
      Select(next);
    }

    method Reload()
      modifies this
      ensures View() == Reloaded(old(View()))
    {
      Forget();
      selection, navigation, pending := storage.selection, storage.view, storage.submission;
      pendingView := if storage.owner.Some? then storage.owner.value else storage.view;
    }

    /** What a closed page does not store. */
    method Forget()
      modifies this`armed, this`sending, this`notice, this`acknowledged, this`posts, this`lookups
      ensures View() == old(View()).(page := old(ThePage()).(armed := false, sending := None, notice := Silent,
                                                             acknowledged := None, posts := map[], lookups := map[]))
    {
      armed, sending, notice, acknowledged := false, None, Silent, None;
      posts, lookups := map[], map[];
    }

    /** Whatever happens next, here or at the Host, the hook takes the protocol's step and keeps its invariant. */
    method Handle(e: Event)
      requires Inv(View()) && Enabled(View(), e)
      modifies this
      ensures View() == Step(old(View()), e) && Inv(View())
    {
      StepKeeps(View(), e);
      match e {
        case Send(content) => var _ := Send(content);
        case Retry => var _ := Dispatch(pending.value);
        case PostReply(id, outcome) => PostReply(id, outcome);
        case Lookup => Lookup();
        case LookupReply(id, outcome) => LookupReply(id, outcome);
        case Navigate(next) => Navigate(next);
        case Arm => armed := true;
        case ShowHistory(session) => Select(Selection(selection.projectId, None, Some(session)));
        case Reload => Reload();
        case Serve(id) => host := Served(host, id);
        case Refuse(id) => host := host.(waiting := host.waiting - {id});
      }
    }
  }
}
