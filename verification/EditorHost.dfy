/** The editor against the Host's files and its conditional save (packages/host/manual-workspaces.mjs): other
    programs write the files, requests and answers get lost, and a save whose answer was lost may still be
    carried out. */
module EditorHost {
  import opened Options
  import opened Editor

  /** A request with the baseline and the draft its file had when it was sent. */
  datatype Sent = Sent(op: Op, base: string, draft: string)

  /** `saving` is the save between its first check and the rename. */
  datatype Host = Host(disk: map<string, string>, manual: Option<nat>, drawn: nat, saving: Option<nat>)

  /** `sent` remembers every request made. */
  datatype System = System(page: Workspace, host: Host, inbox: map<nat, Op>, outbox: map<nat, Answer>,
                           sent: map<nat, Sent>)

  datatype Move =
    | User(event: Event)
    | Serve(id: nat)
    | Refuse(id: nat)
    | Finish(fails: bool)
    | Deliver(id: nat)
    | Break
    | External(path: string, text: Option<string>)

  /** A freshly mounted workspace, on a Host with any files and perhaps a manual mode that is already held. */
  ghost predicate Initial(s: System) {
    && s.page == Workspace(NoFiles, None, None, None, true, 0) && s.host.saving.None?
    && s.inbox == map[] && s.outbox == map[] && s.sent == map[]
  }

  predicate CanMove(s: System, m: Move) {
    match m
    case User(event) =>
      && Enabled(s.page, event)
      && (event.Adopt? && event.manual.Some? ==> event.manual.value < s.host.drawn)
    case Serve(id) => id in s.inbox
    case Refuse(id) => id in s.inbox
    case Finish(_) => s.host.saving.Some? && s.host.saving.value in s.sent && s.sent[s.host.saving.value].op.Saving?
    case Deliver(id) => id in s.outbox
    case Break => s.page.call.Some?
    case External(_, _) => true
  }

  function Respond(s: System, id: nat, host: Host, answer: Answer): System {
    s.(host := host, inbox := s.inbox - {id}, outbox := s.outbox[id := answer])
  }

  predicate Matches(host: Host, path: string, version: Version) {
    path in host.disk && Sha256(host.disk[path]) == version
  }

  /** What the Host does with a request: an answer, or a save begun. */
  datatype Outcome = Outcome(host: Host, answer: Option<Answer>)

  function Read(h: Host, path: string): Outcome {
    Outcome(h, Some(if path in h.disk then FileData(h.disk[path], Sha256(h.disk[path])) else Failed))
  }

  function Left(h: Host, manual: nat): Outcome {
    if h.manual != Some(manual) || h.saving.Some? then Outcome(h, Some(Failed))
    else Outcome(h.(manual := None), Some(Done))
  }

  function Work(h: Host, id: nat, op: Op): (o: Outcome)
    ensures o.answer.Some? ==> Fits(op, o.answer.value) && o.host.saving == h.saving
    ensures o.answer.None? ==> h.saving.None? && o.host.saving == Some(id) && o.host.manual == h.manual
    ensures o.host.disk == h.disk
    ensures op.Opening? || op.Reloading? ==>
              && o.host == h
              && (op.path in h.disk ==> o.answer == Some(FileData(h.disk[op.path], Sha256(h.disk[op.path]))))
              && (op.path !in h.disk ==> o.answer == Some(Failed))
    ensures op.Entering? ==>
              && o.host.manual.Some? && o.answer == Some(Held(o.host.manual.value))
              && (h.manual.Some? ==> o.host == h)
              && (h.manual.None? ==> o.host.manual == Some(h.drawn) && h.drawn < o.host.drawn)
    ensures op.Leaving? || op.Quitting? ==>
              if h.manual == Some(op.manual) && h.saving.None? then o.host.manual.None? && o.answer == Some(Done)
              else o.host == h && o.answer == Some(Failed)
    ensures op.Saving? ==>
              (o.answer.None? <==> h.manual == Some(op.manual) && h.saving.None?
                                   && op.path in h.disk && Sha256(h.disk[op.path]) == op.version)
  {
    match op
    case Opening(path) => Read(h, path)
    case Reloading(path) => Read(h, path)
    case Entering =>
      if h.manual.Some? then Outcome(h, Some(Held(h.manual.value)))
      else Outcome(h.(manual := Some(h.drawn), drawn := h.drawn + 1), Some(Held(h.drawn)))
    case Leaving(manual) => Left(h, manual)
    case Quitting(manual) => Left(h, manual)
    case Saving(path, manual, version, text) =>
      if h.manual != Some(manual) || h.saving.Some? || !Matches(h, path, version) then Outcome(h, Some(Failed))
      else Outcome(h.(saving := Some(id)), None)
  }

  function Served(s: System, id: nat): System
    requires id in s.inbox
  {
    var o := Work(s.host, id, s.inbox[id]);
    if o.answer.Some? then Respond(s, id, o.host, o.answer.value) else s.(host := o.host, inbox := s.inbox - {id})
  }

  /** The second half of `save`: the version is checked again before the rename. */
  function Finished(s: System, fails: bool): System
    requires CanMove(s, Finish(fails))
  {
    var id := s.host.saving.value;
    var op, h := s.sent[id].op, s.host.(saving := None);
    if fails || !Matches(h, op.path, op.version) then Respond(s, id, h, Failed)
    else Respond(s, id, h.(disk := h.disk[op.path := op.text]), SavedAs(Sha256(op.text)))
  }

  function Draft(page: Workspace, op: Op): string {
    if op.Saving? && op.path in page.files.byPath then page.files.byPath[op.path].text else ""
  }

  function Base(page: Workspace, op: Op): string {
    if op.Saving? && op.path in page.files.byPath then page.files.byPath[op.path].baseline else ""
  }

  /** The page moves to `page`; a new identity there is a new request. */
  function Posted(s: System, page: Workspace): System {
    if page.call.None? || page.nextId == s.page.nextId then s.(page := page)
    else
      var call := page.call.value;
      s.(page := page, inbox := s.inbox[call.id := call.op],
        sent := s.sent[call.id := Sent(call.op, Base(s.page, call.op), Draft(s.page, call.op))])
  }

  function After(s: System, m: Move): System
    requires CanMove(s, m)
  {
    match m
    case User(event) => Posted(s, Step(s.page, event))
    case Serve(id) => Served(s, id)
    case Refuse(id) => Respond(s, id, s.host, Failed)
    case Finish(fails) => Finished(s, fails)
    case Deliver(id) => s.(page := Settle(s.page, id, s.outbox[id]), outbox := s.outbox - {id})
    case Break => s.(page := Settle(s.page, s.page.call.value.id, Failed))
    case External(path, text) =>
      s.(host := s.host.(disk := if text.Some? then s.host.disk[path := text.value] else s.host.disk - {path}))
  }

  // ---- The invariant ----

  ghost predicate SentInv(sent: map<nat, Sent>, bound: nat) {
    forall id :: id in sent ==>
      && id < bound
      && (sent[id].op.Saving? ==> sent[id].op.version == Sha256(sent[id].base) && sent[id].op.text == sent[id].draft)
  }

  ghost predicate NetInv(s: System) {
    && (s.page.call.Some? ==> s.page.call.value.id in s.sent && s.sent[s.page.call.value.id].op == s.page.call.value.op)
    && (forall id :: id in s.inbox ==> id in s.sent && s.sent[id].op == s.inbox[id])
    && (forall id :: id in s.outbox ==> id in s.sent && Fits(s.sent[id].op, s.outbox[id]))
    && (s.host.saving.Some? ==> s.host.saving.value in s.sent && s.sent[s.host.saving.value].op.Saving?)
  }

  ghost predicate SysInv(s: System) {
    Inv(s.page) && SentInv(s.sent, s.page.nextId) && NetInv(s)
  }

  /** Every request the page makes takes the next identity; a save carries the version of its baseline. */
  lemma UserSends(page: Workspace, e: Event)
    requires Inv(page) && Enabled(page, e)
    ensures var next := Step(page, e);
            && page.nextId <= next.nextId
            && (next.nextId == page.nextId ==> next.call == page.call)
            && (next.nextId != page.nextId ==>
                  next.call.Some? && next.call.value.id == page.nextId
                  && (next.call.value.op.Saving? ==>
                        && e.Save? && page.manual == Some(next.call.value.op.manual)
                        && next.call.value.op.path == page.files.active
                        && next.call.value.op.version == Sha256(Base(page, next.call.value.op))
                        && next.call.value.op.text == Draft(page, next.call.value.op)))
  {
  }

  lemma UserKeeps(s: System, e: Event)
    requires SysInv(s) && CanMove(s, User(e))
    ensures SysInv(After(s, User(e)))
  {
    StepKeeps(s.page, e);
    UserSends(s.page, e);
    PostKeeps(s, Step(s.page, e));
  }

  lemma PostKeeps(s: System, page: Workspace)
    requires SysInv(s) && Inv(page) && s.page.nextId <= page.nextId
    requires page.nextId == s.page.nextId ==> page.call == s.page.call
    requires page.nextId != s.page.nextId ==> page.call.Some? && page.call.value.id == s.page.nextId
    requires page.nextId != s.page.nextId && page.call.value.op.Saving? ==>
               && page.call.value.op.version == Sha256(Base(s.page, page.call.value.op))
               && page.call.value.op.text == Draft(s.page, page.call.value.op)
    ensures SysInv(Posted(s, page))
  {
  }

  lemma RespondKeeps(s: System, id: nat, host: Host, answer: Answer)
    requires SysInv(s) && id in s.sent && Fits(s.sent[id].op, answer) && host.saving in {None, s.host.saving}
    ensures SysInv(Respond(s, id, host, answer))
  {
  }

  lemma ServeKeeps(s: System, id: nat)
    requires SysInv(s) && id in s.inbox
    ensures SysInv(Served(s, id))
  {
    var o := Work(s.host, id, s.inbox[id]);
    if o.answer.Some? {
      RespondKeeps(s, id, o.host, o.answer.value);
    }
  }

  lemma FinishKeeps(s: System, fails: bool)
    requires SysInv(s) && CanMove(s, Finish(fails))
    ensures SysInv(Finished(s, fails))
  {
    var id, next := s.host.saving.value, Finished(s, fails);
    RespondKeeps(s, id, next.host, next.outbox[id]);
  }

  lemma MoveKeeps(s: System, m: Move)
    requires SysInv(s) && CanMove(s, m)
    ensures SysInv(After(s, m))
  {
    match m {
      case User(event) => UserKeeps(s, event);
      case Serve(id) => ServeKeeps(s, id);
      case Refuse(id) => RespondKeeps(s, id, s.host, Failed);
      case Finish(fails) => FinishKeeps(s, fails);
      case Deliver(id) => SettleKeeps(s.page, id, s.outbox[id]);
      case Break => SettleKeeps(s.page, s.page.call.value.id, Failed);
      case External(_, _) =>
    }
  }

  ghost predicate IsRun(states: seq<System>, moves: seq<Move>) {
    && |states| == |moves| + 1 && Initial(states[0])
    && forall i {:trigger moves[i]} :: 0 <= i < |moves| ==>
         CanMove(states[i], moves[i]) && states[i + 1] == After(states[i], moves[i])
  }

  lemma {:induction false} Reachable(states: seq<System>, moves: seq<Move>, k: nat)
    requires IsRun(states, moves) && k < |states|
    ensures SysInv(states[k])
  {
    if k > 0 {
      Reachable(states, moves, k - 1);
      MoveKeeps(states[k - 1], moves[k - 1]);
    }
  }

  /** Over every run, every open file agrees with its baseline and its Host version, at most twelve are open and the
      active path is open or empty. */
  lemma EditorAgreement(states: seq<System>, moves: seq<Move>, k: nat)
    requires IsRun(states, moves) && k < |states|
    ensures var f := states[k].page.files;
            && |f.byPath| <= TAB_LIMIT && (f.active == "" || f.active in f.byPath)
            && forall path :: path in f.byPath ==>
                 && (f.byPath[path].dirty <==> f.byPath[path].text != f.byPath[path].baseline)
                 && f.byPath[path].original == f.byPath[path].baseline
                 && f.byPath[path].version == Sha256(f.byPath[path].baseline)
  {
    Reachable(states, moves, k);
    var f := states[k].page.files;
    KeysCounted(f.order, f.byPath.Keys);
  }

  lemma {:induction false} KeysCounted(order: seq<string>, keys: set<string>)
    requires forall p :: p in keys ==> p in order
    ensures |keys| <= |order|
  {
    if order == [] {
      assert keys == {};
    } else {
      KeysCounted(order[1..], keys - {order[0]});
    }
  }

  // ---- Drafts over runs ----

  /** The workspace holds `text` for `path`, unsaved. */
  ghost predicate Holds(page: Workspace, path: string, text: string) {
    path in page.files.byPath && page.files.byPath[path].dirty && page.files.byPath[path].text == text
  }

  /** The answer on its way ends the operation the page is waiting for. */
  predicate Ends(s: System, m: Move, op: Op) {
    m.Deliver? && m.id in s.outbox && s.page.call == Some(Call(m.id, op))
  }

  /** The user takes the draft himself: he types over it, confirms giving it up or leaves the page. */
  ghost predicate UserTakes(s: System, m: Move, path: string, text: string) {
    && m.User?
    && (m.event.Unmount? || Consents(s.page, m.event, path)
        || (m.event.Type? && s.page.files.active == path && m.event.text != text))
  }

  /** An answer takes the draft: a reload of its file brings another text, or a quit ends. */
  ghost predicate AnswerTakes(s: System, m: Move, path: string, text: string) {
    || (Ends(s, m, Reloading(path)) && s.outbox[m.id].FileData? && s.outbox[m.id].text != text)
    || (s.page.call.Some? && s.page.call.value.op.Quitting? && Ends(s, m, s.page.call.value.op) && s.outbox[m.id].Done?)
  }

  ghost predicate Takes(s: System, m: Move, path: string, text: string) {
    UserTakes(s, m, path, text) || AnswerTakes(s, m, path, text)
  }

  /** The user confirms the question whether `op` may discard the draft at `path`. */
  predicate Allows(page: Workspace, e: Event, op: Op, path: string) {
    && e.Confirm?
    && ((op == Reloading(path) && page.asking == Some(AskReload(path)))
        || (op.Quitting? && page.asking == Some(AskQuit)))
  }

  /** The move shows that the file on disk has exactly this text: a save of it is answered, or a reload brings it. */
  ghost predicate Stores(s: System, m: Move, path: string, text: string) {
    || (Ends(s, m, Reloading(path)) && s.outbox[m.id] == FileData(text, Sha256(text)))
    || (s.page.call.Some? && s.page.call.value.op.Saving? && s.page.call.value.op.path == path
        && s.page.call.value.op.text == text && Ends(s, m, s.page.call.value.op) && s.outbox[m.id].SavedAs?)
  }

  lemma UserKeepsDraft(page: Workspace, e: Event, path: string, text: string)
    requires Inv(page) && Enabled(page, e) && Holds(page, path, text)
    requires !e.Unmount? && !Consents(page, e, path) && !(e.Type? && page.files.active == path && e.text != text)
    ensures Holds(Step(page, e), path, text)
  {
    DraftNeedsConsent(page, e, path);
    StepKeeps(page, e);
    BaselineStays(page, e, path);
  }

  /** No user event moves a baseline. */
  lemma BaselineStays(page: Workspace, e: Event, path: string)
    requires Inv(page) && Enabled(page, e) && path in page.files.byPath && path in Step(page, e).files.byPath
    ensures Step(page, e).files.byPath[path].baseline == page.files.byPath[path].baseline
  {
  }

  lemma {:induction false} AnswerKeepsHolding(page: Workspace, id: nat, answer: Answer, path: string, text: string)
    requires Inv(page) && Holds(page, path, text) && page.call.Some? && page.call.value.id == id
    requires Fits(page.call.value.op, answer)
    requires !(page.call.value.op == Reloading(path) && answer.FileData?)
    requires !(page.call.value.op.Quitting? && answer.Done?)
    requires page.call.value.op.Saving? && page.call.value.op.path == path && answer.SavedAs? ==>
               page.call.value.op.text != text
    ensures Holds(Settle(page, id, answer), path, text)
  {
  }

  lemma MoveKeepsDraft(s: System, m: Move, path: string, text: string)
    requires SysInv(s) && CanMove(s, m) && Holds(s.page, path, text) && !Takes(s, m, path, text)
    requires !Stores(s, m, path, text)
    ensures Holds(After(s, m).page, path, text)
  {
    match m {
      case User(event) => UserKeepsDraft(s.page, event, path, text);
      case Deliver(id) =>
        if s.page.call.Some? && s.page.call.value.id == id {
          assert Ends(s, m, s.page.call.value.op);
          AnswerKeepsHolding(s.page, id, s.outbox[id], path, text);
        }
      case Break => AnswerKeepsHolding(s.page, s.page.call.value.id, Failed, path, text);
      case _ =>
    }
  }

  // ---- What allowed an answer to take a draft ----

  /** The event at `b` began the operation that is under way at `n`. */
  ghost predicate BeganAt(states: seq<System>, moves: seq<Move>, b: nat, n: nat)
    requires |states| == |moves| + 1
  {
    && b < n < |states| && moves[b].User? && states[b].page.call.None? && states[n].page.call.Some?
    && forall m {:trigger states[m]} :: b < m <= n ==> states[m].page.call == states[n].page.call
  }

  lemma CallSource(s: System, m: Move)
    requires SysInv(s) && CanMove(s, m) && After(s, m).page.call.Some?
    ensures After(s, m).page.call == s.page.call || (m.User? && s.page.call.None?)
  {
  }

  lemma {:induction false} OperationBegan(states: seq<System>, moves: seq<Move>, n: nat) returns (b: nat)
    requires IsRun(states, moves) && n < |states| && states[n].page.call.Some?
    ensures BeganAt(states, moves, b, n)
  {
    Reachable(states, moves, n - 1);
    CallSource(states[n - 1], moves[n - 1]);
    if states[n].page.call == states[n - 1].page.call {
      b := OperationBegan(states, moves, n - 1);
    } else {
      b := n - 1;
    }
  }

  /** A reload or quit that begins without its question leaves no unsaved draft it could take. */
  lemma BeginsCleanOrAllowed(page: Workspace, e: Event, path: string, text: string)
    requires Inv(page) && Enabled(page, e) && page.call.None? && Step(page, e).call.Some?
    requires Step(page, e).call.value.op == Reloading(path) || Step(page, e).call.value.op.Quitting?
    ensures Allows(page, e, Step(page, e).call.value.op, path) || !Holds(Step(page, e), path, text)
  {
    TabsShowDirty(page.files);
  }

  /** While an operation is under way, a draft comes about only by typing it. */
  lemma DraftTyped(s: System, m: Move, path: string, text: string)
    requires SysInv(s) && CanMove(s, m) && !Holds(s.page, path, text) && Holds(After(s, m).page, path, text)
    requires s.page.call.Some? && After(s, m).page.call == s.page.call
    ensures m == User(Type(text)) && s.page.files.active == path
  {
    match m {
      case User(event) => BusyDraftTyped(s.page, event, path, text);
      case _ =>
    }
  }

  lemma BusyDraftTyped(page: Workspace, e: Event, path: string, text: string)
    requires Inv(page) && Enabled(page, e) && page.call.Some? && !Holds(page, path, text)
    requires Holds(Step(page, e), path, text)
    ensures e == Type(text) && page.files.active == path
  {
  }

  lemma {:induction false} TypedSince(states: seq<System>, moves: seq<Move>, b: nat, n: nat, path: string, text: string)
      returns (t: nat)
    requires IsRun(states, moves) && BeganAt(states, moves, b, n)
    requires !Holds(states[b + 1].page, path, text) && Holds(states[n].page, path, text)
    ensures b < t < n && moves[t] == User(Type(text)) && states[t].page.files.active == path
    decreases n
  {
    assert states[n - 1].page.call == states[n].page.call;
    if Holds(states[n - 1].page, path, text) {
      t := TypedSince(states, moves, b, n - 1, path, text);
    } else {
      t := n - 1;
      Reachable(states, moves, t);
      DraftTyped(states[t], moves[t], path, text);
    }
  }

  /** The reload or quit under way at `n` began with its question confirmed, or the draft was typed after it began. */
  ghost predicate Licensed(states: seq<System>, moves: seq<Move>, n: nat, path: string, text: string)
    requires |states| == |moves| + 1
  {
    exists b: nat :: BeganAt(states, moves, b, n)
      && (Allows(states[b].page, moves[b].event, states[n].page.call.value.op, path)
          || exists t :: b < t < n && moves[t] == User(Type(text)) && states[t].page.files.active == path)
  }

  /** A reload or quit takes only a draft typed after it began, or one the user agreed to give up when it began. */
  lemma {:induction false} AnswerTakesLicensed(
    states: seq<System>, moves: seq<Move>, n: nat, path: string, text: string
  )
    requires IsRun(states, moves) && n < |moves| && Holds(states[n].page, path, text)
    requires AnswerTakes(states[n], moves[n], path, text)
    ensures Licensed(states, moves, n, path, text)
  {
    var b := OperationBegan(states, moves, n);
    Reachable(states, moves, b);
    assert states[b + 1].page.call == states[n].page.call && states[b + 1] == After(states[b], moves[b]);
    BeginsCleanOrAllowed(states[b].page, moves[b].event, path, text);
    if !Holds(states[b + 1].page, path, text) {
      var t := TypedSince(states, moves, b, n, path, text);
    }
  }

  /** What ended a draft at `n`: the user himself, a reload or quit he had agreed to or typed into, or a disk that has
      exactly this text. */
  ghost predicate Ended(states: seq<System>, moves: seq<Move>, n: nat, path: string, text: string)
    requires |states| == |moves| + 1
  {
    && n < |moves| && Holds(states[n].page, path, text)
    && (UserTakes(states[n], moves[n], path, text) || Stores(states[n], moves[n], path, text)
        || (AnswerTakes(states[n], moves[n], path, text) && Licensed(states, moves, n, path, text)))
  }

  /** In every run, however requests and answers interleave: an unsaved draft at `i` is still there, unsaved, at `k`, or
      between the two the user gave it up, a reload or quit took it that he had agreed to or typed it into, or the disk
      was shown to have exactly this text. */
  lemma {:induction false} DraftsNeverLost(states: seq<System>, moves: seq<Move>, i: nat, k: nat, path: string,
      text: string)
    requires IsRun(states, moves) && i <= k < |states| && Holds(states[i].page, path, text)
    ensures Holds(states[k].page, path, text) || exists n :: i <= n < k && Ended(states, moves, n, path, text)
    decreases k
  {
    if i < k {
      DraftsNeverLost(states, moves, i, k - 1, path, text);
      var s, m := states[k - 1], moves[k - 1];
      if Holds(s.page, path, text) {
        if AnswerTakes(s, m, path, text) {
          AnswerTakesLicensed(states, moves, k - 1, path, text);
          assert Ended(states, moves, k - 1, path, text);
        } else if UserTakes(s, m, path, text) || Stores(s, m, path, text) {
          assert Ended(states, moves, k - 1, path, text);
        } else {
          Reachable(states, moves, k - 1);
          MoveKeepsDraft(s, m, path, text);
        }
      }
    }
  }

  // ---- What a save does to the disk ----

  /** The user's save at `b` sent the draft that the active file then had, in place of the baseline it then had. */
  ghost predicate SavedAt(page: Workspace, m: Move, path: string, base: string, draft: string) {
    && m == User(Save) && page.files.active == path && path in page.files.byPath
    && page.files.byPath[path].baseline == base && page.files.byPath[path].text == draft
    && page.files.byPath[path].dirty
  }

  /** A step makes at most one request, and a save request only for the user's save. */
  lemma NewRequest(s: System, m: Move, id: nat)
    requires SysInv(s) && CanMove(s, m) && id in After(s, m).sent
    ensures (id in s.sent && After(s, m).sent[id] == s.sent[id])
         || (m.User? && (After(s, m).sent[id].op.Saving? ==>
               SavedAt(s.page, m, After(s, m).sent[id].op.path, After(s, m).sent[id].base, After(s, m).sent[id].draft)))
  {
    match m {
      case User(event) => UserSends(s.page, event);
      case _ =>
    }
  }

  lemma {:induction false} SaveWasAsked(states: seq<System>, moves: seq<Move>, k: nat, id: nat) returns (b: nat)
    requires IsRun(states, moves) && k < |states| && id in states[k].sent && states[k].sent[id].op.Saving?
    ensures b < k
    ensures var save := states[k].sent[id]; SavedAt(states[b].page, moves[b], save.op.path, save.base, save.draft)
  {
    Reachable(states, moves, k - 1);
    NewRequest(states[k - 1], moves[k - 1], id);
    if id in states[k - 1].sent && states[k].sent[id] == states[k - 1].sent[id] {
      b := SaveWasAsked(states, moves, k - 1, id);
    } else {
      b := k - 1;
    }
  }

  /** In every run a file changes on disk only by other programs, or by a save that the user asked for at an earlier
      index: it replaces exactly the baseline the file had then by exactly the draft it had then. So no save of this
      editor ever overwrites a text its user had not been shown. */
  lemma NoLostUpdate(states: seq<System>, moves: seq<Move>, k: nat, path: string) returns (b: nat)
    requires IsRun(states, moves) && k < |moves| && !moves[k].External? && path in states[k].host.disk
    ensures var before, after := states[k].host.disk, states[k + 1].host.disk;
            && path in after
            && (after[path] != before[path] ==>
                 b < k && SavedAt(states[b].page, moves[b], path, before[path], after[path]))
  {
    b := 0;
    Reachable(states, moves, k);
    var s := states[k];
    if moves[k].Finish? {
      var id := s.host.saving.value;
      assert id in s.sent && s.sent[id].op.Saving?;
      assert After(s, moves[k]) == Finished(s, moves[k].fails);
      b := SaveWasAsked(states, moves, k, id);
    }
  }

  /** A save that nothing disturbs: the Host takes the request, finishes it and answers, and then the disk holds the
      user's text and the file is clean. */
  lemma SaveCompletes(s: System, path: string)
    requires SysInv(s) && s.page.mounted && s.page.asking.None? && s.page.call.None?
    requires s.page.files.active == path && path in s.page.files.byPath && s.page.files.byPath[path].dirty
    requires s.page.manual.Some? && s.host.manual == s.page.manual && s.host.saving.None?
    requires path in s.host.disk && s.host.disk[path] == s.page.files.byPath[path].baseline
    ensures var id, draft := s.page.nextId, s.page.files.byPath[path].text;
            && CanMove(s, User(Save))
            && var sent := After(s, User(Save));
               CanMove(sent, Serve(id))
               && var begun := After(sent, Serve(id));
                  CanMove(begun, Finish(false))
                  && var done := After(begun, Finish(false));
                     done.host.disk == s.host.disk[path := draft] && CanMove(done, Deliver(id))
                     && var told := After(done, Deliver(id));
                        && told.host.disk[path] == draft && told.page.call.None?
                        && path in told.page.files.byPath && told.page.files.byPath[path].text == draft
                        && !told.page.files.byPath[path].dirty
  {
    var id, file := s.page.nextId, s.page.files.byPath[path];
    SaveSends(s.page);
    var sent := After(s, User(Save));
    var op := Saving(path, s.page.manual.value, Sha256(file.baseline), file.text);
    assert sent.page.call == Some(Call(id, op)) && sent.inbox[id] == op && sent.sent[id].op == op;
    var begun := After(sent, Serve(id));
    assert begun.host.saving == Some(id) && begun.host.disk == s.host.disk;
    var done := After(begun, Finish(false));
    assert done.outbox[id] == SavedAs(Sha256(file.text));
    UserKeeps(s, Save);
    SavedShows(sent.page, id, path, s.page.manual.value, Sha256(file.baseline), file.text);
  }

  /** The page takes its own step in the user's moves and on its answers, and no other. */
  lemma PageSteps(s: System, m: Move)
    requires SysInv(s) && CanMove(s, m)
    ensures After(s, m).page ==
              match m
              case User(event) => Step(s.page, event)
              case Deliver(id) => Settle(s.page, id, s.outbox[id])
              case Break => Settle(s.page, s.page.call.value.id, Failed)
              case _ => s.page
  {
  }

  /** A request is served at most once, an answer delivered at most once, and a refused or finished save is answered. */
  lemma ServedOnce(s: System, id: nat)
    requires SysInv(s)
    ensures id in s.inbox ==> id !in After(s, Serve(id)).inbox && id !in After(s, Refuse(id)).inbox
    ensures id in s.inbox ==>
              After(s, Refuse(id)).outbox == s.outbox[id := Failed] && After(s, Refuse(id)).host == s.host
    ensures id in s.outbox ==> After(s, Deliver(id)).outbox == s.outbox - {id}
    ensures s.host.saving == Some(id) ==>
              && After(s, Finish(true)).host == s.host.(saving := None)
              && After(s, Finish(true)).outbox == s.outbox[id := Failed]
              && After(s, Finish(false)).host.saving.None? && id in After(s, Finish(false)).outbox
  {
  }

  /** Another program's write is seen, and a broken request only frees the page. */
  lemma OutsideMoves(s: System, path: string, text: Option<string>)
    ensures var disk := After(s, External(path, text)).host.disk;
            disk == if text.Some? then s.host.disk[path := text.value] else s.host.disk - {path}
    ensures s.page.call.Some? ==>
              After(s, Break).page == Settle(s.page, s.page.call.value.id, Failed) && After(s, Break).host == s.host
  {
  }

  /** A save whose file has changed on disk is refused and changes nothing there. */
  lemma SaveConflicts(s: System, id: nat)
    requires SysInv(s) && id in s.inbox && s.inbox[id].Saving?
    requires s.inbox[id].path !in s.host.disk || s.host.disk[s.inbox[id].path] != s.sent[id].base
    ensures After(s, Serve(id)).host == s.host && After(s, Serve(id)).outbox == s.outbox[id := Failed]
  {
  }
}
