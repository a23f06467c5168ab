/** The live Host view of one page (webui/src/shared/useHost.ts): socket messages, task fetches and
    selection changes arbitrate over one displayed task by a generation counter. */
module HostView {
  import opened Options
  import opened Replica

  /** A `GET task` in flight. `viaSnapshot` tells which of the two call sites issued it. */
  datatype Fetch = Fetch(taskId: string, version: nat, viaSnapshot: bool)

  datatype InputsEvent = InputsEvent(protocol: nat, epoch: string, number: nat)

  datatype Message = HostMessage(event: Replica.Event) | DirtyMessage(dirty: InputsEvent)

  datatype View = View(
    disposed: bool, selected: Option<string>, generation: nat, task: Option<Task>,
    fetches: map<nat, Fetch>, nextFetch: nat,
    current: Option<Snapshot>, socket: Option<nat>, nextSocket: nat, closing: bool,
    inputSeq: Option<nat>, inputRevision: nat)

  const Mounted: View := View(false, None, 0, None, map[], 0, None, None, 0, false, None, 0)

  datatype Event =
    | Open
    | Receive(socket: nat, message: Message)
    | Closed(socket: nat)
    | Select(taskId: Option<string>)
    | Reply(id: nat, result: Option<Task>)
    | Dispose

  function Issue(v: View, taskId: string, viaSnapshot: bool): View {
    v.(fetches := v.fetches[v.nextFetch := Fetch(taskId, v.generation, viaSnapshot)], nextFetch := v.nextFetch + 1)
  }

  /** An exception in the message handler closes the socket; its messages are then ignored. */
  function Fail(v: View): View { v.(closing := true) }

  function ReceiveDirty(v: View, dirty: InputsEvent): View {
    if v.current.None? || dirty.protocol != 1 || dirty.epoch != v.current.value.epoch || dirty.number < 1 then Fail(v)
    else if v.inputSeq.Some? && dirty.number <= v.inputSeq.value then v
    else v.(inputSeq := Some(dirty.number), inputRevision := v.inputRevision + 1)
  }

  function ReceiveSnapshot(v: View): View {
    var bumped := v.(inputSeq := None, inputRevision := v.inputRevision + 1, generation := v.generation + 1);
    if v.selected.Some? then Issue(bumped, v.selected.value, true) else bumped
  }

  function ReceiveHost(v: View, event: Replica.Event): View {
    var outcome := ApplyEvent(v.current, event);
    if outcome.Raised? then Fail(v)
    else if event.ChangeEvent? && v.current.Some? && event.number <= v.current.value.number then v
    else
      var next := v.(current := outcome.state);
      match event
      case SnapshotEvent(_, _) => ReceiveSnapshot(next)
      case ChangeEvent(_, _, change) =>
        if change.TaskChange? && Some(change.task.taskId) == v.selected then
          next.(generation := v.generation + 1, task := Some(change.task))
        else next
  }

  function Step(v: View, e: Event): View
    requires Enabled(v, e)
  {
    match e
    case Open => v.(socket := Some(v.nextSocket), nextSocket := v.nextSocket + 1, closing := false)
    case Receive(socket, message) =>
      if v.disposed || v.socket != Some(socket) || v.closing then v
      else if message.HostMessage? then ReceiveHost(v, message.event)
      else ReceiveDirty(v, message.dirty)
    case Closed(socket) =>
      if v.disposed || v.socket != Some(socket) then v else v.(socket := None, generation := v.generation + 1)
    case Select(taskId) =>
      var cleared := v.(selected := taskId, generation := v.generation + 1, task := None);
      if taskId.Some? then Issue(cleared, taskId.value, false) else cleared
    case Reply(id, result) =>
      var fetch := v.fetches[id];
      var live := fetch.version == v.generation
               && (if fetch.viaSnapshot then !v.disposed && v.selected == Some(fetch.taskId) else true);
      v.(fetches := v.fetches - {id}, task := if live && result.Some? then result else v.task)
    case Dispose => v.(disposed := true)
  }

  predicate Enabled(v: View, e: Event) {
    match e
    case Open => !v.disposed && v.socket.None?
    case Receive(_, _) => true
    case Closed(_) => true
    case Select(taskId) => !v.disposed && taskId != v.selected
    case Reply(id, result) => id in v.fetches && (result.Some? ==> result.value.taskId == v.fetches[id].taskId)
    case Dispose => !v.disposed
  }

  /** Every step after which no earlier fetch may be shown: a new snapshot, a live event for the selected
      task, the loss of the socket, another selection. */
  predicate Overtakes(v: View, e: Event) {
    match e
    case Select(_) => true
    case Closed(socket) => !v.disposed && v.socket == Some(socket)
    case Receive(socket, HostMessage(event)) =>
      && !v.disposed && v.socket == Some(socket) && !v.closing && ApplyEvent(v.current, event).Next?
      && (match event
          case SnapshotEvent(_, _) => true
          case ChangeEvent(_, number, change) =>
            number > v.current.value.number && change.TaskChange? && Some(change.task.taskId) == v.selected)
    case _ => false
  }

  ghost predicate Inv(v: View) {
    && (forall id :: id in v.fetches ==>
          && id < v.nextFetch && v.fetches[id].version <= v.generation
          && (v.fetches[id].version == v.generation ==> v.selected == Some(v.fetches[id].taskId)))
    && (v.task.Some? ==> v.selected == Some(v.task.value.taskId))
  }

  ghost predicate Dead(v: View, id: nat) { id in v.fetches ==> v.fetches[id].version < v.generation }

  lemma StepKeeps(v: View, e: Event)
    requires Inv(v) && Enabled(v, e)
    ensures Inv(Step(v, e))
    ensures v.generation <= Step(v, e).generation <= v.generation + 1
    ensures Step(v, e).generation == v.generation + 1 <==> Overtakes(v, e)
    ensures forall id :: id in Step(v, e).fetches && id < v.nextFetch ==>
              id in v.fetches && Step(v, e).fetches[id] == v.fetches[id]
    ensures v.nextFetch <= Step(v, e).nextFetch
  {
    match e {
      case Receive(_, HostMessage(event)) => ReceiveHostKeeps(v, event);
      case _ =>
    }
  }

  lemma ReceiveHostKeeps(v: View, event: Replica.Event)
    requires Inv(v)
    ensures var next := ReceiveHost(v, event);
            && Inv(next) && v.generation <= next.generation <= v.generation + 1 && v.nextFetch <= next.nextFetch
            && forall id :: id in next.fetches && id < v.nextFetch ==>
                 id in v.fetches && next.fetches[id] == v.fetches[id]
  {
    match event
    case SnapshotEvent(_, _) =>
    case ChangeEvent(_, _, _) =>
  }

  /** The shown task changes only by a selection, a live event, or the answer to a fetch nothing has overtaken. */
  lemma ShownTaskSource(v: View, e: Event)
    requires Inv(v) && Enabled(v, e) && Step(v, e).task != v.task
    ensures e.Select? || Overtakes(v, e) || (e.Reply? && !Dead(v, e.id) && Step(v, e).task == e.result)
  {
  }

  // ---- What the events must do ----

  /** The answer to a fetch is shown exactly when nothing has overtaken the fetch, it brought a task, and, for a
      fetch made on a snapshot, the hook is still mounted. */
  lemma ReplyShowsExactly(v: View, id: nat, result: Option<Task>)
    requires Inv(v) && Enabled(v, Reply(id, result))
    ensures var next := Step(v, Reply(id, result));
            && id !in next.fetches && next.generation == v.generation && next.selected == v.selected
            && var shows := v.fetches[id].version == v.generation && !(v.fetches[id].viaSnapshot && v.disposed);
               next.task == if shows && result.Some? then result else v.task
  {
  }

  /** A selection clears what is shown, and fetches the selected task if there is one. */
  lemma SelectFetches(v: View, taskId: Option<string>)
    requires Inv(v) && Enabled(v, Select(taskId))
    ensures var next := Step(v, Select(taskId));
            && next.selected == taskId && next.task.None? && next.current == v.current
            && (taskId.Some? ==>
                  && v.nextFetch in next.fetches && v.nextFetch !in v.fetches
                  && next.fetches[v.nextFetch] == Fetch(taskId.value, next.generation, false))
            && (taskId.None? ==> next.fetches == v.fetches)
  {
  }

  /** A snapshot of the supported protocol is taken over, hints are counted anew, and the selected task is fetched. */
  lemma SnapshotShows(v: View, state: Snapshot)
    requires Inv(v) && v.socket.Some? && !v.disposed && !v.closing
    ensures var next := Step(v, Receive(v.socket.value, HostMessage(SnapshotEvent(2, state))));
            && next.current == Some(state) && next.inputSeq.None? && next.inputRevision == v.inputRevision + 1
            && !next.closing
            && next.task == v.task
            && (v.selected.Some? ==>
                  && v.nextFetch in next.fetches
                  && next.fetches[v.nextFetch] == Fetch(v.selected.value, next.generation, true))
  {
  }

  /** The next event of the epoch is applied, and shown if it is about the selected task. A repeated one changes
      nothing, and any other closes the socket for good. */
  lemma ChangeShows(v: View, epoch: string, number: nat, change: Change)
    requires Inv(v) && v.socket.Some? && !v.disposed && !v.closing && v.current.Some?
    ensures var next := Step(v, Receive(v.socket.value, HostMessage(ChangeEvent(epoch, number, change))));
            var held := v.current.value;
            if epoch == held.epoch && number == held.number + 1 then
              && next.current.Some? && next.current.value.number == number && !next.closing
              && (change.TaskChange? && v.selected == Some(change.task.taskId) ==> next.task == Some(change.task))
              && (!(change.TaskChange? && v.selected == Some(change.task.taskId)) ==> next.task == v.task)
            else if epoch == held.epoch && number <= held.number then next == v
            else next == v.(closing := true)
  {
  }

  /** A closing socket and a replaced one deliver nothing; the loss of the socket is noticed. */
  lemma OldSocketsAreSilent(v: View, socket: nat, message: Message)
    requires v.disposed || v.socket != Some(socket) || v.closing
    ensures Step(v, Receive(socket, message)) == v
    ensures !v.disposed && v.socket == Some(socket) ==>
              Step(v, Closed(socket)).socket.None? && Step(v, Closed(socket)).generation == v.generation + 1
  {
  }

  // ---- Runs ----

  ghost predicate IsRun(states: seq<View>, events: seq<Event>) {
    && |states| == |events| + 1 && states[0] == Mounted
    && forall i {:trigger events[i]} :: 0 <= i < |events| ==>
         Enabled(states[i], events[i]) && states[i + 1] == Step(states[i], events[i])
  }

  /** The shown task is always the selected one. */
  lemma {:induction false} ShownIsSelected(states: seq<View>, events: seq<Event>, k: nat)
    requires IsRun(states, events) && k < |states|
    ensures Inv(states[k])
    ensures states[k].task.Some? ==> states[k].selected == Some(states[k].task.value.taskId)
  {
    if k > 0 {
      ShownIsSelected(states, events, k - 1);
      StepKeeps(states[k - 1], events[k - 1]);
    }
  }

  lemma DeadStays(v: View, e: Event, id: nat)
    requires Inv(v) && Enabled(v, e) && id < v.nextFetch && (Dead(v, id) || Overtakes(v, e))
    ensures Dead(Step(v, e), id) && id < Step(v, e).nextFetch
  {
    StepKeeps(v, e);
  }

  lemma {:induction false} OvertakenIsDead(states: seq<View>, events: seq<Event>, id: nat, i: nat, j: nat, k: nat)
    requires IsRun(states, events) && i <= j < k < |states| && id in states[i].fetches
    requires Overtakes(states[j], events[j])
    ensures Dead(states[k], id) && id < states[k].nextFetch
    decreases k
  {
    ShownIsSelected(states, events, k - 1);
    if k - 1 == j {
      FetchStays(states, events, id, i, j);
    } else {
      OvertakenIsDead(states, events, id, i, j, k - 1);
    }
    DeadStays(states[k - 1], events[k - 1], id);
  }

  lemma {:induction false} FetchStays(states: seq<View>, events: seq<Event>, id: nat, i: nat, j: nat)
    requires IsRun(states, events) && i <= j < |states| && id in states[i].fetches
    ensures id < states[j].nextFetch
    ensures id in states[j].fetches ==> states[j].fetches[id] == states[i].fetches[id]
    decreases j
  {
    ShownIsSelected(states, events, i);
    if i < j {
      FetchStays(states, events, id, i, j - 1);
      ShownIsSelected(states, events, j - 1);
      StepKeeps(states[j - 1], events[j - 1]);
    }
  }

  /** Over all interleavings: once a fetch in flight is overtaken, its answer, whenever it comes, shows nothing. */
  lemma {:induction false} OvertakenNeverShown(states: seq<View>, events: seq<Event>, id: nat, i: nat, j: nat, k: nat)
    requires IsRun(states, events) && i <= j < k < |events|
    requires id in states[i].fetches && Overtakes(states[j], events[j]) && events[k].Reply? && events[k].id == id
    ensures states[k + 1].task == states[k].task
  {
    OvertakenIsDead(states, events, id, i, j, k);
    assert Enabled(states[k], events[k]) && states[k + 1] == Step(states[k], events[k]);
  }

  // ---- Dirty hints ----

  /** A hint raises the input revision once, and only if it is newer than every hint since the last snapshot. */
  lemma HintCountsOnce(v: View, socket: nat, dirty: InputsEvent)
    requires Inv(v)
    ensures var next := Step(v, Receive(socket, DirtyMessage(dirty)));
            && (next.inputRevision == v.inputRevision
               || (next.inputRevision == v.inputRevision + 1 && next.inputSeq == Some(dirty.number)))
            && Step(next, Receive(socket, DirtyMessage(dirty))).inputRevision == next.inputRevision
            && (v.inputSeq.Some? ==> next.inputSeq.Some? && v.inputSeq.value <= next.inputSeq.value)
  {
  }

  /** A hint of the snapshot's epoch counts exactly if it is newer than the last one counted; a malformed or foreign one
      closes the socket. */
  lemma HintCountsExactly(v: View, dirty: InputsEvent)
    requires Inv(v) && v.socket.Some? && !v.disposed && !v.closing
    ensures var next := Step(v, Receive(v.socket.value, DirtyMessage(dirty)));
            if v.current.None? || dirty.protocol != 1 || dirty.epoch != v.current.value.epoch || dirty.number == 0 then
              next == v.(closing := true)
            else if v.inputSeq.Some? && dirty.number <= v.inputSeq.value then next == v
            else next == v.(inputSeq := Some(dirty.number), inputRevision := v.inputRevision + 1)
  {
  }

  /** A new socket is listened to under a number of its own, and a disposed hook hears nothing. */
  lemma SocketsOpenAndClose(v: View, socket: nat, message: Message)
    requires !v.disposed
    ensures v.socket.None? ==>
              var next := Step(v, Open);
              && next.socket == Some(v.nextSocket) && next.nextSocket > v.nextSocket && !next.closing
              && next.current == v.current && next.task == v.task
    ensures var gone := Step(v, Dispose); gone.disposed && Step(gone, Receive(socket, message)) == gone
  {
  }

  // ---- The hook ----

  class UseHost {
    var disposed: bool
    var selected: Option<string>
    var generation: nat
    var task: Option<Task>
    var fetches: map<nat, Fetch>
    var nextFetch: nat
    var current: Option<Snapshot>
    var socket: Option<nat>
    var nextSocket: nat
    var closing: bool
    var inputSeq: Option<nat>
    var inputRevision: nat

    ghost function Value(): View
      reads this
    {
      View(disposed, selected, generation, task, fetches, nextFetch, current, socket, nextSocket, closing, inputSeq,
        inputRevision)
    }

    constructor ()
      ensures Value() == Mounted
    {
      disposed, selected, generation, task, fetches, nextFetch := false, None, 0, None, map[], 0;
      current, socket, nextSocket, closing, inputSeq, inputRevision := None, None, 0, false, None, 0;
    }

    method StartFetch(taskId: string, viaSnapshot: bool)
      modifies this`fetches, this`nextFetch
      ensures Value() == Issue(old(Value()), taskId, viaSnapshot)
    {
      fetches, nextFetch := fetches[nextFetch := Fetch(taskId, generation, viaSnapshot)], nextFetch + 1;
    }

    method OnMessage(from: nat, message: Message)
      modifies this
      ensures Value() == Step(old(Value()), Receive(from, message))
    {
      if disposed || socket != Some(from) || closing { return; }
      match message
      case DirtyMessage(dirty) =>
        if current.None? || dirty.protocol != 1 || dirty.epoch != current.value.epoch || dirty.number < 1 {
          closing := true;
        } else if inputSeq.None? || dirty.number > inputSeq.value {
          inputSeq, inputRevision := Some(dirty.number), inputRevision + 1;
        }
      case HostMessage(event) => OnHostEvent(event);
    }

    method OnHostEvent(event: Replica.Event)
      modifies this
      ensures Value() == ReceiveHost(old(Value()), event)
    {
      var outcome := ApplyEvent(current, event);
      if outcome.Raised? {
        closing := true;
        return;
      }
      if event.ChangeEvent? && current.Some? && event.number <= current.value.number { return; }
      current := outcome.state;
      match event
      case SnapshotEvent(_, _) =>
        inputSeq, inputRevision, generation := None, inputRevision + 1, generation + 1;
        if selected.Some? { StartFetch(selected.value, true); }
      case ChangeEvent(_, _, change) =>
        if change.TaskChange? && Some(change.task.taskId) == selected {
          generation, task := generation + 1, Some(change.task);
        }
    }

    method OnClose(from: nat)
      modifies this`socket, this`generation
      ensures Value() == Step(old(Value()), Closed(from))
    {
      if disposed || socket != Some(from) { return; }
      socket, generation := None, generation + 1;
    }

    method SelectTask(taskId: Option<string>)
      requires Enabled(Value(), Select(taskId))
      modifies this
      ensures Value() == Step(old(Value()), Select(taskId))
    {
      selected, generation, task := taskId, generation + 1, None;
      if taskId.Some? { StartFetch(taskId.value, false); }
    }

    method OnReply(id: nat, result: Option<Task>)
      requires Enabled(Value(), Reply(id, result))
      modifies this`fetches, this`task
      ensures Value() == Step(old(Value()), Reply(id, result))
    {
      var fetch := fetches[id];
      fetches := fetches - {id};
      if result.None? { return; }
      if fetch.viaSnapshot && (disposed || selected != Some(fetch.taskId)) { return; }
      if generation == fetch.version { task := result; }
    }

    /** Whatever happens next, the hook takes its step and keeps the invariant. */
    method Handle(e: Event)
      requires Inv(Value()) && Enabled(Value(), e)
      modifies this
      ensures Value() == Step(old(Value()), e) && Inv(Value())
    {
      StepKeeps(Value(), e);
      match e {
        case Open => socket, nextSocket, closing := Some(nextSocket), nextSocket + 1, false;
        case Receive(from, message) => OnMessage(from, message);
        case Closed(from) => OnClose(from);
        case Select(taskId) => SelectTask(taskId);
        case Reply(id, result) => OnReply(id, result);
        case Dispose => disposed := true;
      }
    }
  }
}
