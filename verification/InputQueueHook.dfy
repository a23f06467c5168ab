/** The hook itself: the refs and the React state of `useInputQueue` as mutable fields, one method
    per piece of code between two awaits. Each method takes exactly its step on `Client`, so every
    sequence of calls is a run of that protocol and keeps its invariant (`InputQueue.StepKeeps`). */
module InputQueueHook {
  import opened Options
  import opened InputContracts
  import opened InputQueue

  class UseInputQueue {
    var active: Option<Key>
    var available: bool
    var observed: nat
    var generation: nat
    var current: Option<Queue>
    var pending: Option<Owner>
    var reading: Option<nat>
    var fetches: map<nat, Read>
    var calls: map<nat, Call>
    var nextId: nat
    var shown: Shown
    var stay: nat  // history: tags requests, tested by no method
    ghost var owed: bool

    ghost function View(): Client
      reads this
    {
      Client(active, available, observed, generation, current, pending, reading, fetches, calls, nextId,
             shown, stay, owed)
    }

    constructor ()
      ensures View() == Fresh
    {
      active, available, observed, generation := None, false, 0, 0;
      current, pending, reading, fetches, calls, nextId := None, None, None, map[], map[], 0;
      shown, stay, owed := Shown(false, false, false, None), 0, false;
    }

    method Accept(key: Key, queue: Queue) returns (installed: bool)
      modifies this`current, this`shown
      ensures installed == Acceptable(old(View()), key, queue)
      ensures View() == if installed then Install(old(View()), queue) else old(View())
    {
      if active != Some(key) { return false; }
      if queue.scope.projectId != key.projectId || queue.scope.sessionId != key.sessionId { return false; }
      if current.Some? && queue.revision < current.value.revision { return false; }
      current, shown := Some(queue), shown.(synchronized := true);
      installed := true;
    }

    method Refresh(key: Key)
      modifies this`generation, this`fetches, this`reading, this`nextId, this`owed
      ensures View() == InputQueue.Refresh(old(View()), key)
    {
      if active != Some(key) {
        return;
      } else if key.sessionId.None? || !available || (pending.Some? && pending.value.busy) {
        owed := true;
        assert View() == old(View()).(owed := true);
      } else if reading.Some? && reading.value in fetches && fetches[reading.value].key == key {
        fetches, owed := fetches[reading.value := fetches[reading.value].(again := true)], true;
        assert View() == ReadAgain(old(View()));
      } else {
        generation, owed := generation + 1, false;
        fetches := fetches[nextId := Read(key, generation, false, false, stay)];
        reading, nextId := Some(nextId), nextId + 1;
        assert View() == StartRead(old(View()), key);
      }
    }

    method AbortReading()
      modifies this`fetches, this`reading
      ensures View() == InputQueue.AbortReading(old(View()))
    {
      if reading.Some? && reading.value in fetches {
        fetches := fetches[reading.value := fetches[reading.value].(aborted := true)];
      }
      reading := None;
    }

    method Render(key: Key, connected: bool, inputRevision: nat)
      modifies this
      ensures View() == InputQueue.Render(old(View()), key, connected, inputRevision)
    {
      ghost var before := View();
      if active != Some(key) {
        AbortReading();
        EnterScope(key);
        available, observed := connected, inputRevision;
        assert View() == InputQueue.EnterScope(InputQueue.AbortReading(before), key)
                         .(available := connected, observed := inputRevision);
        Refresh(key);
      } else if available != connected {
        AbortReading();
        available, observed := connected, inputRevision;
        assert View() == InputQueue.AbortReading(before).(available := connected, observed := inputRevision);
        Refresh(key);
      } else if observed != inputRevision {
        observed := inputRevision;
        assert View() == before.(observed := inputRevision);
        Refresh(key);
      }
    }

    method EnterScope(key: Key)
      modifies this
      ensures View() == InputQueue.EnterScope(old(View()), key)
    {
      generation := generation + if active.Some? then 2 else 1;
      active, current, pending, stay := Some(key), None, None, stay + 1;
      shown := Shown(false, false, false, None);
    }

    method Act(command: Command)
      requires active.Some?
      modifies this
      ensures View() == InputQueue.Act(old(View()), command)
    {
      if pending.Some? || !available || active.value.sessionId.None? { return; }
      AbortReading();
      pending, generation := Some(Owner(nextId, command, active.value, true)), generation + 1;
      calls, nextId := calls[nextId := Call(command, active.value, stay)], nextId + 1;
      shown := shown.(busy := true, synchronized := false);
    }

    /** From the answer of `inputApi` to the `finally` of a read. */
    method SettleRead(read: Read, reply: Reply)
      modifies this`current, this`pending, this`shown
      ensures View() == InputQueue.SettleRead(old(View()), read, reply)
    {
      if read.aborted || active != Some(read.key) || read.version != generation { return; }
      if !reply.Answer? || reply.queue.scope.sessionId != read.key.sessionId {
        shown := shown.(synchronized := false);
        return;
      }
      var installed := Accept(read.key, reply.queue);
      if installed && pending.Some? && pending.value.key == read.key && Confirms(reply.queue, pending.value.command) {
        shown := shown.(uncertain := false, confirmed := Some(Confirmation(pending.value.command, reply.queue)));
        pending := None;
      }
    }

    method ReadReply(id: nat, reply: Reply)
      requires id in fetches
      modifies this
      ensures View() == InputQueue.ReadReply(old(View()), id, reply)
    {
      var read := fetches[id];
      SettleRead(read, reply);
      var held := reading == Some(id);
      fetches, reading := fetches - {id}, if held then None else reading;
      if held && read.again && !read.aborted { Refresh(read.key); }
    }

    /** From the answer of `inputApi` to the `finally` of `act`. */
    method SettleCommand(id: nat, call: Call, reply: Reply)
      modifies this`current, this`pending, this`shown
      ensures View() == InputQueue.SettleCommand(old(View()), id, call, reply)
    {
      if active != Some(call.key) || pending.None? || pending.value.id != id { return; }
      if reply.Answer? {
        var installed := Accept(call.key, reply.queue);
        if !installed || (call.command.HasInput() && !Confirms(reply.queue, call.command)) {
          shown := shown.(uncertain := true);
        } else {
          pending, shown := None,
            shown.(uncertain := false, confirmed := Some(Confirmation(call.command, reply.queue)));
        }
      } else {
        if !reply.uncertain { pending := None; }
        shown := shown.(uncertain := reply.uncertain);
      }
    }

    method CommandReply(id: nat, reply: Reply)
      requires id in calls
      modifies this
      ensures View() == InputQueue.CommandReply(old(View()), id, reply)
    {
      var call := calls[id];
      SettleCommand(id, call, reply);
      calls := calls - {id};
      if pending.Some? && pending.value.id == id { pending := Some(pending.value.(busy := false)); }
      if active == Some(call.key) {
        shown := shown.(busy := false);
        Refresh(call.key);
      }
    }

    method Unmount()
      modifies this
      ensures View() == InputQueue.Unmount(old(View()))
    {
      AbortReading();
      active, generation := None, generation + 1;
    }

    /** Whatever happens next, the hook takes the protocol's step and keeps its invariant. */
    method Handle(e: Event)
      requires Inv(View()) && Enabled(View(), e)
      modifies this
      ensures View() == Step(old(View()), e) && Inv(View())
    {
      StepKeeps(View(), e);
      match e {
        case RenderEvent(key, connected, inputRevision) => Render(key, connected, inputRevision);
        case UnmountEvent => Unmount();
        case RefreshEvent => Refresh(active.value);
        case ActEvent(command) => Act(command);
        case ReadReplyEvent(id, reply) => ReadReply(id, reply);
        case CommandReplyEvent(id, reply) => CommandReply(id, reply);
      }
    }
  }
}
