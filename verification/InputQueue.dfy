/** The input-queue client (webui/src/shared/useInputQueue.ts). One step is the code between two
    awaits, and a render together with its effects. `Client` is the value of the hook's refs and state,
    on which the protocol properties are stated; `InputQueueHook.UseInputQueue` is the hook itself. */
module InputQueue {
  import opened Options
  import opened InputContracts

  datatype Key = Key(projectId: string, taskId: string, sessionId: Option<string>)

  /** A command's record in `pending`; `id` is the identity of that object. */
  datatype Owner = Owner(id: nat, command: Command, key: Key, busy: bool)

  /** A `getInputs` request in flight. `stay` counts scope entries and is read by no step. */
  datatype Read = Read(key: Key, version: nat, again: bool, aborted: bool, stay: nat)

  /** A command request in flight. */
  datatype Call = Call(command: Command, key: Key, stay: nat)

  datatype Confirmation = Confirmation(command: Command, queue: Queue)

  /** The remaining React state. */
  datatype Shown = Shown(busy: bool, uncertain: bool, synchronized: bool, confirmed: Option<Confirmation>)

  /** `current` stands for the ref and the displayed queue, which are always set together.
      `stay` and `owed` are history: how often a scope was entered, and whether a refresh
      was asked for that no newly started read has followed yet. */
  datatype Client = Client(
    active: Option<Key>, available: bool, observed: nat, generation: nat,
    current: Option<Queue>, pending: Option<Owner>, reading: Option<nat>,
    fetches: map<nat, Read>, calls: map<nat, Call>, nextId: nat,
    shown: Shown, stay: nat, owed: bool)
  {
    predicate CommandInFlight() { pending.Some? && pending.value.busy }
    predicate HasSession() { active.Some? && active.value.sessionId.Some? }
  }

  const Fresh: Client :=
    Client(None, false, 0, 0, None, None, None, map[], map[], 0, Shown(false, false, false, None), 0, false)

  // ---- Steps ----

  predicate SameScope(c: Client, d: Client) {
    d.active == c.active && d.available == c.available && d.observed == c.observed && d.stay == c.stay
  }

  predicate SameRequests(c: Client, d: Client) {
    && d.reading == c.reading && d.fetches == c.fetches && d.calls == c.calls
    && d.generation == c.generation && d.nextId == c.nextId && d.owed == c.owed
  }

  /** Whether `accept`, called by a closure over `key`, installs the queue. */
  predicate Acceptable(c: Client, key: Key, queue: Queue) {
    && c.active == Some(key)
    && queue.scope == Scope(key.projectId, key.sessionId)
    && (c.current.Some? ==> c.current.value.revision <= queue.revision)
  }

  function Install(c: Client, queue: Queue): Client {
    c.(current := Some(queue), shown := c.shown.(synchronized := true))
  }

  /** Installing a queue that settles `command`. */
  function Confirmed(c: Client, command: Command, queue: Queue): Client {
    c.(current := Some(queue), pending := None,
       shown := c.shown.(synchronized := true, uncertain := false, confirmed := Some(Confirmation(command, queue))))
  }

  function StartRead(c: Client, key: Key): Client {
    c.(generation := c.generation + 1,
       fetches := c.fetches[c.nextId := Read(key, c.generation + 1, false, false, c.stay)],
       reading := Some(c.nextId), nextId := c.nextId + 1, owed := false)
  }

  function ReadAgain(c: Client): Client
    requires c.reading.Some? && c.reading.value in c.fetches
  {
    c.(fetches := c.fetches[c.reading.value := c.fetches[c.reading.value].(again := true)], owed := true)
  }

  /** `refresh` of a closure over `key`. */
  function Refresh(c: Client, key: Key): (d: Client)
    ensures SameScope(c, d) && d.current == c.current && d.pending == c.pending && d.calls == c.calls
    ensures d.shown == c.shown
  {
    if c.active != Some(key) then c
    else if key.sessionId.None? || !c.available || c.CommandInFlight() then c.(owed := true)
    else if c.reading.Some? && c.reading.value in c.fetches && c.fetches[c.reading.value].key == key then ReadAgain(c)
    else StartRead(c, key)
  }

  /** Aborting and forgetting the read held by `reading`. */
  function AbortReading(c: Client): (d: Client)
    ensures SameScope(c, d) && d.current == c.current && d.pending == c.pending && d.calls == c.calls
    ensures d.shown == c.shown
  {
    if c.reading.Some? && c.reading.value in c.fetches then
      c.(fetches := c.fetches[c.reading.value := c.fetches[c.reading.value].(aborted := true)], reading := None)
    else c.(reading := None)
  }

  function EnterScope(c: Client, key: Key): Client {
    c.(active := Some(key), generation := c.generation + (if c.active.Some? then 2 else 1),
       current := None, pending := None, shown := Shown(false, false, false, None), stay := c.stay + 1)
  }

  function Render(c: Client, key: Key, connected: bool, inputRevision: nat): Client {
    if c.active != Some(key) then
      Refresh(EnterScope(AbortReading(c), key).(available := connected, observed := inputRevision), key)
    else if c.available != connected then
      Refresh(AbortReading(c).(available := connected, observed := inputRevision), key)
    else if c.observed != inputRevision then
      Refresh(c.(observed := inputRevision), key)
    else c
  }

  function Unmount(c: Client): Client {
    AbortReading(c).(active := None, generation := c.generation + 1)
  }

  predicate Admits(c: Client) { c.pending.None? && c.available && c.HasSession() }

  /** `act`, called by the current render. */
  function Act(c: Client, command: Command): Client {
    if !Admits(c) then c else
    AbortReading(c).(
      pending := Some(Owner(c.nextId, command, c.active.value, true)), generation := c.generation + 1,
      calls := c.calls[c.nextId := Call(command, c.active.value, c.stay)], nextId := c.nextId + 1,
      shown := c.shown.(busy := true, synchronized := false))
  }

  /** A read's continuation up to its `finally`. */
  function SettleRead(c: Client, read: Read, reply: Reply): (d: Client)
    ensures SameScope(c, d) && SameRequests(c, d)
    ensures d.current == c.current
            || (reply.Answer? && Acceptable(c, read.key, reply.queue) && d.current == Some(reply.queue))
  {
    var live := !read.aborted && c.active == Some(read.key) && read.version == c.generation;
    if !live then c
    else if !reply.Answer? || reply.queue.scope.sessionId != read.key.sessionId then
      c.(shown := c.shown.(synchronized := false))
    else if !Acceptable(c, read.key, reply.queue) then c
    else if c.pending.Some? && c.pending.value.key == read.key && Confirms(reply.queue, c.pending.value.command) then
      Confirmed(c, c.pending.value.command, reply.queue)
    else Install(c, reply.queue)
  }

  /** The reply to the read `id`. */
  function ReadReply(c: Client, id: nat, reply: Reply): (d: Client)
    requires id in c.fetches
    ensures var settled := SettleRead(c, c.fetches[id], reply);
            && SameScope(c, d) && d.calls == c.calls
            && d.current == settled.current && d.pending == settled.pending && d.shown == settled.shown
  {
    var read, settled := c.fetches[id], SettleRead(c, c.fetches[id], reply);
    var done := settled.(fetches := settled.fetches - {id},
                         reading := if settled.reading == Some(id) then None else settled.reading);
    if settled.reading == Some(id) && read.again && !read.aborted then Refresh(done, read.key) else done
  }

  /** A command's continuation up to its `finally`. */
  function SettleCommand(c: Client, id: nat, call: Call, reply: Reply): (d: Client)
    ensures SameScope(c, d) && SameRequests(c, d)
    ensures d.current == c.current
            || (reply.Answer? && Acceptable(c, call.key, reply.queue) && d.current == Some(reply.queue))
  {
    if c.active != Some(call.key) || c.pending.None? || c.pending.value.id != id then c
    else match reply
      case Answer(queue) =>
        if !Acceptable(c, call.key, queue) then c.(shown := c.shown.(uncertain := true))
        else if call.command.HasInput() && !Confirms(queue, call.command) then
          Install(c, queue).(shown := c.shown.(synchronized := true, uncertain := true))
        else Confirmed(c, call.command, queue)
      case Failure(uncertain) =>
        c.(pending := if uncertain then c.pending else None, shown := c.shown.(uncertain := uncertain))
  }

  /** `owner.busy = false`, seen through `pending` when that still holds this owner. */
  function Idle(c: Client, id: nat): Client {
    c.(calls := c.calls - {id},
       pending := if c.pending.Some? && c.pending.value.id == id then Some(c.pending.value.(busy := false))
                  else c.pending)
  }

  /** The reply to the command request `id`. */
  function CommandReply(c: Client, id: nat, reply: Reply): (d: Client)
    requires id in c.calls
    ensures var settled := SettleCommand(c, id, c.calls[id], reply);
            && SameScope(c, d) && d.calls == c.calls - {id}
            && d.current == settled.current && d.pending == Idle(settled, id).pending
            && d.shown == if c.active == Some(c.calls[id].key) then settled.shown.(busy := false) else settled.shown
  {
    var call := c.calls[id];
    var done := Idle(SettleCommand(c, id, call, reply), id);
    if done.active == Some(call.key) then Refresh(done.(shown := done.shown.(busy := false)), call.key) else done
  }

  datatype Event =
    | RenderEvent(key: Key, connected: bool, inputRevision: nat)
    | UnmountEvent
    | RefreshEvent
    | ActEvent(command: Command)
    | ReadReplyEvent(id: nat, reply: Reply)
    | CommandReplyEvent(id: nat, reply: Reply)

  predicate Enabled(c: Client, e: Event) {
    match e
    case RenderEvent(_, _, _) => true
    case UnmountEvent => c.active.Some?
    case RefreshEvent => c.active.Some?
    case ActEvent(_) => c.active.Some?
    case ReadReplyEvent(id, _) => id in c.fetches
    case CommandReplyEvent(id, _) => id in c.calls
  }

  function Step(c: Client, e: Event): Client
    requires Enabled(c, e)
  {
    match e
    case RenderEvent(key, connected, inputRevision) => Render(c, key, connected, inputRevision)
    case UnmountEvent => Unmount(c)
    case RefreshEvent => Refresh(c, c.active.value)
    case ActEvent(command) => Act(c, command)
    case ReadReplyEvent(id, reply) => ReadReply(c, id, reply)
    case CommandReplyEvent(id, reply) => CommandReply(c, id, reply)
  }

  // ---- The invariant of every reachable client ----

  ghost predicate Numbered(fetches: map<nat, Read>, calls: map<nat, Call>, nextId: nat) {
    (forall id :: id in fetches ==> id < nextId) && (forall id :: id in calls ==> id < nextId)
  }

  /** Only the read held by `reading` can still pass the version check, and it was started in this stay. */
  ghost predicate OneLiveRead(fetches: map<nat, Read>, generation: nat, stay: nat, reading: Option<nat>) {
    forall id :: id in fetches ==>
      && fetches[id].version <= generation
      && (!fetches[id].aborted && fetches[id].version == generation ==> fetches[id].stay == stay && reading == Some(id))
  }

  ghost predicate ReadingHeld(c: Client) {
    c.reading.Some? ==>
      && c.HasSession() && c.available && !c.CommandInFlight()
      && c.reading.value in c.fetches
      && var read := c.fetches[c.reading.value];
         !read.aborted && read.version == c.generation && read.key == c.active.value
  }

  /** Each stay has at most one command in flight; in this stay it is the busy owner's. */
  ghost predicate OneCall(calls: map<nat, Call>, stay: nat, pending: Option<Owner>) {
    && (forall id :: id in calls ==>
          && calls[id].stay <= stay
          && (calls[id].stay == stay ==> pending.Some? && pending.value.id == id))
    && (forall i, j :: i in calls && j in calls && calls[i].stay == calls[j].stay ==> i == j)
    && (pending.Some? ==>
          && (pending.value.busy <==> pending.value.id in calls)
          && (pending.value.busy ==> calls[pending.value.id] == Call(pending.value.command, pending.value.key, stay)))
  }

  ghost predicate InScope(active: Option<Key>, pending: Option<Owner>, current: Option<Queue>) {
    active.Some? ==>
      && (pending.Some? ==> pending.value.key == active.value)
      && (current.Some? ==> current.value.scope == Scope(active.value.projectId, active.value.sessionId))
  }

  ghost predicate Core(c: Client) {
    && Numbered(c.fetches, c.calls, c.nextId) && (c.pending.Some? ==> c.pending.value.id < c.nextId)
    && OneLiveRead(c.fetches, c.generation, c.stay, c.reading)
    && ReadingHeld(c)
    && OneCall(c.calls, c.stay, c.pending)
    && InScope(c.active, c.pending, c.current)
  }

  /** No lost wakeup: a refresh still owed has a reason, and each reason ends in a refresh. */
  ghost predicate WakeupHeld(c: Client) {
    c.owed ==> || !c.HasSession() || !c.available || c.CommandInFlight()
               || (c.reading.Some? && c.reading.value in c.fetches && c.fetches[c.reading.value].again)
  }

  ghost predicate Inv(c: Client) { Core(c) && WakeupHeld(c) }

  lemma StartReadKeeps(c: Client, key: Key)
    requires Core(c) && c.active == Some(key) && c.HasSession() && c.available && !c.CommandInFlight()
    requires c.reading.None?
    ensures Core(StartRead(c, key))
  {
    var d := StartRead(c, key);
    assert OneLiveRead(d.fetches, d.generation, d.stay, d.reading);
  }

  lemma ReadAgainKeeps(c: Client)
    requires Core(c) && c.reading.Some?
    ensures Core(ReadAgain(c))
  {
    var d := ReadAgain(c);
    assert OneLiveRead(d.fetches, d.generation, d.stay, d.reading);
  }

  lemma RefreshKeeps(c: Client, key: Key)
    requires Core(c)
    ensures Core(Refresh(c, key))
    ensures c.active == Some(key) || WakeupHeld(c) ==> WakeupHeld(Refresh(c, key))
  {
    if c.active != Some(key) {
    } else if key.sessionId.None? || !c.available || c.CommandInFlight() {
      assert Refresh(c, key) == c.(owed := true);
    } else if c.reading.Some? {
      ReadAgainKeeps(c);
    } else {
      StartReadKeeps(c, key);
    }
  }

  lemma AbortKeeps(c: Client)
    requires Core(c)
    ensures Core(AbortReading(c)) && AbortReading(c).reading.None?
  {
    if c.reading.Some? {
      var d := AbortReading(c);
      assert OneLiveRead(d.fetches, d.generation, d.stay, d.reading);
    }
  }

  lemma EnterKeeps(c: Client, key: Key)
    requires Core(c) && c.reading.None?
    ensures Core(EnterScope(c, key))
  {
  }

  lemma SettleReadKeeps(c: Client, id: nat, reply: Reply)
    requires Inv(c) && id in c.fetches
    ensures var settled := SettleRead(c, c.fetches[id], reply);
            Inv(settled) && settled.reading == c.reading && settled.fetches == c.fetches && settled.active == c.active
  {
    var read, settled := c.fetches[id], SettleRead(c, c.fetches[id], reply);
    if read.aborted || c.active != Some(read.key) || read.version != c.generation {
    } else if !reply.Answer? || reply.queue.scope.sessionId != read.key.sessionId {
      assert settled == c.(shown := c.shown.(synchronized := false));
    } else if !Acceptable(c, read.key, reply.queue) {
    } else if c.pending.Some? && Confirms(reply.queue, c.pending.value.command) {
      assert !c.pending.value.busy && settled.pending.None?;
    } else {
      assert settled == Install(c, reply.queue);
    }
  }

  lemma ReadReplyKeeps(c: Client, id: nat, reply: Reply)
    requires Inv(c) && id in c.fetches
    ensures Inv(ReadReply(c, id, reply))
  {
    SettleReadKeeps(c, id, reply);
    var settled := SettleRead(c, c.fetches[id], reply);
    var done := settled.(fetches := settled.fetches - {id},
                         reading := if settled.reading == Some(id) then None else settled.reading);
    assert Core(done);
    RefreshKeeps(done, c.fetches[id].key);
  }

  lemma IdleKeeps(c: Client, id: nat, current: Option<Queue>, pending: Option<Owner>)
    requires Core(c) && id in c.calls && InScope(c.active, None, current)
    requires pending == c.pending || (c.pending.Some? && c.pending.value.id == id && pending.None?)
    ensures Core(Idle(c.(current := current, pending := pending), id))
  {
    var d := Idle(c.(current := current, pending := pending), id);
    if c.pending.Some? && c.pending.value.id == id {
      assert c.calls[id].stay == c.stay;
      assert forall other :: other in d.calls ==> d.calls[other].stay != c.stay;
    }
  }

  lemma SettleCommandKeeps(c: Client, id: nat, reply: Reply)
    requires Core(c) && id in c.calls
    ensures var done := Idle(SettleCommand(c, id, c.calls[id], reply), id);
            Core(done) && done.active == c.active
  {
    var settled := SettleCommand(c, id, c.calls[id], reply);
    assert settled == c.(current := settled.current, pending := settled.pending, shown := settled.shown);
    IdleKeeps(c, id, settled.current, settled.pending);
  }

  lemma CommandReplyKeeps(c: Client, id: nat, reply: Reply)
    requires Inv(c) && id in c.calls
    ensures Inv(CommandReply(c, id, reply))
  {
    SettleCommandKeeps(c, id, reply);
    var done := Idle(SettleCommand(c, id, c.calls[id], reply), id);
    assert Core(done.(shown := done.shown.(busy := false)));
    RefreshKeeps(done.(shown := done.shown.(busy := false)), c.calls[id].key);
  }

  lemma RenderKeeps(c: Client, key: Key, connected: bool, inputRevision: nat)
    requires Inv(c)
    ensures Inv(Render(c, key, connected, inputRevision))
  {
    AbortKeeps(c);
    if c.active != Some(key) {
      EnterKeeps(AbortReading(c), key);
      RefreshKeeps(EnterScope(AbortReading(c), key).(available := connected, observed := inputRevision), key);
    } else if c.available != connected {
      RefreshKeeps(AbortReading(c).(available := connected, observed := inputRevision), key);
    } else {
      RefreshKeeps(c.(observed := inputRevision), key);
    }
  }

  lemma ActKeeps(c: Client, command: Command)
    requires Inv(c)
    ensures Inv(Act(c, command))
  {
    AbortKeeps(c);
  }

  lemma StepKeeps(c: Client, e: Event)
    requires Inv(c) && Enabled(c, e)
    ensures Inv(Step(c, e))
  {
    match e
    case RenderEvent(key, connected, inputRevision) => RenderKeeps(c, key, connected, inputRevision);
    case UnmountEvent => AbortKeeps(c);
    case RefreshEvent => RefreshKeeps(c, c.active.value);
    case ActEvent(command) => ActKeeps(c, command);
    case ReadReplyEvent(id, reply) => ReadReplyKeeps(c, id, reply);
    case CommandReplyEvent(id, reply) => CommandReplyKeeps(c, id, reply);
  }

  // ---- What single steps may do ----

  /** Requests are sent only by an admitted `act`, one each: no step ever sends a command again. */
  lemma OnlyActSends(c: Client, e: Event)
    requires Inv(c) && Enabled(c, e)
    ensures e.ActEvent? && c.pending.None? && c.available && c.HasSession() ==>
              c.nextId !in c.calls && Step(c, e).calls == c.calls[c.nextId := Call(e.command, c.active.value, c.stay)]
    ensures e.ActEvent? && !(c.pending.None? && c.available && c.HasSession()) ==> Step(c, e) == c
    ensures e.CommandReplyEvent? ==> Step(c, e).calls == c.calls - {e.id}
    ensures !e.ActEvent? && !e.CommandReplyEvent? ==> Step(c, e).calls == c.calls
  {
    match e
    case ReadReplyEvent(id, reply) => assert SettleRead(c, c.fetches[id], reply).calls == c.calls;
    case CommandReplyEvent(id, reply) => assert SettleCommand(c, id, c.calls[id], reply).calls == c.calls;
    case _ =>
  }

  /** An uncertain command keeps the slot until the scope is left or a read of this stay brings its evidence. */
  lemma UncertainBlocks(c: Client, e: Event)
    requires Inv(c) && Enabled(c, e) && c.pending.Some? && !c.pending.value.busy
    ensures e.ActEvent? ==> Step(c, e) == c
    ensures Step(c, e).pending == c.pending
         || (e.RenderEvent? && c.active != Some(e.key) && Step(c, e).pending.None?)
         || (e.ReadReplyEvent? && c.fetches[e.id].stay == c.stay
             && e.reply.Answer? && Confirms(e.reply.queue, c.pending.value.command)
             && Step(c, e).shown.confirmed == Some(Confirmation(c.pending.value.command, e.reply.queue)))
  {
    match e
    case ReadReplyEvent(id, reply) => assert Step(c, e).pending == SettleRead(c, c.fetches[id], reply).pending;
    case CommandReplyEvent(id, reply) => assert c.pending.value.id != id;
    case _ =>
  }

  /** The event leaves the scope, or is a read of this stay with the evidence for the command in the slot. */
  predicate Resolves(c: Client, e: Event) {
    || (e.RenderEvent? && c.active != Some(e.key))
    || (e.ReadReplyEvent? && e.id in c.fetches && c.fetches[e.id].stay == c.stay && e.reply.Answer?
        && c.pending.Some? && Confirms(e.reply.queue, c.pending.value.command))
  }

  /** Over any number of steps, an uncertain command holds the slot and nothing is sent, until the scope is left or
      a read of this stay brings its evidence. */
  lemma {:induction false} UncertainHolds(states: seq<Client>, events: seq<Event>, i: nat, k: nat)
    requires IsRun(states, events) && i <= k < |states| && states[i].pending.Some? && !states[i].pending.value.busy
    requires forall j {:trigger events[j]} :: i <= j < k ==> !Resolves(states[j], events[j])
    ensures states[k].pending == states[i].pending
    ensures SomeOf(states[k].calls, states[i].calls)
    decreases k
  {
    if i < k {
      UncertainHolds(states, events, i, k - 1);
      assert Inv(states[k - 1]) by { ReachableInv(states, events, k - 1); }
      UncertainStep(states[k - 1], events[k - 1]);
      SomeOfSome(states[k].calls, states[k - 1].calls, states[i].calls);
    }
  }

  /** The requests in `some` are requests in `all`. */
  ghost predicate SomeOf(some: map<nat, Call>, all: map<nat, Call>) {
    forall id :: id in some ==> id in all && some[id] == all[id]
  }

  lemma SomeOfSome(a: map<nat, Call>, b: map<nat, Call>, c: map<nat, Call>)
    requires SomeOf(a, b) && SomeOf(b, c)
    ensures SomeOf(a, c)
  {
  }

  lemma UncertainStep(c: Client, e: Event)
    requires Inv(c) && Enabled(c, e) && c.pending.Some? && !c.pending.value.busy && !Resolves(c, e)
    ensures Step(c, e).pending == c.pending && SomeOf(Step(c, e).calls, c.calls)
  {
    UncertainBlocks(c, e);
    OnlyActSends(c, e);
  }

  /** `next` follows `current` in one scope: nothing is lost and no older revision is shown. */
  ghost predicate Newer(current: Option<Queue>, next: Option<Queue>) {
    current.Some? ==> next.Some? && current.value.revision <= next.value.revision
  }

  lemma ReadShows(c: Client, id: nat, reply: Reply)
    requires Inv(c) && id in c.fetches
    ensures var next := ReadReply(c, id, reply);
            && Newer(c.current, next.current)
            && (next.current != c.current ==>
                  c.fetches[id].stay == c.stay && !c.CommandInFlight() && reply.Answer?
                    && next.current == Some(reply.queue))
  {
    var settled := SettleRead(c, c.fetches[id], reply);
    assert ReadReply(c, id, reply).current == settled.current;
  }

  lemma CommandShows(c: Client, id: nat, reply: Reply)
    requires Inv(c) && id in c.calls
    ensures var next := CommandReply(c, id, reply);
            && Newer(c.current, next.current)
            && (next.current != c.current ==>
                  && c.calls[id].stay == c.stay && c.pending.Some? && c.pending.value.id == id
                  && reply.Answer? && next.current == Some(reply.queue))
  {
    var settled := SettleCommand(c, id, c.calls[id], reply);
    assert CommandReply(c, id, reply).current == settled.current;
  }

  /** Within a stay the shown queue is replaced only by an answer to a request of that stay: by a
      read while no command is in flight, or by the command in flight. Its revision never drops. */
  lemma ShownQueueSafe(c: Client, e: Event)
    requires Inv(c) && Enabled(c, e) && Step(c, e).stay == c.stay
    ensures Newer(c.current, Step(c, e).current)
    ensures Step(c, e).current != c.current ==>
              || (e.ReadReplyEvent? && c.fetches[e.id].stay == c.stay && !c.CommandInFlight()
                  && e.reply.Answer? && Step(c, e).current == Some(e.reply.queue))
              || (e.CommandReplyEvent? && c.calls[e.id].stay == c.stay && c.pending.Some? && c.pending.value.id == e.id
                  && e.reply.Answer? && Step(c, e).current == Some(e.reply.queue))
  {
    match e
    case ReadReplyEvent(id, reply) => ReadShows(c, id, reply);
    case CommandReplyEvent(id, reply) => CommandShows(c, id, reply);
    case _ => assert Step(c, e).current == c.current;
  }

  /** A reply to a request of an earlier stay, in the same scope or another, shows and settles nothing. */
  lemma LateReplyInert(c: Client, e: Event)
    requires Inv(c) && Enabled(c, e)
    requires (e.ReadReplyEvent? && c.fetches[e.id].stay < c.stay)
             || (e.CommandReplyEvent? && c.calls[e.id].stay < c.stay)
    ensures e.ReadReplyEvent? ==> Step(c, e) == c.(fetches := c.fetches - {e.id})
    ensures Step(c, e).current == c.current && Step(c, e).pending == c.pending
    ensures Step(c, e).shown == c.shown || Step(c, e).shown == c.shown.(busy := false)
  {
  }

  /** A settled command is one that held the slot, with the answer that settled it; the answer to a
      command with an input contains that input. */
  ghost predicate SettledBy(c: Client, confirmed: Option<Confirmation>, reply: Reply) {
    && confirmed.Some? && c.pending.Some? && reply.Answer?
    && confirmed.value == Confirmation(c.pending.value.command, reply.queue)
    && (confirmed.value.command.HasInput() ==> Confirms(reply.queue, confirmed.value.command))
  }

  lemma ReadSettles(c: Client, id: nat, reply: Reply)
    requires Inv(c) && id in c.fetches
    ensures var next := ReadReply(c, id, reply).shown.confirmed; next == c.shown.confirmed || SettledBy(c, next, reply)
  {
    assert ReadReply(c, id, reply).shown == SettleRead(c, c.fetches[id], reply).shown;
  }

  lemma CommandSettles(c: Client, id: nat, reply: Reply)
    requires Inv(c) && id in c.calls
    ensures var next := CommandReply(c, id, reply).shown.confirmed;
            next == c.shown.confirmed || SettledBy(c, next, reply)
  {
    assert CommandReply(c, id, reply).shown.confirmed == SettleCommand(c, id, c.calls[id], reply).shown.confirmed;
  }

  /** A confirmation is shown only by the answer that settles the command in the slot. */
  lemma ConfirmationSource(c: Client, e: Event)
    requires Inv(c) && Enabled(c, e)
    ensures var next := Step(c, e).shown.confirmed;
            || next == c.shown.confirmed || next.None?
            || ((e.ReadReplyEvent? || e.CommandReplyEvent?) && SettledBy(c, next, e.reply))
  {
    match e {
      case ReadReplyEvent(id, reply) => ReadSettles(c, id, reply);
      case CommandReplyEvent(id, reply) => CommandSettles(c, id, reply);
      case _ =>
    }
  }

  lemma ReadSlot(c: Client, id: nat, reply: Reply)
    requires Inv(c) && id in c.fetches
    ensures ReadReply(c, id, reply).pending in {None, c.pending}
  {
    assert ReadReply(c, id, reply).pending == SettleRead(c, c.fetches[id], reply).pending;
  }

  lemma CommandSlot(c: Client, id: nat, reply: Reply)
    requires Inv(c) && id in c.calls
    ensures var after := CommandReply(c, id, reply).pending;
            after.Some? ==> c.pending.Some? && after.value.command == c.pending.value.command
  {
    assert CommandReply(c, id, reply).pending == Idle(SettleCommand(c, id, c.calls[id], reply), id).pending;
  }

  /** The slot is only emptied, marked idle, or taken by an admitted `act`. */
  lemma SlotSource(c: Client, e: Event)
    requires Inv(c) && Enabled(c, e) && Step(c, e).pending.Some?
    ensures if e.ActEvent? && Admits(c) then Step(c, e).pending.value.command == e.command
            else c.pending.Some? && Step(c, e).pending.value.command == c.pending.value.command
  {
    match e {
      case ReadReplyEvent(id, reply) => ReadSlot(c, id, reply);
      case CommandReplyEvent(id, reply) => CommandSlot(c, id, reply);
      case _ =>
    }
  }

  // ---- What the answers must do ----

  /** A read whose answer still counts: not aborted, not overtaken, and for the scope that is shown. */
  predicate Live(c: Client, id: nat)
    requires id in c.fetches
  {
    !c.fetches[id].aborted && c.fetches[id].version == c.generation && c.active == Some(c.fetches[id].key)
  }

  /** A read that is still under way and cannot count any more, whether or not its abort signal was raised. */
  predicate Overtaken(c: Client, id: nat) {
    id in c.fetches && c.fetches[id].version < c.generation
  }

  /** The queue is of the scope `key` and not older than the one shown. */
  predicate FitsScope(c: Client, key: Key, queue: Queue) {
    && queue.scope.projectId == key.projectId && queue.scope.sessionId == key.sessionId
    && (c.current.Some? ==> c.current.value.revision <= queue.revision)
  }

  /** A live answer of the scope is shown; one that is evidence for the command in the slot also frees the slot,
      clears the uncertainty and is reported, and the next command is admitted. */
  lemma LiveReadSettles(c: Client, id: nat, queue: Queue, command: Command)
    requires Inv(c) && id in c.fetches && Live(c, id) && FitsScope(c, c.fetches[id].key, queue)
    ensures var next := Step(c, ReadReplyEvent(id, Answer(queue)));
            && next.current == Some(queue) && next.shown.synchronized && id !in next.fetches
            && if c.pending.Some? && Confirms(queue, c.pending.value.command) then
                 && next.pending.None? && !next.shown.uncertain
                 && next.shown.confirmed == Some(Confirmation(c.pending.value.command, queue))
                 && Step(next, ActEvent(command)).calls
                    == next.calls[next.nextId := Call(command, c.fetches[id].key, c.stay)]
               else
                 && next.pending == c.pending && next.shown.uncertain == c.shown.uncertain
                 && next.shown.confirmed == c.shown.confirmed
  {
    var event := ReadReplyEvent(id, Answer(queue));
    assert ReadReply(c, id, Answer(queue)).shown == SettleRead(c, c.fetches[id], Answer(queue)).shown;
    assert c.reading == Some(id);
    assert Inv(Step(c, event)) by { StepKeeps(c, event); }
    OnlyActSends(Step(c, event), ActEvent(command));
  }

  /** A read frees the slot exactly when it is live, of the scope, and evidence for the command in it. */
  lemma ReadFreesExactly(c: Client, id: nat, reply: Reply)
    requires Inv(c) && id in c.fetches && c.pending.Some?
    ensures Step(c, ReadReplyEvent(id, reply)).pending.None? <==>
              (Live(c, id) && reply.Answer? && FitsScope(c, c.fetches[id].key, reply.queue)
               && Confirms(reply.queue, c.pending.value.command))
  {
    assert ReadReply(c, id, reply).pending == SettleRead(c, c.fetches[id], reply).pending;
  }

  /** A live read that fails, or answers for another session, shows that the queue is no longer in step, and nothing
      else. */
  lemma FailedReadShows(c: Client, id: nat, reply: Reply)
    requires Inv(c) && id in c.fetches && Live(c, id)
    requires reply.Failure? || reply.queue.scope.sessionId != c.fetches[id].key.sessionId
    ensures var next := Step(c, ReadReplyEvent(id, reply));
            && next.current == c.current && next.pending == c.pending && next.shown == c.shown.(synchronized := false)
  {
    assert ReadReply(c, id, reply).shown == SettleRead(c, c.fetches[id], reply).shown;
  }

  /** What the answer to the command in flight does: an acceptable and confirming queue settles it, a certain
      refusal frees the slot, and everything else leaves it uncertain. */
  lemma LiveCommandSettles(c: Client, id: nat, reply: Reply)
    requires Inv(c) && id in c.calls && c.active == Some(c.calls[id].key) && c.pending.Some? && c.pending.value.id == id
    ensures var next, command := Step(c, CommandReplyEvent(id, reply)), c.calls[id].command;
            var fits := reply.Answer? && FitsScope(c, c.calls[id].key, reply.queue);
            && !next.shown.busy && !next.CommandInFlight() && id !in next.calls
            && next.current == (if fits then Some(reply.queue) else c.current)
            && next.shown.synchronized == (fits || c.shown.synchronized)
            && if fits && (command.HasInput() ==> Confirms(reply.queue, command)) then
                 && next.pending.None? && !next.shown.uncertain
                 && next.shown.confirmed == Some(Confirmation(command, reply.queue))
               else if reply == Failure(false) then
                 next.pending.None? && !next.shown.uncertain && next.shown.confirmed == c.shown.confirmed
               else
                 && next.pending == Some(c.pending.value.(busy := false)) && next.shown.uncertain
                 && next.shown.confirmed == c.shown.confirmed
  {
    var settled := SettleCommand(c, id, c.calls[id], reply);
    assert CommandReply(c, id, reply).pending == Idle(settled, id).pending;
    assert CommandReply(c, id, reply).shown == settled.shown.(busy := false);
  }

  /** A refresh of a connected scope with a session and no command in flight starts a read, or marks the running one. */
  lemma RefreshReads(c: Client)
    requires Inv(c) && c.HasSession() && c.available && !c.CommandInFlight()
    ensures var next := Step(c, RefreshEvent);
            if c.reading.Some? then
              && next.reading == c.reading && next.fetches[c.reading.value].again
              && next.fetches.Keys == c.fetches.Keys
            else
              && next.reading == Some(c.nextId) && c.nextId in next.fetches && c.nextId !in c.fetches
              && next.fetches[c.nextId].key == c.active.value && Live(next, c.nextId)
  {
  }

  /** A marked read that ends without having been aborted is followed by another. */
  lemma MarkedReadRepeats(c: Client, id: nat, reply: Reply)
    requires Inv(c) && c.reading == Some(id) && c.fetches[id].again
    ensures var next := Step(c, ReadReplyEvent(id, reply));
            && next.reading == Some(c.nextId) && c.nextId in next.fetches && Live(next, c.nextId)
            && next.fetches[c.nextId].key == c.active.value && id !in next.fetches
  {
    assert SameRequests(c, SettleRead(c, c.fetches[id], reply));
  }

  /** A read that was not marked is not followed by another. */
  lemma UnmarkedReadEnds(c: Client, id: nat, reply: Reply)
    requires Inv(c) && id in c.fetches && (c.reading == Some(id) ==> !c.fetches[id].again)
    ensures var next := Step(c, ReadReplyEvent(id, reply));
            && next.fetches == c.fetches - {id}
            && next.reading == if c.reading == Some(id) then None else c.reading
  {
    assert SameRequests(c, SettleRead(c, c.fetches[id], reply));
  }

  /** The end of the command in flight is followed by a read. */
  lemma CommandThenReads(c: Client, id: nat, reply: Reply)
    requires Inv(c) && id in c.calls && c.active == Some(c.calls[id].key) && c.pending.Some? && c.pending.value.id == id
    requires c.available && c.HasSession()
    ensures var next := Step(c, CommandReplyEvent(id, reply));
            && next.reading == Some(c.nextId) && c.nextId in next.fetches && Live(next, c.nextId)
  {
    assert SameRequests(c, SettleCommand(c, id, c.calls[id], reply));
  }

  /** Entering a scope shows nothing of the last one, and reads the new one if it is connected and has a session. */
  lemma EntryStartsAnew(c: Client, key: Key, connected: bool, inputRevision: nat)
    requires Inv(c) && c.active != Some(key)
    ensures var next := Step(c, RenderEvent(key, connected, inputRevision));
            && next.active == Some(key) && next.available == connected && next.observed == inputRevision
            && next.current.None? && next.pending.None? && next.shown == Shown(false, false, false, None)
            && (forall id :: id in c.fetches ==> Overtaken(next, id))
            && (connected && key.sessionId.Some? ==> next.reading == Some(c.nextId) && c.nextId in next.fetches)
  {
    var event := RenderEvent(key, connected, inputRevision);
    AbortKeeps(c);
  }

  /** A dirty hint or a change of connection in the same scope keeps what is shown. If the scope can be read, the
      hint marks the running read or starts one; a new connection always starts one, and no earlier read still
      counts. */
  lemma RenderReads(c: Client, connected: bool, inputRevision: nat)
    requires Inv(c) && c.active.Some? && (c.available != connected || c.observed != inputRevision)
    ensures var next := Step(c, RenderEvent(c.active.value, connected, inputRevision));
            && next.available == connected && next.observed == inputRevision
            && next.current == c.current && next.pending == c.pending && next.shown == c.shown
            && (connected && c.HasSession() && !c.CommandInFlight() ==>
                  if c.available && c.reading.Some? then
                    next.reading == c.reading && next.fetches[c.reading.value].again
                  else
                    next.reading == Some(c.nextId) && c.nextId in next.fetches && Live(next, c.nextId))
            && (c.available != connected ==> forall id :: id in c.fetches ==> id in next.fetches && !Live(next, id))
  {
  }

  /** After unmounting no read counts, and no answer shows anything. */
  lemma UnmountSilences(c: Client)
    requires Inv(c) && c.active.Some?
    ensures var next := Step(c, UnmountEvent);
            && next.active.None? && next.reading.None?
            && forall id :: id in c.fetches ==> Overtaken(next, id)
  {
  }

  lemma UnmountedIsSilent(c: Client, e: Event)
    requires Inv(c) && c.active.None? && Enabled(c, e) && !e.RenderEvent?
    ensures Step(c, e).active.None? && Step(c, e).shown == c.shown && Step(c, e).current == c.current
    ensures Step(c, e).fetches.Keys <= c.fetches.Keys && Step(c, e).calls.Keys <= c.calls.Keys
  {
  }

  /** An admitted command overtakes every read and shows itself busy. */
  lemma ActOvertakes(c: Client, command: Command)
    requires Inv(c) && c.pending.None? && c.available && c.HasSession()
    ensures var next := Step(c, ActEvent(command));
            && next.pending == Some(Owner(c.nextId, command, c.active.value, true)) && next.shown.busy
            && !next.shown.synchronized
            && next.calls == c.calls[c.nextId := Call(command, c.active.value, c.stay)]
            && next.current == c.current
            && (forall id :: id in c.fetches ==> Overtaken(next, id))
  {
  }

  // ---- What the code does not give, and exactly when ----

  ghost predicate Outstanding(c: Client, key: Key, id: nat) { id in c.calls && c.calls[id].key == key }

  /** At most one command is outstanding in each scope. */
  ghost predicate AloneInScope(c: Client) {
    forall i, j :: i in c.calls && j in c.calls && c.calls[i].key == c.calls[j].key ==> i == j
  }

  /** A command outstanding in the current scope was sent in the current stay. */
  ghost predicate SentInStay(c: Client) {
    forall id :: id in c.calls && c.active == Some(c.calls[id].key) ==> c.calls[id].stay == c.stay
  }

  /** The event enters a scope. */
  predicate Enters(c: Client, e: Event) { e.RenderEvent? && c.active != Some(e.key) }

  /** The event does not enter a scope in which a command is still unanswered. */
  ghost predicate EntersQuiet(c: Client, e: Event) { Enters(c, e) ==> forall id :: !Outstanding(c, e.key, id) }

  lemma StepAlone(c: Client, e: Event)
    requires Inv(c) && Enabled(c, e) && AloneInScope(c) && SentInStay(c) && EntersQuiet(c, e)
    ensures AloneInScope(Step(c, e)) && SentInStay(Step(c, e))
  {
    OnlyActSends(c, e);
    if e.ActEvent? && Admits(c) {
      forall id | id in c.calls ensures c.calls[id].key != c.active.value {
        assert c.calls[id].stay == c.stay ==> c.pending.Some?;
      }
    } else if Enters(c, e) {
      forall id | id in c.calls ensures c.calls[id].key != e.key {
        assert !Outstanding(c, e.key, id);
      }
      assert Step(c, e).active == Some(e.key);
    } else {
      assert Step(c, e).stay == c.stay && (Step(c, e).active == c.active || Step(c, e).active.None?);
    }
  }

  ghost predicate Continues(c: Client, states: seq<Client>, events: seq<Event>) {
    && |states| == |events| + 1 && states[0] == c
    && forall i {:trigger events[i]} :: 0 <= i < |events| ==>
         Enabled(states[i], events[i]) && states[i + 1] == Step(states[i], events[i])
  }

  ghost predicate QuietEntries(states: seq<Client>, events: seq<Event>, k: nat)
    requires k <= |events| < |states|
  {
    forall i :: 0 <= i < k ==> EntersQuiet(states[i], events[i])
  }

  lemma {:induction false} QuietStaysAlone(c: Client, states: seq<Client>, events: seq<Event>, k: nat)
    requires Inv(c) && AloneInScope(c) && SentInStay(c) && Continues(c, states, events) && k <= |events|
    requires QuietEntries(states, events, k)
    ensures Inv(states[k]) && AloneInScope(states[k]) && SentInStay(states[k])
  {
    if k > 0 {
      QuietStaysAlone(c, states, events, k - 1);
      assert EntersQuiet(states[k - 1], events[k - 1]);
      StepKeeps(states[k - 1], events[k - 1]);
      StepAlone(states[k - 1], events[k - 1]);
    }
  }

  /** In every run that enters no scope while a command of that scope is unanswered, at most one command
      is outstanding per scope in every state. */
  lemma OneCommandPerScope(states: seq<Client>, events: seq<Event>, k: nat)
    requires IsRun(states, events) && k <= |events| && QuietEntries(states, events, k)
    ensures AloneInScope(states[k])
  {
    QuietStaysAlone(Fresh, states, events, k);
  }

  /** Entering a connected scope with a session while a command of it is unanswered admits a second one. */
  lemma EntryAdmitsSecond(c: Client, e: Event, id: nat, command: Command)
    requires Inv(c) && Enters(c, e) && e.connected && e.key.sessionId.Some? && Outstanding(c, e.key, id)
    ensures var entered := Step(c, e);
            && Admits(entered) && id != entered.nextId
            && Outstanding(Act(entered, command), e.key, id)
            && Outstanding(Act(entered, command), e.key, entered.nextId)
  {
    OnlyActSends(c, e);
    StepKeeps(c, e);
    assert Step(c, e).pending.None?;
  }

  /** So entering a connected scope keeps one command per scope, whatever follows with quiet entries, exactly when no
      command of that scope is unanswered at the entry. */
  lemma EntrySafeExactly(c: Client, e: Event)
    requires Inv(c) && AloneInScope(c) && SentInStay(c) && Enters(c, e) && e.connected && e.key.sessionId.Some?
    ensures EntersQuiet(c, e) <==>
            forall states, events ::
              Continues(Step(c, e), states, events) && QuietEntries(states, events, |events|) ==>
                AloneInScope(states[|events|])
  {
    var entered := Step(c, e);
    if EntersQuiet(c, e) {
      StepKeeps(c, e);
      StepAlone(c, e);
      forall states, events | Continues(entered, states, events) && QuietEntries(states, events, |events|)
        ensures AloneInScope(states[|events|])
      {
        QuietStaysAlone(entered, states, events, |events|);
      }
    } else {
      var id :| Outstanding(c, e.key, id);
      var command := Resume(Target("", ""), 0);
      EntryAdmitsSecond(c, e, id, command);
      var states, events := [entered, Act(entered, command)], [ActEvent(command)];
      assert Continues(entered, states, events) && QuietEntries(states, events, |events|);
      assert !AloneInScope(states[|events|]);
    }
  }

  /** Leaving a scope and returning while its command is unanswered admits a second one. */
  lemma ReentryAdmitsSecond(c: Client, other: Key, first: Command, second: Command)
    requires Inv(c) && Admits(c) && c.active != Some(other)
    ensures var key := c.active.value;
            var returned := Render(Render(Act(c, first), other, true, 0), key, true, 0);
            && Admits(returned)
            && Outstanding(Act(returned, second), key, c.nextId)
            && Outstanding(Act(returned, second), key, returned.nextId)
            && c.nextId != returned.nextId
  {
    var key, away := c.active.value, Render(Act(c, first), other, true, 0);
    StepKeeps(c, ActEvent(first));
    StepKeeps(Act(c, first), RenderEvent(other, true, 0));
    StepKeeps(away, RenderEvent(key, true, 0));
    assert away.calls == Act(c, first).calls;
    assert Render(away, key, true, 0).calls == away.calls;
  }

  ghost predicate BusyShown(c: Client) { c.active.Some? ==> c.shown.busy == c.CommandInFlight() }

  lemma ReadKeepsBusy(c: Client, id: nat, reply: Reply)
    requires Inv(c) && id in c.fetches
    ensures ReadReply(c, id, reply).shown.busy == c.shown.busy && ReadReply(c, id, reply).active == c.active
    ensures ReadReply(c, id, reply).CommandInFlight() == c.CommandInFlight()
  {
    var settled := SettleRead(c, c.fetches[id], reply);
    assert settled.shown.busy == c.shown.busy && settled.CommandInFlight() == c.CommandInFlight();
  }

  lemma CommandClearsBusy(c: Client, id: nat, reply: Reply)
    requires Inv(c) && id in c.calls
    ensures var next := CommandReply(c, id, reply);
            && next.active == c.active
            && next.shown.busy == (c.shown.busy && c.active != Some(c.calls[id].key))
            && next.CommandInFlight() == (c.CommandInFlight() && c.pending.value.id != id)
  {
    var settled := SettleCommand(c, id, c.calls[id], reply);
    assert settled.shown.busy == c.shown.busy;
    if c.pending.None? || c.pending.value.id != id {
      assert settled == c;
    }
  }

  /** The displayed busy flag stays right except for one family of steps: a command of an earlier
      stay in this scope is answered while a new one is in flight. */
  lemma BusyFlagExact(c: Client, e: Event)
    requires Inv(c) && Enabled(c, e) && BusyShown(c)
    ensures BusyShown(Step(c, e)) <==>
            !(e.CommandReplyEvent? && c.calls[e.id].stay < c.stay && c.active == Some(c.calls[e.id].key)
              && c.CommandInFlight())
  {
    match e {
      case ReadReplyEvent(id, reply) => ReadKeepsBusy(c, id, reply);
      case CommandReplyEvent(id, reply) => CommandClearsBusy(c, id, reply);
      case _ =>
    }
  }

  // ---- Runs ----

  ghost predicate IsRun(states: seq<Client>, events: seq<Event>) {
    && |states| == |events| + 1 && states[0] == Fresh
    && forall i {:trigger events[i]} :: 0 <= i < |events| ==>
         Enabled(states[i], events[i]) && states[i + 1] == Step(states[i], events[i])
  }

  /** Every state of every run satisfies the invariant: at most one command in flight per stay, the
      shown queue in the current scope, and no refresh request forgotten. */
  lemma {:induction false} ReachableInv(states: seq<Client>, events: seq<Event>, k: nat)
    requires IsRun(states, events) && k < |states|
    ensures Inv(states[k])
    ensures forall i, j ::
              i in states[k].calls && j in states[k].calls && states[k].calls[i].stay == states[k].calls[j].stay ==>
                i == j
    ensures states[k].owed ==> || !states[k].HasSession() || !states[k].available || states[k].CommandInFlight()
                               || (states[k].reading.Some? && states[k].fetches[states[k].reading.value].again)
  {
    if k > 0 {
      ReachableInv(states, events, k - 1);
      assert Enabled(states[k - 1], events[k - 1]);
      StepKeeps(states[k - 1], events[k - 1]);
    }
  }

  lemma StepNewer(c: Client, e: Event)
    requires Inv(c) && Enabled(c, e)
    ensures c.stay <= Step(c, e).stay
    ensures c.stay == Step(c, e).stay ==> Newer(c.current, Step(c, e).current)
  {
    match e {
      case ReadReplyEvent(id, reply) => ReadShows(c, id, reply);
      case CommandReplyEvent(id, reply) => CommandShows(c, id, reply);
      case _ =>
    }
  }

  /** While a scope is held, over any number of steps, the shown queue never disappears and never steps back. */
  lemma {:induction false} RevisionsNeverDecrease(states: seq<Client>, events: seq<Event>, i: nat, j: nat)
    requires IsRun(states, events) && i <= j < |states|
    ensures states[i].stay <= states[j].stay
    ensures states[i].stay == states[j].stay ==> Newer(states[i].current, states[j].current)
    decreases j
  {
    if i < j {
      RevisionsNeverDecrease(states, events, i, j - 1);
      ReachableInv(states, events, j - 1);
      StepNewer(states[j - 1], events[j - 1]);
    }
  }
}
