/** The client of `InputQueue` against the Host ledger of `InputStore`, over a network that may lose,
    delay or drop requests and lose or delay replies, with other pages and the Host's own scheduler
    working on the same ledger. */
module ExactlyOnce {
  import opened Options
  import opened InputContracts
  import opened InputStore
  import opened InputQueue
  import opened Text

  /** Where and with which content an input entered the ledger. */
  datatype Push = Push(scope: Scope, content: Content)

  /** `published` holds every queue the ledger ever returned or stored; `pushes` counts, per identity,
      how many records were appended. Both are history. */
  datatype Host = Host(shards: Shards, published: set<Queue>, pushes: multiset<string>, pushed: map<string, Push>)

  /** `posts` are requests the Host has not served yet; `bound` the contents this page gave its identities. */
  datatype System = System(client: Client, host: Host, posts: map<nat, Command>, bound: map<string, Content>)

  datatype Move =
    | ClientMove(event: Event)
    | Serve(id: nat, scope: Scope)
    | Refuse(id: nat)
    | HostMove(op: StoreOp)

  /** The ledger operation behind a browser command. Resuming and reconciling reach the ledger only
      through the scheduler's own transitions, which are `HostMove`s. */
  function ToOp(command: Command, scope: Scope): Option<StoreOp> {
    match command
    case Enqueue(_, _, input, expected) => Some(AdmitOp(scope, input, expected))
    case Supplement(_, _, input, expected) => Some(AdmitOp(scope, input, expected))
    case Edit(_, input, expected, expectedInput) => Some(EditOp(scope, input, expected, expectedInput))
    case Remove(_, id, expected, expectedInput) =>
      Some(TransitionOp(scope, id, expected, expectedInput, Change(Removed, None, None, None)))
    case Resume(_, _) => None
    case Reconcile(_, _) => None
  }

  predicate Appended(host: Host, op: StoreOp) {
    op.AdmitOp? && Perform(host.shards, op).Stored? && !Listed(ReadQueue(host.shards, op.scope), op.input.inputId)
  }

  function Apply(host: Host, op: StoreOp): Host {
    var result := Perform(host.shards, op);
    if result.Refused? then host
    else Noted(host, op.scope, result.shards, result.queue, if Appended(host, op) then Some(op.input) else None)
  }

  /** The history kept of one stored result: `added` is the content of an appended record. */
  function Noted(host: Host, scope: Scope, shards: Shards, queue: Queue, added: Option<Content>): Host {
    Host(shards, host.published + {queue},
         if added.Some? then host.pushes + multiset{added.value.inputId} else host.pushes,
         if added.Some? then host.pushed[added.value.inputId := Push(scope, added.value)] else host.pushed)
  }

  /** A queue the Host could have answered with, now or at any earlier time. */
  predicate Truthful(host: Host, queue: Queue) {
    queue in host.published || queue == Queue(0, queue.scope, [])
  }

  /** The identity of a new input was never used by anybody, or belongs to this very content. */
  predicate IdentityBindsContent(s: System, command: Command) {
    command.Introduces() ==>
      if command.input.inputId in s.bound then s.bound[command.input.inputId] == command.input
      else command.input.inputId !in s.host.pushed
  }

  predicate CanMove(s: System, m: Move) {
    match m
    case ClientMove(e) =>
      && InputQueue.Enabled(s.client, e)
      && (e.ReadReplyEvent? && e.reply.Answer? ==> Truthful(s.host, e.reply.queue))
      && (e.CommandReplyEvent? && e.reply.Answer? ==> Truthful(s.host, e.reply.queue))
      && (e.ActEvent? ==> IdentityBindsContent(s, e.command))
    case Serve(id, _) => id in s.posts
    case Refuse(id) => id in s.posts
    case HostMove(op) => op.AdmitOp? ==> op.input.inputId !in s.bound
  }

  function After(s: System, m: Move): System
    requires CanMove(s, m)
  {
    match m
    case ClientMove(e) =>
      var client := InputQueue.Step(s.client, e);
      if e.ActEvent? && Admits(s.client) then
        System(client, s.host, s.posts[s.client.nextId := e.command],
               if e.command.Introduces() then s.bound[e.command.input.inputId := e.command.input] else s.bound)
      else s.(client := client)
    case Serve(id, scope) =>
      var op := ToOp(s.posts[id], scope);
      s.(posts := s.posts - {id}, host := if op.Some? then Apply(s.host, op.value) else s.host)
    case Refuse(id) => s.(posts := s.posts - {id})
    case HostMove(op) => s.(host := Apply(s.host, op))
  }

  // ---- The Host's side ----

  /** Every identity was appended once if at all. */
  ghost predicate Counted(pushes: multiset<string>, pushed: map<string, Push>) {
    forall id :: pushes[id] == if id in pushed then 1 else 0
  }

  ghost predicate Kept(shards: Shards, pushed: map<string, Push>) {
    forall id :: id in pushed ==> Listed(ReadQueue(shards, pushed[id].scope), id)
  }

  ghost predicate Known(queue: Queue, pushed: map<string, Push>) {
    forall id :: Listed(queue, id) ==> id in pushed && pushed[id].scope == queue.scope
  }

  ghost predicate Accounted(host: Host) {
    && Counted(host.pushes, host.pushed)
    && Kept(host.shards, host.pushed)
    && (forall scope :: scope in host.shards ==> Known(host.shards[scope], host.pushed))
    && (forall queue :: queue in host.published ==> Known(queue, host.pushed))
  }

  ghost predicate LedgerInv(host: Host) { StoreValid(host.shards) && Accounted(host) }

  lemma ListedPersists(before: Queue, after: Queue, id: string)
    requires Extends(before, after) && Listed(before, id)
    ensures Listed(after, id)
  {
    var i :| 0 <= i < |before.items| && before.items[i].content.inputId == id;
    assert after.items[i].content.inputId == id;
  }

  /** An append really is new: the ledger had no record of that identity in any scope. */
  lemma AppendIsNew(host: Host, op: StoreOp)
    requires LedgerInv(host) && Appended(host, op)
    ensures op.input.inputId !in host.pushed
  {
    var id := op.input.inputId;
    assert id in host.pushed ==> Listed(ReadQueue(host.shards, host.pushed[id].scope), id);
  }

  lemma KnownGrows(queue: Queue, pushed: map<string, Push>, id: string, push: Push)
    requires Known(queue, pushed) && id !in pushed
    ensures Known(queue, pushed[id := push])
  {
  }

  lemma {:induction false} NotedKeeps(host: Host, scope: Scope, shards: Shards, queue: Queue, added: Option<Content>)
    requires Accounted(host) && queue.scope == scope
    requires shards == host.shards || shards == host.shards[scope := queue]
    requires added.Some? ==> added.value.inputId !in host.pushed
    requires var next := Noted(host, scope, shards, queue, added);
             Kept(shards, next.pushed) && Known(queue, next.pushed)
    ensures Accounted(Noted(host, scope, shards, queue, added))
  {
    var next := Noted(host, scope, shards, queue, added);
    forall q | Known(q, host.pushed) ensures Known(q, next.pushed) {
      if added.Some? {
        KnownGrows(q, host.pushed, added.value.inputId, Push(scope, added.value));
      }
    }
  }

  lemma ApplyKeepsListings(host: Host, op: StoreOp)
    requires LedgerInv(host) && Perform(host.shards, op).Stored?
    ensures Kept(Apply(host, op).shards, Apply(host, op).pushed)
  {
    var next := Apply(host, op);
    forall id | id in next.pushed ensures Listed(ReadQueue(next.shards, next.pushed[id].scope), id) {
      if id in host.pushed {
        OldListingKept(host, op, id);
      } else {
        AppendLists(host, op);
      }
    }
  }

  lemma OldListingKept(host: Host, op: StoreOp, id: string)
    requires LedgerInv(host) && Perform(host.shards, op).Stored? && id in host.pushed
    ensures id in Apply(host, op).pushed && Apply(host, op).pushed[id] == host.pushed[id]
    ensures Listed(ReadQueue(Apply(host, op).shards, host.pushed[id].scope), id)
  {
    assert id in Apply(host, op).pushed && Apply(host, op).pushed[id] == host.pushed[id] by {
      ApplyGrows(host, op, id);
    }
    var scope := host.pushed[id].scope;
    assert Extends(ReadQueue(host.shards, scope), ReadQueue(Apply(host, op).shards, scope)) by {
      OpKeepsStore(host.shards, op);
    }
    ListedPersists(ReadQueue(host.shards, scope), ReadQueue(Apply(host, op).shards, scope), id);
  }

  lemma ApplyKnows(host: Host, op: StoreOp)
    requires LedgerInv(host) && Perform(host.shards, op).Stored?
    ensures Known(Perform(host.shards, op).queue, Apply(host, op).pushed)
  {
    var queue := Perform(host.shards, op).queue;
    assert queue.scope == op.scope by { StoredSomewhere(host.shards, op); }
    forall id | Listed(queue, id) ensures id in Apply(host, op).pushed && Apply(host, op).pushed[id].scope == op.scope {
      ListedIsKnown(host, op, id);
    }
  }

  lemma ListedIsKnown(host: Host, op: StoreOp, id: string)
    requires LedgerInv(host) && Perform(host.shards, op).Stored? && Listed(Perform(host.shards, op).queue, id)
    ensures id in Apply(host, op).pushed && Apply(host, op).pushed[id].scope == op.scope
  {
    NewlyListed(host.shards, op, id);
    if Listed(ReadQueue(host.shards, op.scope), id) {
      assert Known(host.shards[op.scope], host.pushed);
      ApplyGrows(host, op, id);
    }
  }

  lemma StoredSomewhere(shards: Shards, op: StoreOp)
    requires StoreValid(shards) && Perform(shards, op).Stored?
    ensures var result := Perform(shards, op);
            result.queue.scope == op.scope
              && (result.shards == shards || result.shards == shards[op.scope := result.queue])
  {
    OpShape(shards, op);
  }

  lemma ApplyAccounts(host: Host, op: StoreOp)
    requires LedgerInv(host) && Perform(host.shards, op).Stored?
    ensures Accounted(Apply(host, op))
  {
    var result := Perform(host.shards, op);
    StoredSomewhere(host.shards, op);
    ApplyKeepsListings(host, op);
    ApplyKnows(host, op);
    if Appended(host, op) {
      AppendIsNew(host, op);
      NotedKeeps(host, op.scope, result.shards, result.queue, Some(op.input));
    } else {
      NotedKeeps(host, op.scope, result.shards, result.queue, None);
    }
  }

  lemma ApplyKeepsLedger(host: Host, op: StoreOp)
    requires LedgerInv(host)
    ensures LedgerInv(Apply(host, op))
  {
    if Perform(host.shards, op).Stored? {
      assert StoreValid(Apply(host, op).shards) by { OpKeepsStore(host.shards, op); }
      ApplyAccounts(host, op);
    }
  }

  lemma AppendLists(host: Host, op: StoreOp)
    requires LedgerInv(host) && Appended(host, op)
    ensures Listed(ReadQueue(Perform(host.shards, op).shards, op.scope), op.input.inputId)
  {
    OpShape(host.shards, op);
    var before, after := ReadQueue(host.shards, op.scope), Perform(host.shards, op).queue;
    assert after.items[|before.items|].content == op.input;
  }

  /** The ledger only grows, and only an admission adds an identity. */
  lemma ApplyGrows(host: Host, op: StoreOp, id: string)
    requires LedgerInv(host)
    ensures host.published <= Apply(host, op).published
    ensures id in host.pushed ==> id in Apply(host, op).pushed && Apply(host, op).pushed[id] == host.pushed[id]
    ensures id in Apply(host, op).pushed && id !in host.pushed ==>
              op.AdmitOp? && id == op.input.inputId && Apply(host, op).pushed[id].content == op.input
  {
    if Appended(host, op) {
      AppendIsNew(host, op);
    }
  }

  // ---- The whole system ----

  /** The command carries a content this page bound to its identity. */
  predicate Bound(command: Command, bound: map<string, Content>) {
    command.Introduces() ==> command.input.inputId in bound && bound[command.input.inputId] == command.input
  }

  ghost predicate ClientBound(c: Client, bound: map<string, Content>) {
    && (c.pending.Some? ==> Bound(c.pending.value.command, bound))
    && (c.shown.confirmed.Some? ==> Bound(c.shown.confirmed.value.command, bound))
  }

  /** What the shown confirmation rests on. */
  ghost predicate Evidence(c: Client, host: Host) {
    c.shown.confirmed.Some? ==>
      var Confirmation(command, queue) := c.shown.confirmed.value;
      Truthful(host, queue) && (command.HasInput() ==> Confirms(queue, command))
  }

  ghost predicate PostsBound(posts: map<nat, Command>, bound: map<string, Content>) {
    forall id :: id in posts ==> Bound(posts[id], bound)
  }

  /** What the ledger holds under an identity of this page is what this page submitted under it. */
  ghost predicate OwnContent(pushed: map<string, Push>, bound: map<string, Content>) {
    forall id :: id in pushed && id in bound ==> pushed[id].content == bound[id]
  }

  ghost predicate SysInv(s: System) {
    && Inv(s.client) && LedgerInv(s.host)
    && ClientBound(s.client, s.bound) && PostsBound(s.posts, s.bound) && OwnContent(s.host.pushed, s.bound)
    && Evidence(s.client, s.host)
  }

  const Start: System := System(Fresh, Host(map[], {}, multiset{}, map[]), map[], map[])

  lemma ApplyKeepsSystem(s: System, op: StoreOp)
    requires SysInv(s)
    requires op.AdmitOp? && op.input.inputId in s.bound ==> s.bound[op.input.inputId] == op.input
    ensures SysInv(s.(host := Apply(s.host, op)))
  {
    var next := Apply(s.host, op);
    ApplyKeepsLedger(s.host, op);
    ApplyGrows(s.host, op, "");
    forall id | id in next.pushed && id in s.bound ensures next.pushed[id].content == s.bound[id] {
      ApplyGrows(s.host, op, id);
    }
  }

  lemma ClientKeepsSystem(s: System, e: Event)
    requires SysInv(s) && CanMove(s, ClientMove(e)) && !(e.ActEvent? && Admits(s.client))
    ensures SysInv(s.(client := InputQueue.Step(s.client, e)))
  {
    var next := InputQueue.Step(s.client, e);
    StepKeeps(s.client, e);
    assert ClientBound(next, s.bound) && Evidence(next, s.host) by {
      ConfirmationSource(s.client, e);
      if next.pending.Some? {
        SlotSource(s.client, e);
      }
    }
  }

  lemma ActKeepsSystem(s: System, command: Command)
    requires SysInv(s) && CanMove(s, ClientMove(ActEvent(command))) && Admits(s.client)
    ensures SysInv(After(s, ClientMove(ActEvent(command))))
  {
    var next := After(s, ClientMove(ActEvent(command)));
    StepKeeps(s.client, ActEvent(command));
    assert next.client.shown.confirmed == s.client.shown.confirmed;
    assert forall id :: id in s.bound ==> id in next.bound && next.bound[id] == s.bound[id];
  }

  lemma MoveKeeps(s: System, m: Move)
    requires SysInv(s) && CanMove(s, m)
    ensures SysInv(After(s, m))
  {
    match m
    case ClientMove(e) =>
      if e.ActEvent? && Admits(s.client) {
        ActKeepsSystem(s, e.command);
      } else {
        ClientKeepsSystem(s, e);
      }
    case Serve(id, scope) =>
      var op := ToOp(s.posts[id], scope);
      if op.Some? {
        ApplyKeepsSystem(s, op.value);
      }
    case Refuse(id) =>
    case HostMove(op) => ApplyKeepsSystem(s, op);
  }

  ghost predicate IsSystemRun(states: seq<System>, moves: seq<Move>) {
    && |states| == |moves| + 1 && states[0] == Start
    && forall i {:trigger moves[i]} :: 0 <= i < |moves| ==>
         CanMove(states[i], moves[i]) && states[i + 1] == After(states[i], moves[i])
  }

  lemma {:induction false} ReachableSystem(states: seq<System>, moves: seq<Move>, k: nat)
    requires IsSystemRun(states, moves) && k < |states|
    ensures SysInv(states[k])
  {
    if k > 0 {
      ReachableSystem(states, moves, k - 1);
      MoveKeeps(states[k - 1], moves[k - 1]);
    }
  }

  /** In every state of every run, whatever was lost or delayed: no identity of this page is in the
      ledger twice, and a confirmed submission is there exactly once, with the submitted content,
      in the scope that confirmed it. */
  lemma ConfirmedExactlyOnce(states: seq<System>, moves: seq<Move>, k: nat)
    requires IsSystemRun(states, moves) && k < |states|
    ensures forall id :: states[k].host.pushes[id] <= 1
    ensures var s := states[k];
            s.client.shown.confirmed.Some? && s.client.shown.confirmed.value.command.Introduces() ==>
              var Confirmation(command, queue) := s.client.shown.confirmed.value;
              var id := command.input.inputId;
              && s.host.pushes[id] == 1 && id in s.host.pushed
              && s.host.pushed[id].content == command.input
              && Listed(ReadQueue(s.host.shards, queue.scope), id)
  {
    ReachableSystem(states, moves, k);
    var s := states[k];
    if s.client.shown.confirmed.Some? && s.client.shown.confirmed.value.command.Introduces() {
      var Confirmation(command, queue) := s.client.shown.confirmed.value;
      ConfirmationIsFullContent(queue, command);
      assert Known(queue, s.host.pushed);
    }
  }

  // ---- What must happen ----

  /** A command is on its way from its admission until the Host serves or refuses it, once. */
  lemma CommandsTravelOnce(s: System, m: Move)
    requires SysInv(s) && CanMove(s, m)
    ensures var after := After(s, m).posts;
            if m.ClientMove? && m.event.ActEvent? && s.client.pending.None? && s.client.available
              && s.client.HasSession() then
              after == s.posts[s.client.nextId := m.event.command]
            else if m.Serve? || m.Refuse? then after == s.posts - {m.id}
            else after == s.posts
  {
  }

  /** The ledger changes only by the operations of commands that are served and by the Host's own, each of them
      fully. */
  lemma LedgerMoves(s: System, m: Move)
    requires SysInv(s) && CanMove(s, m)
    ensures var op := if m.Serve? then ToOp(s.posts[m.id], m.scope) else if m.HostMove? then Some(m.op) else None;
            After(s, m).host.shards == if op.Some? then InputStore.After(s.host.shards, op.value) else s.host.shards
  {
    match m {
      case ClientMove(_) =>
      case Serve(id, scope) =>
        if ToOp(s.posts[id], scope).Some? { ApplyStores(s.host, ToOp(s.posts[id], scope).value); }
      case Refuse(_) =>
      case HostMove(op) => ApplyStores(s.host, op);
    }
  }

  lemma ApplyStores(host: Host, op: StoreOp)
    ensures Apply(host, op).shards == InputStore.After(host.shards, op)
  {
  }

  /** Whatever the ledger does for a command is evidence for it: the queue it stores confirms the command. */
  lemma AppliedConfirms(shards: Shards, command: Command, scope: Scope)
    requires StoreValid(shards) && ToOp(command, scope).Some? && Perform(shards, ToOp(command, scope).value).Stored?
    ensures Confirms(Perform(shards, ToOp(command, scope).value).queue, command)
  {
    var op := ToOp(command, scope).value;
    var before, after := ReadQueue(shards, scope), Perform(shards, op).queue;
    if op.AdmitOp? {
      var i := AdmittedContent(shards, op);
      StoredDistinct(shards, op);
      FoundUnique(after.items, i);
    } else if op.EditOp? {
      var i := IndexOf(before.items, op.input.inputId);
      EditStoresExactly(shards, op, i);
      StoredDistinct(shards, op);
      FoundUnique(after.items, i);
    } else {
      var i := IndexOf(before.items, op.id);
      TransitionStoresExactly(shards, op, i);
      assert after.items[i].state == Removed;
    }
  }

  /** With distinct identities, evidence for a command is a matter of the one record of its identity. */
  lemma ConfirmsExactly(queue: Queue, command: Command, i: nat)
    requires DistinctIds(queue.items) && i < |queue.items| && !command.Resume?
    requires queue.items[i].content.inputId == if command.HasInput() then command.input.inputId else command.inputId
    ensures var item := queue.items[i];
            Confirms(queue, command) <==>
              match command
              case Enqueue(_, _, input, _) => item.content == input
              case Supplement(_, _, input, _) => item.content == input
              case Edit(_, input, _, expected) => item.content == input && expected < item.revision
              case Remove(_, _, _, expected) => item.state == Removed && expected < item.revision
              case Reconcile(_, _) => item.state == Consumed
              case Resume(_, _) => true
  {
    if command.HasInput() {
      FoundUnique(queue.items, i);
      SameInputIsEquality(queue.items[i].content, command.input);
    } else {
      assert forall k :: 0 <= k < |queue.items| && queue.items[k].content.inputId == command.inputId ==> k == i;
    }
  }

  /** Without a record there is no evidence, and a resumption needs a later queue with nothing left to send. */
  lemma ConfirmsNothingElse(queue: Queue, command: Command)
    ensures !command.Resume? ==>
              var id := if command.HasInput() then command.input.inputId else command.inputId;
              Listed(queue, id) || !Confirms(queue, command)
    ensures command.Resume? ==>
              (Confirms(queue, command) <==>
                 && command.expectedRevision < queue.revision
                 && forall i :: 0 <= i < |queue.items| ==>
                      queue.items[i].state != Queued && queue.items[i].state != Paused)
  {
  }

  lemma StoredDistinct(shards: Shards, op: StoreOp)
    requires StoreValid(shards) && Perform(shards, op).Stored?
    ensures DistinctIds(Perform(shards, op).queue.items)
  {
    OpShape(shards, op);
  }

  lemma FoundUnique(items: seq<Record>, i: nat)
    requires DistinctIds(items) && i < |items|
    ensures FindInput(items, items[i].content.inputId) == Some(items[i])
  {
    var found := FindInput(items, items[i].content.inputId);
    assert found.Some?;
    var k :| 0 <= k < |items| && items[k] == found.value;
  }

  lemma AdmittedContent(shards: Shards, op: StoreOp) returns (i: nat)
    requires StoreValid(shards) && op.AdmitOp? && Perform(shards, op).Stored?
    ensures var items := Perform(shards, op).queue.items; i < |items| && items[i].content == op.input
  {
    AdmitStoresExactly(shards, op.scope, op.input, op.expected);
    var before := ReadQueue(shards, op.scope);
    if Listed(before, op.input.inputId) {
      i :| i < |before.items| && before.items[i].content == op.input;
    } else {
      i := |before.items|;
    }
  }

  /** The client may submit a new input that the ledger will take: it is connected, its slot is free, the identity
      is new, and it expects the revision the ledger has. */
  ghost predicate MaySubmit(s: System, target: Target, predecessor: string, input: Content) {
    && s.client.active.Some? && s.client.pending.None? && s.client.available && s.client.HasSession()
    && input.inputId !in s.bound && input.inputId !in s.host.pushed
    && !(Blank(input.text) && input.materials == [])
    && var queue := ReadQueue(s.host.shards, Scope(s.client.active.value.projectId, s.client.active.value.sessionId));
       && queue.revision < MAX_SAFE_INTEGER && |queue.items| < RECORD_LIMIT
       && (s.client.current.Some? ==> s.client.current.value.revision <= queue.revision)
  }

  lemma NewIsUnlisted(host: Host, id: string)
    requires LedgerInv(host) && id !in host.pushed
    ensures forall scope :: !Listed(ReadQueue(host.shards, scope), id)
    ensures forall scope :: !ListedElsewhere(host.shards, scope, id)
  {
    forall scope ensures !Listed(ReadQueue(host.shards, scope), id) {
      assert scope in host.shards ==> Known(host.shards[scope], host.pushed);
    }
    assert forall scope :: scope in host.shards ==> ReadQueue(host.shards, scope) == host.shards[scope];
  }

  lemma NewIsStored(host: Host, scope: Scope, input: Content)
    requires LedgerInv(host) && input.inputId !in host.pushed && scope.sessionId.Some?
    requires var queue := ReadQueue(host.shards, scope);
             queue.revision < MAX_SAFE_INTEGER && |queue.items| < RECORD_LIMIT
    requires !(Blank(input.text) && input.materials == [])
    ensures var queue := ReadQueue(host.shards, scope);
            var op := AdmitOp(scope, input, queue.revision);
            && Appended(host, op) && Perform(host.shards, op).queue.revision == queue.revision + 1
            && Perform(host.shards, op).queue.scope == scope
            && Apply(host, op).pushed == host.pushed[input.inputId := Push(scope, input)]
            && Perform(host.shards, op).queue in Apply(host, op).published
  {
    NewIsUnlisted(host, input.inputId);
    AdmitStoresExactly(host.shards, scope, input, ReadQueue(host.shards, scope).revision);
  }

  /** A submission that nothing disturbs: it is sent, the ledger appends it once, and the answer settles it. */
  lemma SubmissionCompletes(s: System, target: Target, predecessor: string, input: Content)
    requires SysInv(s) && MaySubmit(s, target, predecessor, input)
    ensures var id, key := s.client.nextId, s.client.active.value;
            var scope := Scope(key.projectId, key.sessionId);
            var command := Enqueue(target, predecessor, input, ReadQueue(s.host.shards, scope).revision);
            && CanMove(s, ClientMove(ActEvent(command)))
            && var sent := After(s, ClientMove(ActEvent(command)));
               CanMove(sent, Serve(id, scope))
               && var served := After(sent, Serve(id, scope));
                  var queue := ReadQueue(served.host.shards, scope);
                  && Listed(queue, input.inputId) && served.host.pushes[input.inputId] == 1
                  && CanMove(served, ClientMove(CommandReplyEvent(id, Answer(queue))))
                  && var told := After(served, ClientMove(CommandReplyEvent(id, Answer(queue)))).client;
                     && told.pending.None? && !told.shown.busy && !told.shown.uncertain && told.current == Some(queue)
                     && told.shown.confirmed == Some(Confirmation(command, queue))
  {
    var id, key := s.client.nextId, s.client.active.value;
    var scope := Scope(key.projectId, key.sessionId);
    var command := Enqueue(target, predecessor, input, ReadQueue(s.host.shards, scope).revision);
    var op := ToOp(command, scope).value;
    ActOvertakes(s.client, command);
    var sent := After(s, ClientMove(ActEvent(command)));
    assert sent.posts[id] == command && sent.host == s.host;
    NewIsStored(s.host, scope, input);
    AppliedConfirms(s.host.shards, command, scope);
    MoveKeeps(s, ClientMove(ActEvent(command)));
    MoveKeeps(sent, Serve(id, scope));
    var served := After(sent, Serve(id, scope));
    assert served.host == Apply(s.host, op) && served.client == sent.client;
    var queue := Perform(s.host.shards, op).queue;
    ReadsStored(s.host.shards, op);
    AppendLists(s.host, op);
    LiveCommandSettles(sent.client, id, Answer(queue));
  }

  lemma ReadsStored(shards: Shards, op: StoreOp)
    requires StoreValid(shards) && Perform(shards, op).Stored?
    ensures ReadQueue(Perform(shards, op).shards, op.scope) == Perform(shards, op).queue
  {
    OpShape(shards, op);
  }
}
