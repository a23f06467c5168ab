/** The Host's private input ledger (packages/host/input-store.mjs): one revisioned queue
    per scope, changed only by compare-and-set operations that validate what they publish. */
module InputStore {
  import opened Options
  import opened InputContracts
  import opened Text

  const MAX_SAFE_INTEGER := 9007199254740991
  const RECORD_LIMIT := 1000

  type Shards = map<Scope, Queue>

  /** A refused operation publishes nothing. */
  datatype StoreResult = Stored(shards: Shards, queue: Queue) | Refused(code: string)

  datatype Change = Change(state: InputState, taskId: Option<string>, consumedEntryId: Option<string>,
    pauseReason: Option<string>)

  function ReadQueue(shards: Shards, scope: Scope): Queue {
    if scope in shards then shards[scope] else Queue(0, scope, [])
  }

  // ---- What `validateInputShard` demands of a published queue ----

  predicate RecordValid(r: Record, queue: Queue) {
    && 1 <= r.revision <= queue.revision
    && r.scope == queue.scope
    && r.state != Draft
    && (r.state == Consumed <==> r.consumedEntryId.Some?)
    && (r.state in {Accepted, Consumed} ==> r.taskId.Some?)
    && (r.state in {Queued, Paused, Removed} ==> r.taskId.None?)
    && (r.state in {Paused, Unknown} <==> r.pauseReason.Some?)
  }

  predicate DistinctIds(items: seq<Record>) {
    forall i, j :: 0 <= i < j < |items| ==> items[i].content.inputId != items[j].content.inputId
  }

  predicate QueueValid(queue: Queue) {
    && (queue.items != [] ==> queue.revision >= 1 && queue.scope.sessionId.Some?)
    && |queue.items| <= RECORD_LIMIT
    && queue.revision <= MAX_SAFE_INTEGER
    && DistinctIds(queue.items)
    && forall i :: 0 <= i < |queue.items| ==> RecordValid(queue.items[i], queue)
  }

  /** Every shard is valid and filed under its scope, and an identity belongs to one scope. */
  ghost predicate StoreValid(shards: Shards) {
    && (forall scope :: scope in shards ==> shards[scope].scope == scope && QueueValid(shards[scope]))
    && (forall a, b, id :: a in shards && b in shards && Listed(shards[a], id) && Listed(shards[b], id) ==> a == b)
  }

  // ---- The four operations ----

  function Publish(shards: Shards, queue: Queue): StoreResult {
    if QueueValid(queue) then Stored(shards[queue.scope := queue], queue) else Refused("INPUT_STATE_INVALID")
  }

  predicate ListedElsewhere(shards: Shards, scope: Scope, id: string) {
    exists other :: other in shards && other != scope && Listed(shards[other], id)
  }

  predicate Empty(input: Content) { Blank(input.text) && input.materials == [] }

  function CompareRevision(queue: Queue, expected: nat): Option<string> {
    if expected > MAX_SAFE_INTEGER then Some("INPUT_REVISION_INVALID")
    else if queue.revision != expected then Some("INPUT_REVISION_CONFLICT")
    else None
  }

  function CompareItem(item: Record, expected: nat): Option<string> {
    if expected > MAX_SAFE_INTEGER || expected < 1 then Some("INPUT_REVISION_INVALID")
    else if item.revision != expected then Some("INPUT_REVISION_CONFLICT")
    else None
  }

  function Admit(shards: Shards, scope: Scope, input: Content, expected: nat): StoreResult {
    var queue := ReadQueue(shards, scope);
    if ListedElsewhere(shards, scope, input.inputId) then Refused("INPUT_ID_CONFLICT")
    else match FindInput(queue.items, input.inputId)
      case Some(prior) => if prior.content == input then Stored(shards, queue) else Refused("INPUT_ID_CONFLICT")
      case None =>
        var stale := CompareRevision(queue, expected);
        if stale.Some? then Refused(stale.value)
        else if Empty(input) then Refused("INPUT_EMPTY")
        else if |queue.items| >= RECORD_LIMIT then Refused("INPUT_QUEUE_LIMIT")
        else if scope.sessionId.None? then Refused("INPUT_SESSION_REQUIRED")
        else if queue.revision >= MAX_SAFE_INTEGER then Refused("INPUT_REVISION_EXHAUSTED")
        else Publish(shards, Queue(queue.revision + 1, scope,
          queue.items + [Record(input, scope, 1, None, Queued, None, None)]))
  }

  /** The position `find` stops at, or the length. */
  function IndexOf(items: seq<Record>, id: string): (i: nat)
    ensures i <= |items|
    ensures i < |items| ==> items[i].content.inputId == id
    ensures forall k :: 0 <= k < i ==> items[k].content.inputId != id
  {
    if items == [] || items[0].content.inputId == id then 0 else 1 + IndexOf(items[1..], id)
  }

  /** Publishes `items[i]` with one more revision, and the queue with one more. */
  function Revise(shards: Shards, queue: Queue, i: nat, item: Record): StoreResult
    requires i < |queue.items|
  {
    if queue.items[i].revision >= MAX_SAFE_INTEGER || queue.revision >= MAX_SAFE_INTEGER then
      Refused("INPUT_REVISION_EXHAUSTED")
    else Publish(shards, Queue(queue.revision + 1, queue.scope,
      queue.items[i := item.(revision := queue.items[i].revision + 1)]))
  }

  function EditQueued(shards: Shards, scope: Scope, input: Content, expected: nat, expectedInput: nat): StoreResult {
    var queue := ReadQueue(shards, scope);
    var i := IndexOf(queue.items, input.inputId);
    if i == |queue.items| then Refused("INPUT_NOT_FOUND") else
    var item := queue.items[i];
    var stale, staleItem := CompareRevision(queue, expected), CompareItem(item, expectedInput);
    if stale.Some? then Refused(stale.value)
    else if staleItem.Some? then Refused(staleItem.value)
    else if item.state !in {Queued, Paused} then Refused("INPUT_NOT_EDITABLE")
    else if input.delivery != item.content.delivery then Refused("INPUT_DELIVERY_CONFLICT")
    else if Empty(input) then Refused("INPUT_EMPTY")
    else Revise(shards, queue, i, item.(content := input))
  }

  function Successors(state: InputState): set<InputState> {
    match state
    case Queued => {Dispatching, Paused, Removed}
    case Paused => {Queued, Removed}
    case Dispatching => {Accepted, Consumed, Unknown}
    case Accepted => {Consumed, Unknown}
    case Unknown => {Consumed}
    case _ => {}
  }

  function Changed(item: Record, change: Change): Record {
    item.(state := change.state,
          taskId := if change.taskId.Some? then change.taskId else item.taskId,
          consumedEntryId := change.consumedEntryId,
          pauseReason := if change.state in {Paused, Unknown} then change.pauseReason else None)
  }

  function Transition(shards: Shards, scope: Scope, id: string, expected: nat, expectedInput: nat,
      change: Change): StoreResult {
    var queue := ReadQueue(shards, scope);
    var i := IndexOf(queue.items, id);
    if i == |queue.items| then Refused("INPUT_NOT_FOUND") else
    var item := queue.items[i];
    var stale, staleItem := CompareRevision(queue, expected), CompareItem(item, expectedInput);
    if stale.Some? then Refused(stale.value)
    else if staleItem.Some? then Refused(staleItem.value)
    else if change.state !in Successors(item.state) then Refused("INPUT_TRANSITION_INVALID")
    else if change.taskId.Some? && item.taskId.Some? && change.taskId != item.taskId then Refused("INPUT_TASK_CONFLICT")
    else Revise(shards, queue, i, Changed(item, change))
  }

  /** What a restart makes of one record: nothing undelivered stays eligible, nothing in flight stays certain. */
  function Recovered(item: Record): Record {
    match item.state
    case Queued => item.(state := Paused, pauseReason := Some("HOST_RESTARTED"), revision := item.revision + 1)
    case Dispatching => item.(state := Unknown, pauseReason := Some("HOST_RESTARTED"), revision := item.revision + 1)
    case Accepted => item.(state := Unknown, pauseReason := Some("HOST_RESTARTED"), revision := item.revision + 1)
    case _ => item
  }

  function RecoveredItems(items: seq<Record>): (recovered: seq<Record>)
    ensures |recovered| == |items| && forall i :: 0 <= i < |items| ==> recovered[i] == Recovered(items[i])
  {
    seq(|items|, i requires 0 <= i < |items| => Recovered(items[i]))
  }

  function RecoverQueue(shards: Shards, scope: Scope): StoreResult {
    var queue := ReadQueue(shards, scope);
    var items := RecoveredItems(queue.items);
    if items == queue.items then Stored(shards, queue)
    else if queue.revision >= MAX_SAFE_INTEGER then Refused("INPUT_REVISION_EXHAUSTED")
    else Publish(shards, Queue(queue.revision + 1, scope, items))
  }

  // ---- Runs ----

  datatype StoreOp =
    | AdmitOp(scope: Scope, input: Content, expected: nat)
    | EditOp(scope: Scope, input: Content, expected: nat, expectedInput: nat)
    | TransitionOp(scope: Scope, id: string, expected: nat, expectedInput: nat, change: Change)
    | RecoverOp(scope: Scope)

  function Perform(shards: Shards, op: StoreOp): StoreResult {
    match op
    case AdmitOp(scope, input, expected) => Admit(shards, scope, input, expected)
    case EditOp(scope, input, expected, expectedInput) => EditQueued(shards, scope, input, expected, expectedInput)
    case TransitionOp(scope, id, expected, expectedInput, change) =>
      Transition(shards, scope, id, expected, expectedInput, change)
    case RecoverOp(scope) => RecoverQueue(shards, scope)
  }

  function After(shards: Shards, op: StoreOp): Shards {
    var result := Perform(shards, op);
    if result.Stored? then result.shards else shards
  }

  function RunOps(shards: Shards, ops: seq<StoreOp>): Shards
    decreases |ops|
  {
    if ops == [] then shards else RunOps(After(shards, ops[0]), ops[1..])
  }

  /** What one operation does to the queue of its scope: nothing, one new record at the end, or
      a later revision with the same identities in the same places. */
  ghost predicate Extends(before: Queue, after: Queue) {
    && after.scope == before.scope && before.revision <= after.revision && |before.items| <= |after.items|
    && forall i :: 0 <= i < |before.items| ==>
         after.items[i].content.inputId == before.items[i].content.inputId
           && before.items[i].revision <= after.items[i].revision
  }

  /** Whether `after` differs from `before` by one record with a new identity. */
  ghost predicate Appends(shards: Shards, op: StoreOp, before: Queue, after: Queue) {
    && op.AdmitOp?
    && !ListedElsewhere(shards, op.scope, op.input.inputId) && !Listed(before, op.input.inputId)
    && |after.items| == |before.items| + 1 && after.items[|before.items|].content == op.input
    && after.items[|before.items|].state == Queued
  }

  ghost predicate Shape(shards: Shards, op: StoreOp, result: StoreResult)
    requires result.Stored?
  {
    var before := ReadQueue(shards, op.scope);
    && Extends(before, result.queue)
    && (|result.queue.items| == |before.items| || Appends(shards, op, before, result.queue))
    && if result.queue == before then result.shards == shards
       else QueueValid(result.queue) && result.shards == shards[op.scope := result.queue]
  }

  lemma ReviseShape(shards: Shards, op: StoreOp, i: nat, item: Record)
    requires StoreValid(shards) && i < |ReadQueue(shards, op.scope).items|
    requires item.content.inputId == ReadQueue(shards, op.scope).items[i].content.inputId
    ensures var result := Revise(shards, ReadQueue(shards, op.scope), i, item);
            result.Stored? ==> Shape(shards, op, result)
  {
  }

  lemma AdmitShape(shards: Shards, op: StoreOp)
    requires StoreValid(shards) && op.AdmitOp? && Perform(shards, op).Stored?
    ensures Shape(shards, op, Perform(shards, op))
  {
  }

  lemma RecoverShape(shards: Shards, op: StoreOp)
    requires StoreValid(shards) && op.RecoverOp? && Perform(shards, op).Stored?
    ensures Shape(shards, op, Perform(shards, op))
  {
  }

  lemma OpShape(shards: Shards, op: StoreOp)
    requires StoreValid(shards) && Perform(shards, op).Stored?
    ensures Shape(shards, op, Perform(shards, op))
  {
    match op {
      case AdmitOp(_, _, _) => AdmitShape(shards, op);
      case EditOp(scope, input, _, _) =>
        var items := ReadQueue(shards, scope).items;
        var i := IndexOf(items, input.inputId);
        ReviseShape(shards, op, i, items[i].(content := input));
      case TransitionOp(scope, id, _, _, change) =>
        var items := ReadQueue(shards, scope).items;
        var i := IndexOf(items, id);
        ReviseShape(shards, op, i, Changed(items[i], change));
      case RecoverOp(_) => RecoverShape(shards, op);
    }
  }

  /** Every operation keeps the ledger valid and loses no record and no revision. */
  lemma OpKeepsStore(shards: Shards, op: StoreOp)
    requires StoreValid(shards)
    ensures StoreValid(After(shards, op))
    ensures forall scope :: Extends(ReadQueue(shards, scope), ReadQueue(After(shards, op), scope))
  {
    if Perform(shards, op).Stored? {
      OpShape(shards, op);
      var before, after, next := ReadQueue(shards, op.scope), Perform(shards, op).queue, After(shards, op);
      forall a, b, id | a in next && b in next && Listed(next[a], id) && Listed(next[b], id) ensures a == b {
        if a == op.scope && b != a {
          NewlyListed(shards, op, id);
        } else if b == op.scope && b != a {
          NewlyListed(shards, op, id);
        }
      }
    }
  }

  lemma NewlyListed(shards: Shards, op: StoreOp, id: string)
    requires StoreValid(shards) && Perform(shards, op).Stored? && Listed(Perform(shards, op).queue, id)
    ensures Listed(ReadQueue(shards, op.scope), id)
            || (op.AdmitOp? && op.input.inputId == id && !ListedElsewhere(shards, op.scope, id))
    ensures Listed(ReadQueue(shards, op.scope), id) ==> op.scope in shards
  {
    OpShape(shards, op);
    var before, after := ReadQueue(shards, op.scope), Perform(shards, op).queue;
    var i :| 0 <= i < |after.items| && after.items[i].content.inputId == id;
    if i < |before.items| {
      assert before.items[i].content.inputId == id;
    }
  }

  // ---- An input is dispatched at most once, with the content it then keeps ----

  /** The record of `id` has left the editable states, holding `content`. */
  ghost predicate Committed(shards: Shards, id: string, content: Content) {
    exists scope, i :: CommittedAt(shards, id, content, scope, i)
  }

  ghost predicate CommittedAt(shards: Shards, id: string, content: Content, scope: Scope, i: nat) {
    && scope in shards && i < |shards[scope].items|
    && var item := shards[scope].items[i];
       item.content == content && content.inputId == id && item.state !in {Queued, Paused}
  }

  /** An operation neither rewrites a record that left the editable states nor returns it to them. */
  lemma SettledRecordKept(shards: Shards, op: StoreOp, i: nat)
    requires StoreValid(shards) && Perform(shards, op).Stored? && i < |ReadQueue(shards, op.scope).items|
    requires ReadQueue(shards, op.scope).items[i].state !in {Queued, Paused}
    ensures var before, after := ReadQueue(shards, op.scope).items, Perform(shards, op).queue.items;
            i < |after| && after[i].content == before[i].content && after[i].state !in {Queued, Paused}
  {
    match op {
      case AdmitOp(_, _, _) =>
      case EditOp(_, _, _, _) =>
      case TransitionOp(_, _, _, _, _) =>
      case RecoverOp(_) =>
    }
  }

  lemma CommittedStays(shards: Shards, op: StoreOp, id: string, content: Content)
    requires StoreValid(shards) && Committed(shards, id, content)
    ensures Committed(After(shards, op), id, content)
  {
    var scope, i :| CommittedAt(shards, id, content, scope, i);
    if Perform(shards, op).Stored? {
      assert Perform(shards, op).shards == shards
          || Perform(shards, op).shards == shards[op.scope := Perform(shards, op).queue] by { OpShape(shards, op); }
      if scope == op.scope {
        SettledRecordKept(shards, op, i);
      }
      assert CommittedAt(After(shards, op), id, content, scope, i);
    }
  }

  /** The operation hands the record of `id` to a worker. */
  ghost predicate Dispatches(shards: Shards, op: StoreOp, id: string) {
    op.TransitionOp? && op.id == id && op.change.state == Dispatching && Perform(shards, op).Stored?
  }

  lemma {:induction false} UniqueRecord(shards: Shards, a: Scope, i: nat, b: Scope, j: nat)
    requires StoreValid(shards) && a in shards && b in shards && i < |shards[a].items| && j < |shards[b].items|
    requires shards[a].items[i].content.inputId == shards[b].items[j].content.inputId
    ensures a == b && i == j
  {
    var id := shards[a].items[i].content.inputId;
    assert Listed(shards[a], id) && Listed(shards[b], id);
  }

  lemma DispatchCommits(shards: Shards, op: StoreOp, id: string)
    requires StoreValid(shards) && Dispatches(shards, op, id)
    ensures forall content :: !Committed(shards, id, content)
    ensures exists content :: Committed(After(shards, op), id, content)
  {
    var before := ReadQueue(shards, op.scope);
    var i := IndexOf(before.items, id);
    assert before.items[i].state == Queued;
    forall content ensures !Committed(shards, id, content) {
      if Committed(shards, id, content) {
        var scope, j :| CommittedAt(shards, id, content, scope, j);
        UniqueRecord(shards, op.scope, i, scope, j);
      }
    }
    assert CommittedAt(After(shards, op), id, before.items[i].content, op.scope, i);
    assert Committed(After(shards, op), id, before.items[i].content);
  }

  ghost function DispatchCount(shards: Shards, ops: seq<StoreOp>, id: string): nat
    decreases |ops|
  {
    if ops == [] then 0
    else (if Dispatches(shards, ops[0], id) then 1 else 0) + DispatchCount(After(shards, ops[0]), ops[1..], id)
  }

  lemma {:induction false} CommittedNeverDispatches(shards: Shards, ops: seq<StoreOp>, id: string, content: Content)
    requires StoreValid(shards) && Committed(shards, id, content)
    ensures DispatchCount(shards, ops, id) == 0
    ensures Committed(RunOps(shards, ops), id, content)
    decreases |ops|
  {
    if ops != [] {
      if Dispatches(shards, ops[0], id) {
        DispatchCommits(shards, ops[0], id);
        assert false;
      }
      OpKeepsStore(shards, ops[0]);
      CommittedStays(shards, ops[0], id, content);
      CommittedNeverDispatches(After(shards, ops[0]), ops[1..], id, content);
    }
  }

  /** Over every sequence of admissions, edits, transitions and restarts, whatever the callers
      expect or ask for, no input is handed to a worker twice. */
  lemma {:induction false} DispatchedAtMostOnce(shards: Shards, ops: seq<StoreOp>, id: string)
    requires StoreValid(shards)
    ensures DispatchCount(shards, ops, id) <= 1
    ensures StoreValid(RunOps(shards, ops))
    decreases |ops|
  {
    if ops != [] {
      var next := After(shards, ops[0]);
      OpKeepsStore(shards, ops[0]);
      DispatchedAtMostOnce(next, ops[1..], id);
      if Dispatches(shards, ops[0], id) {
        DispatchCommits(shards, ops[0], id);
        var content :| Committed(next, id, content);
        CommittedNeverDispatches(next, ops[1..], id, content);
      }
    }
  }

  // ---- What the operations must do ----

  /** A new identity is stored exactly under these conditions, as one queued record at the end; a known one is
      answered with the queue as it is exactly if the content is the same. */
  lemma AdmitStoresExactly(shards: Shards, scope: Scope, input: Content, expected: nat)
    requires StoreValid(shards)
    ensures var queue, result := ReadQueue(shards, scope), Perform(shards, AdmitOp(scope, input, expected));
            if exists other :: other in shards && other != scope && Listed(shards[other], input.inputId) then
              result == Refused("INPUT_ID_CONFLICT")
            else if Listed(queue, input.inputId) then
              if exists i :: 0 <= i < |queue.items| && queue.items[i].content == input then
                result == Stored(shards, queue)
              else result == Refused("INPUT_ID_CONFLICT")
            else if expected == queue.revision && expected < MAX_SAFE_INTEGER && |queue.items| < RECORD_LIMIT
                    && scope.sessionId.Some? && !(Blank(input.text) && input.materials == []) then
              var next := Queue(queue.revision + 1, scope,
                queue.items + [Record(input, scope, 1, None, Queued, None, None)]);
              result == Stored(shards[scope := next], next)
            else result.Refused?
  {
    var queue := ReadQueue(shards, scope);
    if Listed(queue, input.inputId) {
      SameRecord(queue, input);
    } else if queue.revision < MAX_SAFE_INTEGER && |queue.items| < RECORD_LIMIT && scope.sessionId.Some? {
      AppendedValid(queue, scope, input);
    }
  }

  /** Where an identity is listed, `find` stops at its record. */
  lemma SameRecord(queue: Queue, input: Content)
    requires QueueValid(queue) && Listed(queue, input.inputId)
    ensures var prior := FindInput(queue.items, input.inputId);
            prior.Some? && (prior.value.content == input <==>
              exists i :: 0 <= i < |queue.items| && queue.items[i].content == input)
  {
    var prior := FindInput(queue.items, input.inputId).value;
    var k :| 0 <= k < |queue.items| && queue.items[k] == prior;
    if i :| 0 <= i < |queue.items| && queue.items[i].content == input {
      assert i == k;
    }
  }

  lemma AppendedValid(queue: Queue, scope: Scope, input: Content)
    requires QueueValid(queue) && !Listed(queue, input.inputId) && queue.scope == scope && scope.sessionId.Some?
    requires queue.revision < MAX_SAFE_INTEGER && |queue.items| < RECORD_LIMIT
    ensures var items := queue.items + [Record(input, scope, 1, None, Queued, None, None)];
            QueueValid(Queue(queue.revision + 1, scope, items))
  {
    var next := Queue(queue.revision + 1, scope, queue.items + [Record(input, scope, 1, None, Queued, None, None)]);
    forall i | 0 <= i < |next.items| ensures RecordValid(next.items[i], next) {
      assert i < |queue.items| ==> RecordValid(queue.items[i], queue);
    }
  }

  /** Revising a valid record validly is published: that record changes, with one more revision, as the queue. */
  lemma ReviseStores(shards: Shards, scope: Scope, i: nat, item: Record)
    requires StoreValid(shards) && i < |ReadQueue(shards, scope).items|
    requires item.content.inputId == ReadQueue(shards, scope).items[i].content.inputId
    ensures var queue := ReadQueue(shards, scope);
            var next := Queue(queue.revision + 1, scope,
              queue.items[i := item.(revision := queue.items[i].revision + 1)]);
            var result := Revise(shards, queue, i, item);
            if queue.items[i].revision < MAX_SAFE_INTEGER && queue.revision < MAX_SAFE_INTEGER
               && RecordValid(next.items[i], next) then result == Stored(shards[scope := next], next)
            else result.Refused?
  {
    var queue := ReadQueue(shards, scope);
    var next := Queue(queue.revision + 1, scope, queue.items[i := item.(revision := queue.items[i].revision + 1)]);
    if RecordValid(next.items[i], next) {
      forall k | 0 <= k < |next.items| ensures RecordValid(next.items[k], next) {
        assert RecordValid(queue.items[k], queue);
      }
    }
  }

  lemma FoundAt(items: seq<Record>, id: string, i: nat)
    requires DistinctIds(items) && i < |items| && items[i].content.inputId == id
    ensures IndexOf(items, id) == i
  {
    assert forall k :: 0 <= k < i ==> items[k].content.inputId != items[i].content.inputId;
  }

  /** An edit is stored exactly under these conditions, and then the record holds exactly the new content,
      everything else about it and about the other records being as before. */
  lemma EditStoresExactly(shards: Shards, op: StoreOp, i: nat)
    requires StoreValid(shards) && op.EditOp? && i < |ReadQueue(shards, op.scope).items|
    requires ReadQueue(shards, op.scope).items[i].content.inputId == op.input.inputId
    ensures var queue, result := ReadQueue(shards, op.scope), Perform(shards, op);
            var item := queue.items[i];
            if op.expected == queue.revision < MAX_SAFE_INTEGER && op.expectedInput == item.revision < MAX_SAFE_INTEGER
               && (item.state == Queued || item.state == Paused) && op.input.delivery == item.content.delivery
               && !(Blank(op.input.text) && op.input.materials == []) then
              var edited := item.(content := op.input, revision := item.revision + 1);
              var next := Queue(queue.revision + 1, op.scope, queue.items[i := edited]);
              result == Stored(shards[op.scope := next], next)
            else result.Refused?
  {
    var queue := ReadQueue(shards, op.scope);
    FoundAt(queue.items, op.input.inputId, i);
    assert RecordValid(queue.items[i], queue);
    ReviseStores(shards, op.scope, i, queue.items[i].(content := op.input));
  }

  /** Why an edit of a listed input is refused, in the order the Host checks. */
  lemma EditRefusals(shards: Shards, op: StoreOp, i: nat)
    requires StoreValid(shards) && op.EditOp? && i < |ReadQueue(shards, op.scope).items|
    requires ReadQueue(shards, op.scope).items[i].content.inputId == op.input.inputId && Perform(shards, op).Refused?
    ensures var queue, code := ReadQueue(shards, op.scope), Perform(shards, op).code;
            var item := queue.items[i];
            if op.expected > MAX_SAFE_INTEGER then code == "INPUT_REVISION_INVALID"
            else if op.expected != queue.revision then code == "INPUT_REVISION_CONFLICT"
            else if op.expectedInput < 1 || op.expectedInput > MAX_SAFE_INTEGER then code == "INPUT_REVISION_INVALID"
            else if op.expectedInput != item.revision then code == "INPUT_REVISION_CONFLICT"
            else if item.state != Queued && item.state != Paused then code == "INPUT_NOT_EDITABLE"
            else if op.input.delivery != item.content.delivery then code == "INPUT_DELIVERY_CONFLICT"
            else if Blank(op.input.text) && op.input.materials == [] then code == "INPUT_EMPTY"
            else code == "INPUT_REVISION_EXHAUSTED"
  {
    EditStoresExactly(shards, op, i);
    FoundAt(ReadQueue(shards, op.scope).items, op.input.inputId, i);
    assert RecordValid(ReadQueue(shards, op.scope).items[i], ReadQueue(shards, op.scope));
  }

  /** The transitions of the ledger: from a queued input to delivery, or aside and back, and never back from
      delivery. */
  predicate MayFollow(before: InputState, after: InputState) {
    || (before == Queued && (after == Dispatching || after == Paused || after == Removed))
    || (before == Paused && (after == Queued || after == Removed))
    || (before == Dispatching && (after == Accepted || after == Consumed || after == Unknown))
    || (before == Accepted && (after == Consumed || after == Unknown))
    || (before == Unknown && after == Consumed)
  }

  /** A transition is stored exactly under these conditions, and then the record has the new state and the evidence
      given for it, its content and identity as before, and the other records too. */
  lemma TransitionStoresExactly(shards: Shards, op: StoreOp, i: nat)
    requires StoreValid(shards) && op.TransitionOp? && i < |ReadQueue(shards, op.scope).items|
    requires ReadQueue(shards, op.scope).items[i].content.inputId == op.id
    ensures var queue, result := ReadQueue(shards, op.scope), Perform(shards, op);
            var item, change := queue.items[i], op.change;
            var task := if change.taskId.Some? then change.taskId else item.taskId;
            var reason := if change.state == Paused || change.state == Unknown then change.pauseReason else None;
            if op.expected == queue.revision < MAX_SAFE_INTEGER && op.expectedInput == item.revision < MAX_SAFE_INTEGER
               && MayFollow(item.state, change.state) && (item.taskId.Some? ==> task == item.taskId)
               && (change.state == Consumed <==> change.consumedEntryId.Some?)
               && (change.state in {Paused, Unknown} ==> reason.Some?)
               && (change.state in {Accepted, Consumed} ==> task.Some?)
               && (change.state in {Queued, Paused, Removed} ==> task.None?) then
              var moved := item.(state := change.state, taskId := task, consumedEntryId := change.consumedEntryId,
                                 pauseReason := reason, revision := item.revision + 1);
              var next := Queue(queue.revision + 1, op.scope, queue.items[i := moved]);
              result == Stored(shards[op.scope := next], next)
            else result.Refused?
  {
    var queue := ReadQueue(shards, op.scope);
    FoundAt(queue.items, op.id, i);
    assert RecordValid(queue.items[i], queue);
    ReviseStores(shards, op.scope, i, Changed(queue.items[i], op.change));
  }

  /** Edits and transitions of an identity that is not listed are refused. */
  lemma UnlistedRefused(shards: Shards, op: StoreOp)
    requires (op.EditOp? && !Listed(ReadQueue(shards, op.scope), op.input.inputId))
             || (op.TransitionOp? && !Listed(ReadQueue(shards, op.scope), op.id))
    ensures Perform(shards, op) == Refused("INPUT_NOT_FOUND")
  {
  }

  // ---- The content of a record is the last one stored for it ----

  /** The operation stores a content for `id`. */
  ghost predicate Writes(shards: Shards, op: StoreOp, id: string) {
    (op.AdmitOp? || op.EditOp?) && op.input.inputId == id && Perform(shards, op).Stored?
  }

  /** The content of the latest stored admission or edit of `id`, `before` if there is none. */
  ghost function Latest(shards: Shards, ops: seq<StoreOp>, id: string, before: Option<Content>): Option<Content>
    decreases |ops|
  {
    if ops == [] then before
    else Latest(After(shards, ops[0]), ops[1..], id, if Writes(shards, ops[0], id) then Some(ops[0].input) else before)
  }

  /** Every record of `id` has the content `latest`. */
  ghost predicate Contains(shards: Shards, id: string, latest: Option<Content>) {
    forall scope :: scope in shards ==> QueueContains(shards[scope], id, latest)
  }

  ghost predicate QueueContains(queue: Queue, id: string, latest: Option<Content>) {
    forall i :: 0 <= i < |queue.items| && queue.items[i].content.inputId == id ==>
      latest == Some(queue.items[i].content)
  }

  lemma AdmitWrites(shards: Shards, op: StoreOp, id: string, latest: Option<Content>)
    requires StoreValid(shards) && op.AdmitOp? && Perform(shards, op).Stored?
    requires QueueContains(ReadQueue(shards, op.scope), id, latest)
    ensures QueueContains(Perform(shards, op).queue, id, if op.input.inputId == id then Some(op.input) else latest)
  {
    AdmitStoresExactly(shards, op.scope, op.input, op.expected);
    var queue := ReadQueue(shards, op.scope);
    if Listed(queue, op.input.inputId) {
      var k :| 0 <= k < |queue.items| && queue.items[k].content == op.input;
      assert forall i :: 0 <= i < |queue.items| && queue.items[i].content.inputId == op.input.inputId ==> i == k;
    } else {
      assert forall i :: 0 <= i < |queue.items| ==> queue.items[i].content.inputId != op.input.inputId;
    }
  }

  lemma EditWrites(shards: Shards, op: StoreOp, id: string, latest: Option<Content>)
    requires StoreValid(shards) && op.EditOp? && Perform(shards, op).Stored?
    requires QueueContains(ReadQueue(shards, op.scope), id, latest)
    ensures QueueContains(Perform(shards, op).queue, id, if op.input.inputId == id then Some(op.input) else latest)
  {
    var items := ReadQueue(shards, op.scope).items;
    var i := IndexOf(items, op.input.inputId);
    EditStoresExactly(shards, op, i);
    assert forall k :: 0 <= k < |items| && items[k].content.inputId == op.input.inputId ==> k == i;
  }

  /** Transitions and recovery store no content. */
  lemma OthersKeepContents(shards: Shards, op: StoreOp)
    requires StoreValid(shards) && (op.TransitionOp? || op.RecoverOp?) && Perform(shards, op).Stored?
    ensures var before, after := ReadQueue(shards, op.scope).items, Perform(shards, op).queue.items;
            |after| == |before| && forall i :: 0 <= i < |after| ==> after[i].content == before[i].content
  {
    if op.TransitionOp? {
      TransitionStoresExactly(shards, op, IndexOf(ReadQueue(shards, op.scope).items, op.id));
    }
  }

  lemma QueueWrites(shards: Shards, op: StoreOp, id: string, latest: Option<Content>)
    requires StoreValid(shards) && Contains(shards, id, latest) && Perform(shards, op).Stored?
    ensures QueueContains(Perform(shards, op).queue, id, if Writes(shards, op, id) then Some(op.input) else latest)
  {
    assert QueueContains(ReadQueue(shards, op.scope), id, latest);
    if op.AdmitOp? {
      AdmitWrites(shards, op, id, latest);
    } else if op.EditOp? {
      EditWrites(shards, op, id, latest);
    } else {
      OthersKeepContents(shards, op);
    }
  }

  /** An identity that an operation writes in its own scope is listed in no other. */
  lemma {:induction false} WritesAlone(shards: Shards, op: StoreOp, id: string, scope: Scope, i: nat)
    requires StoreValid(shards) && Writes(shards, op, id) && scope in shards && i < |shards[scope].items|
    requires shards[scope].items[i].content.inputId == id
    ensures scope == op.scope
  {
    assert Listed(shards[scope], id);
    if op.EditOp? {
      var queue := ReadQueue(shards, op.scope);
      var k := IndexOf(queue.items, id);
      assert queue.items[k].content.inputId == id;
      assert Listed(queue, id);
    }
  }

  lemma OpContains(shards: Shards, op: StoreOp, id: string, latest: Option<Content>)
    requires StoreValid(shards) && Contains(shards, id, latest)
    ensures Contains(After(shards, op), id, if Writes(shards, op, id) then Some(op.input) else latest)
  {
    if Perform(shards, op).Stored? {
      var now := if Writes(shards, op, id) then Some(op.input) else latest;
      var result := Perform(shards, op);
      QueueWrites(shards, op, id, latest);
      OpShape(shards, op);
      forall scope | scope in result.shards ensures QueueContains(result.shards[scope], id, now) {
        if scope != op.scope {
          OtherScopeContains(shards, op, id, latest, scope);
        }
      }
    }
  }

  lemma {:induction false} OtherScopeContains(
    shards: Shards, op: StoreOp, id: string, latest: Option<Content>, scope: Scope
  )
    requires StoreValid(shards) && Contains(shards, id, latest) && scope in shards && scope != op.scope
    ensures QueueContains(shards[scope], id, if Writes(shards, op, id) then Some(op.input) else latest)
  {
    assert QueueContains(shards[scope], id, latest);
    if Writes(shards, op, id) {
      forall i | 0 <= i < |shards[scope].items| ensures shards[scope].items[i].content.inputId != id {
        if shards[scope].items[i].content.inputId == id {
          WritesAlone(shards, op, id, scope, i);
        }
      }
    }
  }

  lemma {:induction false} ContentIsLatest(shards: Shards, ops: seq<StoreOp>, id: string, before: Option<Content>)
    requires StoreValid(shards) && Contains(shards, id, before)
    ensures StoreValid(RunOps(shards, ops)) && Contains(RunOps(shards, ops), id, Latest(shards, ops, id, before))
    decreases |ops|
  {
    if ops != [] {
      OpKeepsStore(shards, ops[0]);
      OpContains(shards, ops[0], id, before);
      var now := if Writes(shards, ops[0], id) then Some(ops[0].input) else before;
      ContentIsLatest(After(shards, ops[0]), ops[1..], id, now);
    }
  }

  /** Over every sequence of operations on an empty ledger: what a worker is handed is the content of the latest stored
      admission or edit of that identity. */
  lemma DispatchSendsLatest(ops: seq<StoreOp>, op: StoreOp, id: string) returns (i: nat)
    requires Dispatches(RunOps(map[], ops), op, id)
    ensures var before, after := ReadQueue(RunOps(map[], ops), op.scope), Perform(RunOps(map[], ops), op).queue;
            && i < |before.items| && |after.items| == |before.items|
            && before.items[i].content.inputId == id && after.items[i].state == Dispatching
            && Latest(map[], ops, id, None) == Some(after.items[i].content)
  {
    ContentIsLatest(map[], ops, id, None);
    var shards := RunOps(map[], ops);
    var before := ReadQueue(shards, op.scope);
    i := IndexOf(before.items, id);
    TransitionStoresExactly(shards, op, i);
    assert QueueContains(before, id, Latest(map[], ops, id, None));
  }

  // ---- A restart ----

  /** Recovery is never refused for an invalid result, and leaves nothing that looks deliverable or in flight. */
  lemma RecoveryQuiesces(shards: Shards, scope: Scope)
    requires StoreValid(shards) && ReadQueue(shards, scope).revision < MAX_SAFE_INTEGER
    ensures RecoverQueue(shards, scope).Stored?
    ensures var before, after := ReadQueue(shards, scope), RecoverQueue(shards, scope).queue;
            && |after.items| == |before.items|
            && (after == before || after.revision == before.revision + 1)
            && forall i :: 0 <= i < |after.items| ==>
                 && after.items[i].content == before.items[i].content
                 && after.items[i].state !in {Queued, Dispatching, Accepted}
                 && if before.items[i].state in {Queued, Dispatching, Accepted} then
                      && after.items[i].state == (if before.items[i].state == Queued then Paused else Unknown)
                      && after.items[i].pauseReason == Some("HOST_RESTARTED")
                      && after.items[i].revision == before.items[i].revision + 1
                      && after.items[i].taskId == before.items[i].taskId
                    else after.items[i] == before.items[i]
  {
    var queue := ReadQueue(shards, scope);
    var items := RecoveredItems(queue.items);
    if items != queue.items {
      forall i | 0 <= i < |items| ensures RecordValid(items[i], Queue(queue.revision + 1, scope, items)) {
        assert RecordValid(queue.items[i], queue);
      }
    }
  }

  /** Recovering twice is recovering once. */
  lemma RecoveryIsIdempotent(shards: Shards, scope: Scope)
    requires StoreValid(shards) && ReadQueue(shards, scope).revision < MAX_SAFE_INTEGER
    ensures var once := After(shards, RecoverOp(scope)); After(once, RecoverOp(scope)) == once
  {
    RecoveryQuiesces(shards, scope);
    var once := After(shards, RecoverOp(scope));
    OpShape(shards, RecoverOp(scope));
    var queue := ReadQueue(once, scope);
    assert forall i :: 0 <= i < |queue.items| ==> Recovered(queue.items[i]) == queue.items[i];
  }

  // ---- The object ----

  /** How many of the first `n` records are in one of the given states. */
  function Tally(items: seq<Record>, states: set<InputState>, n: nat): nat
    requires n <= |items|
  {
    if n == 0 then 0 else Tally(items, states, n - 1) + if items[n - 1].state in states then 1 else 0
  }

  class HostInputStore {
    var shards: Shards

    constructor ()
      ensures shards == map[] && StoreValid(shards)
    {
      shards := map[];
    }

    method Enqueue(scope: Scope, input: Content, expected: nat) returns (result: StoreResult)
      requires StoreValid(shards)
      modifies this
      ensures result == Perform(old(shards), AdmitOp(scope, input, expected))
      ensures shards == After(old(shards), AdmitOp(scope, input, expected)) && StoreValid(shards)
    {
      assert StoreValid(After(shards, AdmitOp(scope, input, expected))) by {
        OpKeepsStore(shards, AdmitOp(scope, input, expected));
      }
      var queue := ReadQueue(shards, scope);
      if ListedElsewhere(shards, scope, input.inputId) { return Refused("INPUT_ID_CONFLICT"); }
      var prior := FindInput(queue.items, input.inputId);
      if prior.Some? {
        if prior.value.content != input { return Refused("INPUT_ID_CONFLICT"); }
        return Stored(shards, queue);
      }
      var stale := CompareRevision(queue, expected);
      if stale.Some? { return Refused(stale.value); }
      if Empty(input) { return Refused("INPUT_EMPTY"); }
      if |queue.items| >= RECORD_LIMIT { return Refused("INPUT_QUEUE_LIMIT"); }
      if scope.sessionId.None? { return Refused("INPUT_SESSION_REQUIRED"); }
      var items := queue.items + [Record(input, scope, 1, None, Queued, None, None)];
      if queue.revision >= MAX_SAFE_INTEGER { return Refused("INPUT_REVISION_EXHAUSTED"); }
      result := Write(Queue(queue.revision + 1, scope, items));
    }

    method Write(queue: Queue) returns (result: StoreResult)
      modifies this
      ensures result == Publish(old(shards), queue)
      ensures shards == if result.Stored? then result.shards else old(shards)
    {
      if !QueueValid(queue) { return Refused("INPUT_STATE_INVALID"); }
      shards := shards[queue.scope := queue];
      result := Stored(shards, queue);
    }

    /** Publishes one record with one more revision, and its queue with one more. */
    method Replace(queue: Queue, i: nat, item: Record) returns (result: StoreResult)
      requires i < |queue.items|
      modifies this
      ensures result == Revise(old(shards), queue, i, item)
      ensures shards == if result.Stored? then result.shards else old(shards)
    {
      if queue.items[i].revision >= MAX_SAFE_INTEGER || queue.revision >= MAX_SAFE_INTEGER {
        return Refused("INPUT_REVISION_EXHAUSTED");
      }
      var items := queue.items[i := item.(revision := queue.items[i].revision + 1)];
      result := Write(Queue(queue.revision + 1, queue.scope, items));
    }

    method EditInput(scope: Scope, input: Content, expected: nat, expectedInput: nat) returns (result: StoreResult)
      requires StoreValid(shards)
      modifies this
      ensures result == Perform(old(shards), EditOp(scope, input, expected, expectedInput))
      ensures shards == After(old(shards), EditOp(scope, input, expected, expectedInput)) && StoreValid(shards)
    {
      OpKeepsStore(shards, EditOp(scope, input, expected, expectedInput));
      var queue := ReadQueue(shards, scope);
      var i := IndexOf(queue.items, input.inputId);
      if i == |queue.items| { return Refused("INPUT_NOT_FOUND"); }
      var item := queue.items[i];
      var stale, staleItem := CompareRevision(queue, expected), CompareItem(item, expectedInput);
      if stale.Some? { return Refused(stale.value); }
      if staleItem.Some? { return Refused(staleItem.value); }
      if item.state !in {Queued, Paused} { return Refused("INPUT_NOT_EDITABLE"); }
      if input.delivery != item.content.delivery { return Refused("INPUT_DELIVERY_CONFLICT"); }
      if Empty(input) { return Refused("INPUT_EMPTY"); }
      result := Replace(queue, i, item.(content := input));
    }

    method Move(scope: Scope, id: string, expected: nat, expectedInput: nat, change: Change)
        returns (result: StoreResult)
      requires StoreValid(shards)
      modifies this
      ensures result == Perform(old(shards), TransitionOp(scope, id, expected, expectedInput, change))
      ensures shards == After(old(shards), TransitionOp(scope, id, expected, expectedInput, change))
      ensures StoreValid(shards)
    {
      OpKeepsStore(shards, TransitionOp(scope, id, expected, expectedInput, change));
      var queue := ReadQueue(shards, scope);
      var i := IndexOf(queue.items, id);
      if i == |queue.items| { return Refused("INPUT_NOT_FOUND"); }
      var item := queue.items[i];
      var stale, staleItem := CompareRevision(queue, expected), CompareItem(item, expectedInput);
      if stale.Some? { return Refused(stale.value); }
      if staleItem.Some? { return Refused(staleItem.value); }
      if change.state !in Successors(item.state) { return Refused("INPUT_TRANSITION_INVALID"); }
      if change.taskId.Some? && item.taskId.Some? && change.taskId != item.taskId {
        return Refused("INPUT_TASK_CONFLICT");
      }
      result := Replace(queue, i, Changed(item, change));
    }

    /** The recovery of one queue file by `#initialize`, with its two counters. */
    method Recover(scope: Scope) returns (result: StoreResult, paused: nat, unknown: nat)
      requires StoreValid(shards)
      modifies this
      ensures result == Perform(old(shards), RecoverOp(scope))
      ensures shards == After(old(shards), RecoverOp(scope)) && StoreValid(shards)
      ensures var before := ReadQueue(old(shards), scope).items;
              paused == Tally(before, {Queued}, |before|) && unknown == Tally(before, {Dispatching, Accepted}, |before|)
    {
      assert StoreValid(After(shards, RecoverOp(scope))) by { OpKeepsStore(shards, RecoverOp(scope)); }
      var queue := ReadQueue(shards, scope);
      var items, changed;
      items, changed, paused, unknown := RecoverItems(queue.items);
      if !changed { return Stored(shards, queue), paused, unknown; }
      if queue.revision >= MAX_SAFE_INTEGER { return Refused("INPUT_REVISION_EXHAUSTED"), paused, unknown; }
      result := Write(Queue(queue.revision + 1, scope, items));
    }
  }

  method RecoverItems(before: seq<Record>) returns (items: seq<Record>, changed: bool, paused: nat, unknown: nat)
    ensures items == RecoveredItems(before)
    ensures changed <==> items != before
    ensures paused == Tally(before, {Queued}, |before|) && unknown == Tally(before, {Dispatching, Accepted}, |before|)
  {
    items, changed, paused, unknown := before, false, 0, 0;
    for i := 0 to |items|
      invariant |items| == |before|
      invariant forall k :: 0 <= k < i ==> items[k] == Recovered(before[k])
      invariant forall k :: i <= k < |items| ==> items[k] == before[k]
      invariant changed <==> exists k :: 0 <= k < i && items[k] != before[k]
      invariant paused == Tally(before, {Queued}, i) && unknown == Tally(before, {Dispatching, Accepted}, i)
    {
      var item := items[i];
      if item.state in {Queued, Dispatching, Accepted} {
        if item.state == Queued {
          item, paused := item.(state := Paused), paused + 1;
        } else {
          item, unknown := item.(state := Unknown), unknown + 1;
        }
        items := items[i := item.(pauseReason := Some("HOST_RESTARTED"), revision := item.revision + 1)];
        assert items[i] != before[i];
        changed := true;
      }
    }
  }
}
