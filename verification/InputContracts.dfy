/** The records exchanged by the input-queue client and the Host
    (packages/host/contracts.d.ts) and the two pure judgements the client
    makes about them (webui/src/shared/inputApi.ts). */
module InputContracts {
  import opened Options

  datatype Delivery = ByPrompt | BySteer | ByQueue
  datatype Mode = Readonly | Controlled
  datatype InputState = Draft | Queued | Dispatching | Accepted | Consumed | Paused | Unknown | Removed

  datatype Binding = Binding(accountId: string, modelId: string, thinking: string, mode: Mode, resourceRevision: nat)
  datatype Content = Content(inputId: string, delivery: Delivery, text: string, materials: seq<string>,
    binding: Binding)
  datatype Scope = Scope(projectId: string, sessionId: Option<string>)
  datatype Record = Record(content: Content, scope: Scope, revision: nat, taskId: Option<string>,
                           state: InputState, consumedEntryId: Option<string>, pauseReason: Option<string>)
  datatype Queue = Queue(revision: nat, scope: Scope, items: seq<Record>)
  datatype Target = Target(projectId: string, taskId: string)

  datatype Command =
    | Enqueue(target: Target, predecessor: string, input: Content, expectedRevision: nat)
    | Supplement(target: Target, task: string, input: Content, expectedRevision: nat)
    | Edit(target: Target, input: Content, expectedRevision: nat, expectedInputRevision: nat)
    | Remove(target: Target, inputId: string, expectedRevision: nat, expectedInputRevision: nat)
    | Resume(target: Target, expectedRevision: nat)
    | Reconcile(target: Target, inputId: string)
  {
    /** Whether the wire object has an `input` member. */
    predicate HasInput() { Enqueue? || Supplement? || Edit? }

    /** Whether the command asks the Host to create a new input. */
    predicate Introduces() { Enqueue? || Supplement? }
  }

  predicate SameInput(a: Content, b: Content) {
    && a.inputId == b.inputId && a.delivery == b.delivery && a.text == b.text
    && |a.materials| == |b.materials| && (forall i :: 0 <= i < |a.materials| ==> a.materials[i] == b.materials[i])
    && a.binding.accountId == b.binding.accountId && a.binding.modelId == b.binding.modelId
    && a.binding.thinking == b.binding.thinking && a.binding.mode == b.binding.mode
    && a.binding.resourceRevision == b.binding.resourceRevision
  }

  /** The field list of `sameInput` leaves nothing out: it is equality of contents. */
  lemma SameInputIsEquality(a: Content, b: Content)
    ensures SameInput(a, b) <==> a == b
  {
    if SameInput(a, b) {
      assert a.materials == b.materials;
    }
  }

  /** The first record with the given identity. */
  function FindInput(items: seq<Record>, id: string): (found: Option<Record>)
    ensures found.None? <==> forall i :: 0 <= i < |items| ==> items[i].content.inputId != id
    ensures found.Some? ==> found.value in items && found.value.content.inputId == id
  {
    if items == [] then None
    else if items[0].content.inputId == id then Some(items[0])
    else FindInput(items[1..], id)
  }

  predicate Confirms(queue: Queue, command: Command) {
    match command
    case Enqueue(_, _, input, _) =>
      var item := FindInput(queue.items, input.inputId); item.Some? && SameInput(item.value.content, input)
    case Supplement(_, _, input, _) =>
      var item := FindInput(queue.items, input.inputId); item.Some? && SameInput(item.value.content, input)
    case Edit(_, input, _, expectedInput) =>
      var item := FindInput(queue.items, input.inputId);
      item.Some? && SameInput(item.value.content, input) && item.value.revision > expectedInput
    case Remove(_, inputId, _, expectedInput) =>
      exists i :: 0 <= i < |queue.items| && queue.items[i].content.inputId == inputId
                  && queue.items[i].state == Removed && queue.items[i].revision > expectedInput
    case Reconcile(_, inputId) =>
      exists i :: 0 <= i < |queue.items| && queue.items[i].content.inputId == inputId
        && queue.items[i].state == Consumed
    case Resume(_, expected) =>
      queue.revision > expected && forall i :: 0 <= i < |queue.items| ==> queue.items[i].state !in {Queued, Paused}
  }

  predicate Listed(queue: Queue, id: string) {
    exists i :: 0 <= i < |queue.items| && queue.items[i].content.inputId == id
  }

  /** Evidence for a submitted input is the whole content under its identity, never the identity alone. */
  lemma ConfirmationIsFullContent(queue: Queue, command: Command)
    requires command.HasInput() && Confirms(queue, command)
    ensures exists i :: 0 <= i < |queue.items| && queue.items[i].content == command.input
    ensures Listed(queue, command.input.inputId)
  {
    var item := FindInput(queue.items, command.input.inputId).value;
    SameInputIsEquality(item.content, command.input);
    var i :| 0 <= i < |queue.items| && queue.items[i] == item;
    assert queue.items[i].content == command.input;
  }

  /** What `fetch` and `response.json()` gave, before `inputApi` judges it. `NoReply` is a fetch
      that threw or a body that is not JSON, whatever its status. */
  datatype Http = NoReply | Status(code: nat, body: Body)

  /** A JSON `null` has no members to look at, so reading its `code` throws. */
  datatype Body = Shard(queue: Queue) | NullBody | OtherBody

  /** What `inputApi` hands its caller: a queue, or an error marked certain or uncertain. */
  datatype Reply = Answer(queue: Queue) | Failure(uncertain: bool)

  /** The scope checks of `shard`; its other checks are the types of this model. */
  predicate ShardFits(queue: Queue, projectId: string) {
    && queue.scope.projectId == projectId
    && forall i :: 0 <= i < |queue.items| ==> queue.items[i].scope == queue.scope
  }

  /** A command is reported as certainly failed exactly when the Host itself refused it with a status
      below 500 and a body other than `null`: a lost, garbled or server-error reply stays uncertain. */
  function Classify(http: Http, projectId: string, isRead: bool): (reply: Reply)
    ensures !isRead ==> (reply == Failure(false) <==>
              http.Status? && http.code < 500 && !(200 <= http.code < 300) && !http.body.NullBody?)
    ensures isRead ==> reply != Failure(true)
    ensures forall queue :: reply == Answer(queue) <==>
              (http.Status? && 200 <= http.code < 300 && http.body == Shard(queue) && queue.scope.projectId == projectId
               && forall i :: 0 <= i < |queue.items| ==> queue.items[i].scope == queue.scope)
  {
    match http
    case NoReply => Failure(!isRead)
    case Status(code, body) =>
      if !(200 <= code < 300) then Failure((code >= 500 || body.NullBody?) && !isRead)
      else if body.Shard? && ShardFits(body.queue, projectId) then Answer(body.queue)
      else Failure(!isRead)
  }
}
