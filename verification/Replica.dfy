/** The page's copy of the Host state (`applyEvent` in webui/src/shared/api.ts), fed by the numbered
    events of one Host (`publish` in packages/host/server.mjs). */
module Replica {
  import opened Options

  /** A task or project summary; `body` stands for the fields no step looks at. */
  datatype Task = Task(taskId: string, body: string)
  datatype Project = Project(projectId: string, body: string)

  datatype Snapshot = Snapshot(epoch: string, number: nat, projects: seq<Project>, tasks: seq<Task>)

  datatype Change = TaskChange(task: Task) | ProjectsChange(projects: seq<Project>)

  datatype Event = SnapshotEvent(protocol: nat, state: Snapshot)
    | ChangeEvent(epoch: string, number: nat, change: Change)

  datatype Outcome = Next(state: Option<Snapshot>) | Raised(code: string)

  const LIMIT := 100

  function Without(tasks: seq<Task>, id: string): seq<Task> {
    if tasks == [] then []
    else if tasks[0].taskId == id then Without(tasks[1..], id)
    else [tasks[0]] + Without(tasks[1..], id)
  }

  function ToFront(tasks: seq<Task>, task: Task): seq<Task> { [task] + Without(tasks, task.taskId) }

  function Truncate(tasks: seq<Task>): seq<Task> { if |tasks| <= LIMIT then tasks else tasks[..LIMIT] }

  function Apply(state: Snapshot, change: Change): Snapshot {
    match change
    case TaskChange(task) => state.(number := state.number + 1, tasks := Truncate(ToFront(state.tasks, task)))
    case ProjectsChange(projects) => state.(number := state.number + 1, projects := projects)
  }

  function ApplyEvent(snapshot: Option<Snapshot>, event: Event): Outcome {
    match event
    case SnapshotEvent(protocol, state) => if protocol != 2 then Raised("PROTOCOL_MISMATCH") else Next(Some(state))
    case ChangeEvent(epoch, number, change) =>
      if snapshot.None? || epoch != snapshot.value.epoch || number > snapshot.value.number + 1 then Raised("EVENT_GAP")
      else if number <= snapshot.value.number then Next(snapshot)
      else Next(Some(Apply(snapshot.value, change).(number := number)))
  }

  // ---- One epoch: a consecutive log, delivered in any order and any number of times ----

  /** The state after the first `n` changes of the log. */
  function Replay(start: Snapshot, log: seq<Change>, n: nat): Snapshot
    requires n <= |log|
  {
    if n == 0 then start else Apply(Replay(start, log, n - 1), log[n - 1])
  }

  /** The `k`-th event the Host published after `start`. */
  function Published(start: Snapshot, log: seq<Change>, k: nat): Event
    requires k < |log|
  {
    ChangeEvent(start.epoch, start.number + k + 1, log[k])
  }

  /** Folding `applyEvent` over deliveries, given by their positions in the log; an error ends the fold. */
  function Follow(start: Snapshot, log: seq<Change>, state: Option<Snapshot>, deliveries: seq<nat>): Outcome
    requires forall i :: 0 <= i < |deliveries| ==> deliveries[i] < |log|
    decreases |deliveries|
  {
    if deliveries == [] then Next(state) else
    var outcome := ApplyEvent(state, Published(start, log, deliveries[0]));
    if outcome.Raised? then outcome else Follow(start, log, outcome.state, deliveries[1..])
  }

  /** How long a prefix of the log the deliveries add up to, `n` being held already: none if one of them skips ahead. */
  function Reach(n: nat, deliveries: seq<nat>): Option<nat>
    decreases |deliveries|
  {
    if deliveries == [] then Some(n)
    else if deliveries[0] > n then None
    else Reach(if deliveries[0] == n then n + 1 else n, deliveries[1..])
  }

  lemma {:induction false} ReplayFacts(start: Snapshot, log: seq<Change>, n: nat)
    requires n <= |log|
    ensures Replay(start, log, n).number == start.number + n && Replay(start, log, n).epoch == start.epoch
  {
    if n > 0 {
      ReplayFacts(start, log, n - 1);
    }
  }

  /** Whatever is repeated or reordered, the copy is always the exact state after a prefix of the log,
      and the fold raises EVENT_GAP exactly when a delivery skips an event not yet held. */
  lemma {:induction false} FollowIsPrefix(start: Snapshot, log: seq<Change>, n: nat, deliveries: seq<nat>)
    requires n <= |log| && forall i :: 0 <= i < |deliveries| ==> deliveries[i] < |log|
    ensures var reached := Reach(n, deliveries);
            && (reached.Some? ==> n <= reached.value <= |log|)
            && Follow(start, log, Some(Replay(start, log, n)), deliveries)
               == if reached.Some? then Next(Some(Replay(start, log, reached.value))) else Raised("EVENT_GAP")
    decreases |deliveries|
  {
    if deliveries != [] {
      ReplayFacts(start, log, n);
      var k := deliveries[0];
      if k == n {
        var next := Replay(start, log, n + 1);
        ReplayFacts(start, log, n + 1);
        assert ApplyEvent(Some(Replay(start, log, n)), Published(start, log, k)) == Next(Some(next));
        FollowIsPrefix(start, log, n + 1, deliveries[1..]);
      } else if k < n {
        FollowIsPrefix(start, log, n, deliveries[1..]);
      }
    }
  }

  /** What one event does: a snapshot of protocol 2 replaces the copy, the next change of the same epoch is applied, a
      change already seen is ignored, and everything else is an error. */
  lemma EventExactly(snapshot: Option<Snapshot>, event: Event)
    ensures event.SnapshotEvent? ==>
              ApplyEvent(snapshot, event)
              == if event.protocol == 2 then Next(Some(event.state)) else Raised("PROTOCOL_MISMATCH")
    ensures event.ChangeEvent? ==>
              if snapshot.Some? && event.epoch == snapshot.value.epoch && event.number == snapshot.value.number + 1 then
                && ApplyEvent(snapshot, event).Next? && ApplyEvent(snapshot, event).state.Some?
                && var next := ApplyEvent(snapshot, event).state.value;
                   && next.epoch == event.epoch && next.number == event.number
                   && (event.change.ProjectsChange? ==>
                         next.projects == event.change.projects && next.tasks == snapshot.value.tasks)
                   && (event.change.TaskChange? ==>
                         && next.projects == snapshot.value.projects
                         && next.tasks != [] && next.tasks[0] == event.change.task && |next.tasks| <= 100)
              else if snapshot.Some? && event.epoch == snapshot.value.epoch
                      && event.number <= snapshot.value.number then
                ApplyEvent(snapshot, event) == Next(snapshot)
              else ApplyEvent(snapshot, event) == Raised("EVENT_GAP")
  {
  }

  // ---- The bounded list is the front of the unbounded one ----

  ghost predicate DistinctTasks(tasks: seq<Task>) {
    forall i, j :: 0 <= i < j < |tasks| ==> tasks[i].taskId != tasks[j].taskId
  }

  /** The list no truncation ever touches. */
  function ReplayAll(tasks: seq<Task>, log: seq<Change>, n: nat): seq<Task>
    requires n <= |log|
  {
    if n == 0 then tasks
    else match log[n - 1]
      case TaskChange(task) => ToFront(ReplayAll(tasks, log, n - 1), task)
      case ProjectsChange(_) => ReplayAll(tasks, log, n - 1)
  }

  lemma {:induction false} WithoutMembers(tasks: seq<Task>, id: string)
    ensures forall t :: t in Without(tasks, id) <==> t in tasks && t.taskId != id
    decreases |tasks|
  {
    if tasks != [] {
      WithoutMembers(tasks[1..], id);
      assert forall t :: t in tasks <==> t == tasks[0] || t in tasks[1..];
    }
  }

  lemma {:induction false} WithoutAbsent(tasks: seq<Task>, id: string)
    requires forall i :: 0 <= i < |tasks| ==> tasks[i].taskId != id
    ensures Without(tasks, id) == tasks
    decreases |tasks|
  {
    if tasks != [] {
      WithoutAbsent(tasks[1..], id);
    }
  }

  lemma {:induction false} WithoutFacts(tasks: seq<Task>, id: string)
    requires DistinctTasks(tasks)
    ensures DistinctTasks(Without(tasks, id))
    ensures |tasks| - 1 <= |Without(tasks, id)| <= |tasks|
    decreases |tasks|
  {
    if tasks != [] {
      if tasks[0].taskId == id {
        WithoutAbsent(tasks[1..], id);
      } else {
        WithoutFacts(tasks[1..], id);
        WithoutMembers(tasks[1..], id);
        var rest := Without(tasks[1..], id);
        assert forall i :: 0 <= i < |rest| ==> rest[i] in tasks[1..];
      }
    }
  }

  lemma {:induction false} WithoutPrefix(tasks: seq<Task>, id: string, m: nat)
    requires DistinctTasks(tasks) && m <= |tasks|
    ensures Without(tasks[..m], id) <= Without(tasks, id)
    decreases m
  {
    if m > 0 {
      assert tasks[..m][1..] == tasks[1..][..m - 1];
      WithoutPrefix(tasks[1..], id, m - 1);
    }
  }

  lemma TruncateCommutes(all: seq<Task>, task: Task)
    requires DistinctTasks(all)
    ensures Truncate(ToFront(Truncate(all), task)) == Truncate(ToFront(all, task))
    ensures DistinctTasks(ToFront(all, task))
  {
    var id := task.taskId;
    WithoutFacts(all, id);
    WithoutMembers(all, id);
    if |all| > LIMIT {
      var cut, full := Without(all[..LIMIT], id), Without(all, id);
      WithoutPrefix(all, id, LIMIT);
      WithoutFacts(all[..LIMIT], id);
      assert cut[..LIMIT - 1] == full[..LIMIT - 1];
      assert Truncate([task] + cut) == [task] + cut[..LIMIT - 1];
      assert Truncate([task] + full) == [task] + full[..LIMIT - 1];
    }
  }

  /** From a snapshot with at most 100 tasks of distinct identities, cutting the list at every event shows
      exactly the first 100 entries of the list that is never cut, and identities stay distinct. */
  lemma {:induction false} BoundedListAgrees(start: Snapshot, log: seq<Change>, n: nat)
    requires n <= |log| && |start.tasks| <= LIMIT && DistinctTasks(start.tasks)
    ensures DistinctTasks(ReplayAll(start.tasks, log, n))
    ensures Replay(start, log, n).tasks == Truncate(ReplayAll(start.tasks, log, n))
  {
    if n > 0 {
      BoundedListAgrees(start, log, n - 1);
      if log[n - 1].TaskChange? {
        TruncateCommutes(ReplayAll(start.tasks, log, n - 1), log[n - 1].task);
      }
    }
  }

  // ---- What the copy holds ----

  /** The projects shown are those of the latest change of the projects, or the snapshot's. */
  lemma {:induction false} ProjectsAreLatest(start: Snapshot, log: seq<Change>, n: nat, k: int)
    requires -1 <= k < n <= |log| && (forall i :: k < i < n ==> log[i].TaskChange?)
    requires k >= 0 ==> log[k].ProjectsChange?
    ensures Replay(start, log, n).projects == if k >= 0 then log[k].projects else start.projects
    decreases n
  {
    if k < n - 1 {
      if n - 1 > 0 {
        ProjectsAreLatest(start, log, n - 1, k);
      }
    }
  }

  /** In the list that is never cut, a task has the body of its latest change, or the snapshot's, and its place is
      decided by the changes after that one: each other task changed later is in front of it. */
  lemma {:induction false} TaskIsLatest(tasks: seq<Task>, log: seq<Change>, n: nat, k: nat)
    requires k < n <= |log| && log[k].TaskChange? && DistinctTasks(tasks)
    requires forall i :: k < i < n && log[i].TaskChange? ==> log[i].task.taskId != log[k].task.taskId
    ensures log[k].task in ReplayAll(tasks, log, n)
    ensures (forall i :: k < i < n ==> log[i].ProjectsChange?) ==> ReplayAll(tasks, log, n)[0] == log[k].task
    decreases n
  {
    if k < n - 1 {
      TaskIsLatest(tasks, log, n - 1, k);
      if log[n - 1].TaskChange? {
        WithoutMembers(ReplayAll(tasks, log, n - 1), log[n - 1].task.taskId);
      }
    }
  }

  /** A task no change was about stays as the snapshot has it. */
  lemma {:induction false} UnchangedTaskStays(tasks: seq<Task>, log: seq<Change>, n: nat, task: Task)
    requires n <= |log| && forall i :: 0 <= i < n && log[i].TaskChange? ==> log[i].task.taskId != task.taskId
    ensures task in ReplayAll(tasks, log, n) <==> task in tasks
  {
    if n > 0 {
      UnchangedTaskStays(tasks, log, n - 1, task);
      if log[n - 1].TaskChange? {
        WithoutMembers(ReplayAll(tasks, log, n - 1), log[n - 1].task.taskId);
      }
    }
  }

  /** A change of one task keeps the others in their order behind it. */
  lemma {:induction false} OthersKeepOrder(tasks: seq<Task>, task: Task, i: nat, j: nat) returns (a: nat, b: nat)
    requires i < j < |tasks| && tasks[i].taskId != task.taskId && tasks[j].taskId != task.taskId
    ensures var moved := ToFront(tasks, task);
            0 < a < b < |moved| && moved[0] == task && moved[a] == tasks[i] && moved[b] == tasks[j]
  {
    var x := PlaceWithout(tasks, task.taskId, i);
    var y := PlaceWithout(tasks, task.taskId, j);
    PlacesInOrder(tasks, task.taskId, i, j);
    a, b := x + 1, y + 1;
  }

  /** How many of the first `i` tasks have another identity: the place of task `i` once that identity is removed. */
  function Others(tasks: seq<Task>, id: string, i: nat): nat
    requires i <= |tasks|
  {
    if i == 0 then 0 else (if tasks[0].taskId == id then 0 else 1) + Others(tasks[1..], id, i - 1)
  }

  lemma {:induction false} PlaceWithout(tasks: seq<Task>, id: string, i: nat) returns (place: nat)
    requires i < |tasks| && tasks[i].taskId != id
    ensures place == Others(tasks, id, i) < |Without(tasks, id)| && Without(tasks, id)[place] == tasks[i]
    decreases i
  {
    if i == 0 {
      place := 0;
    } else {
      var rest := PlaceWithout(tasks[1..], id, i - 1);
      place := rest + if tasks[0].taskId == id then 0 else 1;
    }
  }

  lemma {:induction false} PlacesInOrder(tasks: seq<Task>, id: string, i: nat, j: nat)
    requires i < j < |tasks| && tasks[i].taskId != id
    ensures Others(tasks, id, i) < Others(tasks, id, j)
    decreases i
  {
    if i > 0 {
      PlacesInOrder(tasks[1..], id, i - 1, j - 1);
    }
  }
}
