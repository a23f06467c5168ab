/** The queue form of webui/src/SettingsQueue.tsx: the identity a queued message is submitted under, and the text
    that is cleared once the queue confirms it. */
module SettingsQueue {
  import opened Options
  import opened InputContracts

  datatype Submission = Submission(input: Content, version: nat)

  /** `handed` is history: every input given to `act` by `enqueue`. */
  datatype Form = Form(text: string, textVersion: nat, submission: Option<Submission>, drawn: seq<string>,
                       handed: set<Content>)

  /** `next` is what `crypto.randomUUID` yields if it is called. */
  datatype Event =
    | Rescope
    | Type(text: string)
    | Enqueue(ready: bool, binding: Binding, next: string)
    | Confirmed(input: Content)

  const Start: Form := Form("", 0, None, [], {})

  /** The input `enqueue` submits: the remembered identity if the content is the same, else a new one. */
  function Submitted(f: Form, binding: Binding, next: string): Content {
    var id := if f.submission.Some? then f.submission.value.input.inputId else next;
    var input := Content(id, ByQueue, f.text, [], binding);
    if f.submission.Some? && !SameInput(f.submission.value.input, input) then input.(inputId := next) else input
  }

  predicate Enabled(f: Form, e: Event) { e.Enqueue? ==> e.next !in f.drawn }

  function Step(f: Form, e: Event): Form
    requires Enabled(f, e)
  {
    match e
    case Rescope => f.(textVersion := f.textVersion + 1, submission := None, text := "")
    case Type(text) => f.(textVersion := f.textVersion + 1, text := text)
    case Enqueue(ready, binding, next) =>
      if !ready then f
      else
        var input := Submitted(f, binding, next);
        f.(submission := Some(Submission(input, f.textVersion)), drawn := f.drawn + [next],
          handed := f.handed + {input})
    case Confirmed(input) =>
      if f.submission.None? || !SameInput(f.submission.value.input, input) then f
      else if f.textVersion != f.submission.value.version then f.(submission := None)
      else f.(submission := None, textVersion := f.textVersion + 1, text := "")
  }

  ghost predicate Inv(f: Form) {
    && (f.submission.Some? ==> f.submission.value.input in f.handed && f.submission.value.version <= f.textVersion)
    && (f.submission.Some? && f.submission.value.version == f.textVersion ==> f.submission.value.input.text == f.text)
    && (forall input :: input in f.handed ==> input.inputId in f.drawn)
    && (forall x, y :: x in f.handed && y in f.handed && x.inputId == y.inputId ==> x == y)
  }

  lemma StepKeeps(f: Form, e: Event)
    requires Inv(f) && Enabled(f, e)
    ensures Inv(Step(f, e)) && f.handed <= Step(f, e).handed
  {
    if e.Enqueue? && e.ready {
      var input := Submitted(f, e.binding, e.next);
      if f.submission.Some? {
        SameInputIsEquality(f.submission.value.input, input);
      }
    }
  }

  /** Apart from typing, the text changes only by being emptied: on a change of scope, or when the queue confirms the
      remembered input, taken at the current version of the text and with exactly that text. */
  lemma ClearedTextWasConfirmed(f: Form, e: Event)
    requires Inv(f) && Enabled(f, e) && !e.Type? && Step(f, e).text != f.text
    ensures Step(f, e).text == ""
    ensures e.Rescope?
         || (e.Confirmed? && f.submission == Some(Submission(e.input, f.textVersion)) && e.input.text == f.text)
  {
    if e.Confirmed? {
      SameInputIsEquality(f.submission.value.input, e.input);
    }
  }

  /** What `enqueue` hands over: the text of the form as a queued message with the task's binding, under the remembered
      identity exactly if that is the identity of this very content, else under the new one. */
  lemma EnqueueHandsOver(f: Form, binding: Binding, next: string)
    requires Inv(f) && Enabled(f, Event.Enqueue(true, binding, next))
    ensures var after := Step(f, Event.Enqueue(true, binding, next));
            && after.submission.Some? && after.submission.value.version == f.textVersion && after.text == f.text
            && var input := after.submission.value.input;
               && input.text == f.text && input.binding == binding && input.delivery == ByQueue && input.materials == []
               && input in after.handed
               && if f.submission.Some? && f.submission.value.input.(inputId := "") == input.(inputId := "")
                  then input.inputId == f.submission.value.input.inputId else input.inputId == next
  {
    if f.submission.Some? {
      SameInputIsEquality(f.submission.value.input,
        Content(f.submission.value.input.inputId, ByQueue, f.text, [], binding));
    }
  }

  /** Typing shows the text, a change of scope empties the form and forgets the submission, and both take a new
      version. */
  lemma TextIsNew(f: Form, text: string)
    requires Inv(f)
    ensures Step(f, Type(text)).text == text && Step(f, Type(text)).submission == f.submission
    ensures Step(f, Rescope).text == "" && Step(f, Rescope).submission.None?
    ensures Step(f, Type(text)).textVersion > f.textVersion && Step(f, Rescope).textVersion > f.textVersion
  {
  }

  /** The confirmation of the remembered input forgets it, so that the same text later is a new input; emptying
      takes a new version. The confirmation of any other input changes nothing. */
  lemma ConfirmationForgets(f: Form, input: Content)
    requires Inv(f)
    ensures var next := Step(f, Confirmed(input));
            if f.submission.Some? && f.submission.value.input == input then
              && next.submission.None?
              && (f.submission.value.version == f.textVersion ==> next.text == "" && next.textVersion > f.textVersion)
              && (f.submission.value.version != f.textVersion ==>
                   next.text == f.text && next.textVersion == f.textVersion)
            else next == f
  {
    if f.submission.Some? {
      SameInputIsEquality(f.submission.value.input, input);
    }
  }

  /** A non-empty text is emptied exactly by a change of scope, or by the confirmation of the remembered input at
      the version it was taken from. */
  lemma EmptiedExactly(f: Form, e: Event)
    requires Inv(f) && Enabled(f, e) && !e.Type? && f.text != ""
    ensures Step(f, e).text == "" <==>
              e.Rescope? || (e.Confirmed? && f.submission == Some(Submission(e.input, f.textVersion)))
  {
    if e.Confirmed? && f.submission.Some? {
      SameInputIsEquality(f.submission.value.input, e.input);
    }
  }

  ghost predicate IsRun(states: seq<Form>, events: seq<Event>) {
    && |states| == |events| + 1 && states[0] == Start
    && forall i {:trigger events[i]} :: 0 <= i < |events| ==>
         Enabled(states[i], events[i]) && states[i + 1] == Step(states[i], events[i])
  }

  lemma {:induction false} Reachable(states: seq<Form>, events: seq<Event>, k: nat)
    requires IsRun(states, events) && k < |states|
    ensures Inv(states[k]) && forall i :: 0 <= i <= k ==> states[i].handed <= states[k].handed
  {
    if k > 0 {
      Reachable(states, events, k - 1);
      StepKeeps(states[k - 1], events[k - 1]);
    }
  }

  /** The `enqueue` at `j` handed over `input`, taken at the version its text still has. */
  ghost predicate HandedAt(f: Form, e: Event, input: Content, version: nat) {
    && e.Enqueue? && e.ready && version == f.textVersion
    && input == Submitted(f, e.binding, e.next) && input.text == f.text
  }

  lemma {:induction false} SubmissionSource(states: seq<Form>, events: seq<Event>, k: nat) returns (j: nat)
    requires IsRun(states, events) && k < |states| && states[k].submission.Some?
    ensures j < k
    ensures HandedAt(states[j], events[j], states[k].submission.value.input, states[k].submission.value.version)
  {
    var e := events[k - 1];
    if e.Enqueue? && e.ready {
      j := k - 1;
    } else {
      j := SubmissionSource(states, events, k - 1);
    }
  }

  /** Over every run segment without typing and scope changes: the text is still there, or the queue confirmed
      within the segment the very input that an `enqueue` took from it at the version it still had. */
  lemma {:induction false} TextNeverLost(states: seq<Form>, events: seq<Event>, i: nat, k: nat) returns (j: nat, m: nat)
    requires IsRun(states, events) && i <= k < |states|
    requires forall n :: i <= n < k ==> !events[n].Type? && !events[n].Rescope?
    ensures states[k].text != states[i].text ==>
              && i <= m < k && j < m && states[m].text == states[i].text && states[k].text == ""
              && events[m].Confirmed? && HandedAt(states[j], events[j], events[m].input, states[m].textVersion)
    decreases k
  {
    j, m := 0, 0;
    if i < k {
      j, m := TextNeverLost(states, events, i, k - 1);
      if states[k].text != states[k - 1].text {
        Reachable(states, events, k - 1);
        ClearedTextWasConfirmed(states[k - 1], events[k - 1]);
        if states[k - 1].text == states[i].text {
          m := k - 1;
          j := SubmissionSource(states, events, m);
        }
      }
    }
  }

  /** Over every run no input identity is handed over with two contents. */
  lemma {:induction false} IdentityBindsContent(states: seq<Form>, events: seq<Event>, i: nat, k: nat, x: Content,
      y: Content)
    requires IsRun(states, events) && i <= k < |states| && x in states[i].handed && y in states[k].handed
    requires x.inputId == y.inputId
    ensures x == y
  {
    Reachable(states, events, k);
  }

  /** The component. */
  class SettingsQueueForm {
    var text: string
    var textVersion: nat
    var submission: Option<Submission>
    ghost var drawn: seq<string>
    ghost var handed: set<Content>

    ghost function View(): Form
      reads this
    {
      Form(text, textVersion, submission, drawn, handed)
    }

    constructor ()
      ensures View() == Start
    {
      text, textVersion, submission := "", 0, None;
      drawn, handed := [], {};
    }

    method Submit(ready: bool, binding: Binding, next: string) returns (sent: Option<Content>)
      requires Enabled(View(), Event.Enqueue(ready, binding, next))
      modifies this`submission, this`drawn, this`handed
      ensures View() == Step(old(View()), Event.Enqueue(ready, binding, next))
      ensures sent.Some? <==> ready
      ensures ready ==> sent.value == Submitted(old(View()), binding, next)
    {
      if !ready { return None; }
      var input := Content(if submission.Some? then submission.value.input.inputId
        else next, ByQueue, text, [], binding);
      if submission.Some? && !SameInput(submission.value.input, input) {
        input := input.(inputId := next);
      }
      submission := Some(Submission(input, textVersion));
      drawn, handed := drawn + [next], handed + {input};
      return Some(input);
    }

    method OnConfirmed(input: Content)
      modifies this
      ensures View() == Step(old(View()), Confirmed(input))
    {
      if submission.None? || !SameInput(submission.value.input, input) { return; }
      if textVersion == submission.value.version {
        textVersion, text := textVersion + 1, "";
      }
      submission := None;
    }

    /** Whatever happens next, the form takes its step and keeps the invariant. */
    method Handle(e: Event)
      requires Inv(View()) && Enabled(View(), e)
      modifies this
      ensures View() == Step(old(View()), e) && Inv(View())
    {
      StepKeeps(View(), e);
      match e {
        case Rescope => textVersion, submission, text := textVersion + 1, None, "";
        case Type(typed) => textVersion, text := textVersion + 1, typed;
        case Enqueue(ready, binding, next) => var _ := Submit(ready, binding, next);
        case Confirmed(input) => OnConfirmed(input);
      }
    }
  }
}
