/** The draft of one composer (`NativeComposer` in prototypes/src/native/Conversation.tsx) and the queue
    submissions made from it (`deliver` and the confirmation effect of prototypes/src/native/NativeInputs.tsx). */
module Composer {
  import opened Options
  import opened Text

  datatype Suggestion = Suggestion(id: nat, text: string)

  /** A text handed to the Host, with the draft revision it was taken at. */
  datatype Sent = Sent(text: string, revision: nat)

  /** `queued` is the `submitted` ref of NativeInputs, under the identity of its input. */
  datatype QueuedInput = QueuedInput(inputId: nat, sent: Sent)

  datatype Draft = Draft(
    text: string, revision: nat, composing: bool, busy: bool,
    submitted: Option<Sent>, calls: map<nat, Sent>, queued: Option<QueuedInput>,
    suggestion: Option<Suggestion>, seen: Option<nat>, drawn: nat)

  const Empty: Draft := Draft("", 0, false, false, None, map[], None, None, None, 0)

  datatype Event =
    | Type(text: string)
    | CompositionStart
    | CompositionEnd
    | Suggest(text: string)
    | Submit
    | Accepted(id: nat)
    | Rejected(id: nat)
    | Acknowledge(prompt: string)
    | Deliver
    | Confirm(inputId: nat, text: string)

  function ApplySuggestion(d: Draft): Draft {
    if d.suggestion.None? || d.composing || d.seen == Some(d.suggestion.value.id) then d
    else d.(seen := Some(d.suggestion.value.id), revision := d.revision + 1,
            text := if Blank(d.text) then d.suggestion.value.text else d.text + "\n\n" + d.suggestion.value.text)
  }

  /** The effect on a new `c.acknowledged`. */
  function OnAcknowledged(d: Draft, prompt: string): Draft {
    if d.submitted.None? || d.submitted.value.text != prompt then d
    else d.(submitted := None, text := if d.submitted.value.revision == d.revision then "" else d.text)
  }

  /** `onInputAccepted`. */
  function OnInputAccepted(d: Draft, sent: Sent): Draft {
    if d.composing || d.revision != sent.revision then d
    else d.(revision := d.revision + 1, text := if d.text == sent.text then "" else d.text)
  }

  predicate Enabled(d: Draft, e: Event) {
    match e
    case Accepted(id) => id in d.calls
    case Rejected(id) => id in d.calls
    case _ => true
  }

  function Step(d: Draft, e: Event): Draft
    requires Enabled(d, e)
  {
    match e
    case Type(text) => d.(text := text, revision := d.revision + 1)
    case CompositionStart => d.(composing := true)
    case CompositionEnd => ApplySuggestion(d.(composing := false))
    case Suggest(text) => ApplySuggestion(d.(suggestion := Some(Suggestion(d.drawn, text)), drawn := d.drawn + 1))
    case Submit =>
      if d.busy || d.composing || Blank(d.text) then d
      else d.(busy := true, submitted := Some(Sent(d.text, d.revision)),
              calls := d.calls[d.drawn := Sent(d.text, d.revision)], drawn := d.drawn + 1)
    case Accepted(id) =>
      var sent := d.calls[id];
      d.(busy := false, calls := d.calls - {id}, text := if d.revision == sent.revision then "" else d.text)
    case Rejected(id) => d.(busy := false, calls := d.calls - {id})
    case Acknowledge(prompt) => OnAcknowledged(d, prompt)
    case Deliver =>
      if d.composing || Blank(d.text) then d
      else d.(queued := Some(QueuedInput(d.drawn, Sent(d.text, d.revision))), drawn := d.drawn + 1)
    case Confirm(inputId, text) =>
      if d.queued.None? || d.queued.value.inputId != inputId || d.queued.value.sent.text != text then d
      else OnInputAccepted(d, d.queued.value.sent).(queued := None)
  }

  /** A submission taken at the current revision took the current text, unless that is already cleared. */
  ghost predicate Current(d: Draft, sent: Sent) {
    sent.revision <= d.revision && (sent.revision == d.revision ==> d.text == sent.text || d.text == "")
  }

  ghost predicate Inv(d: Draft) {
    && (d.submitted.Some? ==> Current(d, d.submitted.value))
    && (d.queued.Some? ==> Current(d, d.queued.value.sent))
    && (forall id :: id in d.calls ==> Current(d, d.calls[id]))
  }

  /** Text only leaves a revision by being cleared, and submissions are only forgotten. */
  lemma QuietChangeKeeps(d: Draft, next: Draft)
    requires Inv(d)
    requires d.revision < next.revision || (d.revision == next.revision && next.text in {d.text, ""})
    requires next.submitted in {None, d.submitted} && next.queued in {None, d.queued}
    requires forall id :: id in next.calls ==> id in d.calls && next.calls[id] == d.calls[id]
    ensures Inv(next)
  {
  }

  lemma StepKeeps(d: Draft, e: Event)
    requires Inv(d) && Enabled(d, e)
    ensures Inv(Step(d, e))
  {
    if !e.Submit? && !e.Deliver? {
      QuietChangeKeeps(d, Step(d, e));
    }
  }

  /** The event is the Host's answer to the very submission `sent`: the end of its own call, the acknowledgement of the
      last submission, or the confirmation of the queued input. */
  predicate Answers(d: Draft, e: Event, sent: Sent) {
    match e
    case Accepted(id) => id in d.calls && d.calls[id] == sent
    case Acknowledge(prompt) => d.submitted == Some(sent) && prompt == sent.text
    case Confirm(inputId, text) => d.queued == Some(QueuedInput(inputId, sent)) && text == sent.text
    case _ => false
  }

  /** What the program may do to the draft by itself: append a suggestion, put one in place of a blank draft, or
      clear the draft on the answer to a submission of exactly this text at exactly this revision. */
  lemma ProgramTouchesDraft(d: Draft, e: Event)
    requires Inv(d) && Enabled(d, e) && !e.Type? && Step(d, e).text != d.text
    ensures (Step(d, e).text == "" && Answers(d, e, Sent(d.text, d.revision)))
         || (Step(d, e).suggestion.Some? && Step(d, e).text == d.text + "\n\n" + Step(d, e).suggestion.value.text)
         || (Step(d, e).suggestion.Some? && Step(d, e).text == Step(d, e).suggestion.value.text && Blank(d.text))
  {
  }

  // ---- What the events must do ----

  /** A non-blank draft is emptied exactly by the Host's answer to a submission of it, except that a confirmation during
      composition waits for nothing and leaves it. */
  lemma EmptiedExactly(d: Draft, e: Event)
    requires Inv(d) && Enabled(d, e) && !e.Type? && !Blank(d.text)
    ensures Step(d, e).text == "" <==> Answers(d, e, Sent(d.text, d.revision)) && !(e.Confirm? && d.composing)
  {
  }

  /** What a submission records: a call for the text and revision, and the same as the last submission. */
  lemma SubmitRecords(d: Draft)
    requires Inv(d)
    ensures var next, sent := Step(d, Submit), Sent(d.text, d.revision);
            if d.busy || d.composing || Blank(d.text) then next == d
            else
              next == d.(busy := true, submitted := Some(sent), calls := d.calls[d.drawn := sent], drawn := d.drawn + 1)
  {
  }

  /** What a delivery to the queue records: the text and revision under a new input. */
  lemma DeliverRecords(d: Draft)
    requires Inv(d)
    ensures var next := Step(d, Deliver);
            if d.composing || Blank(d.text) then next == d
            else next == d.(queued := Some(QueuedInput(d.drawn, Sent(d.text, d.revision))), drawn := d.drawn + 1)
  {
  }

  /** Typing shows the text under a new revision, so no earlier submission is of it. */
  lemma TypingIsNew(d: Draft, text: string)
    requires Inv(d)
    ensures var next := Step(d, Type(text));
            && next.text == text && next.busy == d.busy
            && (forall id :: id in next.calls ==> next.calls[id].revision != next.revision)
            && (next.submitted.Some? ==> next.submitted.value.revision != next.revision)
            && (next.queued.Some? ==> next.queued.value.sent.revision != next.revision)
  {
  }

  /** The end of a call frees the composer and forgets the call, whatever the outcome. */
  lemma CallEnds(d: Draft, id: nat, accepted: bool)
    requires Inv(d) && id in d.calls
    ensures var next := Step(d, if accepted then Accepted(id) else Rejected(id));
            && !next.busy && next.calls == d.calls - {id} && next.revision == d.revision
            && (!accepted ==> next.text == d.text)
  {
  }

  /** A new suggestion goes below the draft, or in place of a blank one, once: at once, or when the composition ends. */
  lemma SuggestionShows(d: Draft, text: string)
    requires Inv(d) && (d.seen.Some? ==> d.seen.value < d.drawn)
    ensures var next := Step(d, Suggest(text));
            var ended := Step(next, CompositionEnd);
            var joined := if Blank(d.text) then text else d.text + "\n\n" + text;
            && next.text == (if d.composing then d.text else joined)
            && ended.text == joined && Step(ended, CompositionEnd).text == joined
  {
  }

  /** An answer is used up: an acknowledgement forgets the submission with its text, and a confirmation the queued
      input, taking a new revision if it was of the text that is still there. */
  lemma AnswersAreUsedUp(d: Draft, prompt: string, inputId: nat)
    requires Inv(d)
    ensures d.submitted.Some? && d.submitted.value.text == prompt ==> Step(d, Acknowledge(prompt)).submitted.None?
    ensures d.queued.Some? && d.queued.value.inputId == inputId && d.queued.value.sent.text == prompt ==>
              var next := Step(d, Confirm(inputId, prompt));
              && next.queued.None?
              && (next.revision > d.revision <==> !d.composing && d.queued.value.sent.revision == d.revision)
  {
  }

  /** Composition is noted, and only its end may bring a suggestion in. */
  lemma CompositionNoted(d: Draft)
    ensures Step(d, CompositionStart) == d.(composing := true)
    ensures !Step(d, CompositionEnd).composing
    ensures d.suggestion.None? || d.seen == Some(d.suggestion.value.id) ==>
              Step(d, CompositionEnd) == d.(composing := false)
  {
  }

  /** Calls, queued inputs and suggestions never share a number. */
  lemma NumbersAreNew(d: Draft, e: Event)
    requires Enabled(d, e)
    ensures (e.Suggest? || Step(d, e).calls.Keys - d.calls.Keys != {} || (e.Deliver? && Step(d, e) != d)) ==>
              Step(d, e).drawn > d.drawn
  {
  }

  ghost predicate IsRun(states: seq<Draft>, events: seq<Event>) {
    && |states| == |events| + 1 && states[0] == Empty
    && forall i {:trigger events[i]} :: 0 <= i < |events| ==>
         Enabled(states[i], events[i]) && states[i + 1] == Step(states[i], events[i])
  }

  lemma {:induction false} Reachable(states: seq<Draft>, events: seq<Event>, k: nat)
    requires IsRun(states, events) && k < |states|
    ensures Inv(states[k])
  {
    if k > 0 {
      Reachable(states, events, k - 1);
      StepKeeps(states[k - 1], events[k - 1]);
    }
  }

  /** The event at `j` hands over a text and revision, under the number of its call or input. */
  ghost predicate Hands(d: Draft, e: Event, next: Draft, sent: Sent) {
    && sent == Sent(d.text, d.revision) && d.drawn < next.drawn
    && match e
       case Submit => d.drawn in next.calls && next.calls[d.drawn] == sent && next.submitted == Some(sent)
       case Deliver => next.queued == Some(QueuedInput(d.drawn, sent))
       case _ => false
  }

  /** The submission made at `j` is the one that the event at `m` answers. */
  ghost predicate AnswersSubmission(states: seq<Draft>, events: seq<Event>, j: nat, m: nat, sent: Sent)
    requires |states| == |events| + 1
  {
    && j < m < |events| && Hands(states[j], events[j], states[j + 1], sent) && Answers(states[m], events[m], sent)
    && match events[m]
       case Accepted(id) => events[j].Submit? && id == states[j].drawn
       case Acknowledge(_) => events[j].Submit?
       case Confirm(inputId, _) => events[j].Deliver? && inputId == states[j].drawn
       case _ => false
  }

  lemma {:induction false} CallSource(states: seq<Draft>, events: seq<Event>, m: nat, id: nat) returns (j: nat)
    requires IsRun(states, events) && m < |states| && id in states[m].calls
    ensures j < m && events[j].Submit? && states[j].drawn == id
    ensures Hands(states[j], events[j], states[j + 1], states[m].calls[id])
  {
    var before, e := states[m - 1], events[m - 1];
    if id in before.calls && before.calls[id] == states[m].calls[id] {
      j := CallSource(states, events, m - 1, id);
    } else {
      j := m - 1;
    }
  }

  lemma {:induction false} SubmittedSource(states: seq<Draft>, events: seq<Event>, m: nat) returns (j: nat)
    requires IsRun(states, events) && m < |states| && states[m].submitted.Some?
    ensures j < m && events[j].Submit? && Hands(states[j], events[j], states[j + 1], states[m].submitted.value)
  {
    var before, e := states[m - 1], events[m - 1];
    if e.Submit? && states[m] != before {
      j := m - 1;
    } else {
      j := SubmittedSource(states, events, m - 1);
    }
  }

  lemma {:induction false} QueuedSource(states: seq<Draft>, events: seq<Event>, m: nat) returns (j: nat)
    requires IsRun(states, events) && m < |states| && states[m].queued.Some?
    ensures j < m && events[j].Deliver? && states[j].drawn == states[m].queued.value.inputId
    ensures Hands(states[j], events[j], states[j + 1], states[m].queued.value.sent)
  {
    var before, e := states[m - 1], events[m - 1];
    if e.Deliver? && states[m] != before {
      j := m - 1;
    } else {
      j := QueuedSource(states, events, m - 1);
    }
  }

  /** Every answer that can clear a draft goes back to the submission it answers. */
  lemma AnswerSource(states: seq<Draft>, events: seq<Event>, m: nat, sent: Sent) returns (j: nat)
    requires IsRun(states, events) && m < |events| && Answers(states[m], events[m], sent)
    ensures AnswersSubmission(states, events, j, m, sent)
  {
    match events[m] {
      case Accepted(id) => j := CallSource(states, events, m, id);
      case Acknowledge(_) => j := SubmittedSource(states, events, m);
      case Confirm(_, _) => j := QueuedSource(states, events, m);
    }
  }

  /** Over every order of composing, suggestions, submissions, answers, failures and confirmations, and any number
      of them: a non-blank draft that the user does not type over still begins the text, unless the Host answered,
      within the segment, a submission of the very text and revision that were then in the composer and began with
      the draft. */
  lemma {:induction false} DraftNeverLost(states: seq<Draft>, events: seq<Event>, i: nat, k: nat)
      returns (j: nat, m: nat)
    requires IsRun(states, events) && i <= k < |states| && !Blank(states[i].text)
    requires forall n :: i <= n < k ==> !events[n].Type?
    ensures !(states[i].text <= states[k].text) ==>
              && i <= m < k && states[i].text <= states[m].text
              && AnswersSubmission(states, events, j, m, Sent(states[m].text, states[m].revision))
    decreases k
  {
    j, m := 0, 0;
    if i < k {
      j, m := DraftNeverLost(states, events, i, k - 1);
      if states[i].text <= states[k - 1].text && !(states[i].text <= states[k].text) {
        m := k - 1;
        j := DraftSurvivesStep(states, events, states[i].text, m);
      }
    }
  }

  lemma DraftSurvivesStep(states: seq<Draft>, events: seq<Event>, draft: string, m: nat) returns (j: nat)
    requires IsRun(states, events) && m < |events| && !events[m].Type? && !Blank(draft)
    requires draft <= states[m].text && !(draft <= states[m + 1].text)
    ensures AnswersSubmission(states, events, j, m, Sent(states[m].text, states[m].revision))
  {
    Reachable(states, events, m);
    BlankPrefix(draft, states[m].text);
    ProgramTouchesDraft(states[m], events[m]);
    j := AnswerSource(states, events, m, Sent(states[m].text, states[m].revision));
  }

  lemma BlankPrefix(short: string, long: string)
    requires short <= long && !Blank(short)
    ensures !Blank(long)
  {
    var i :| 0 <= i < |short| && !WhiteSpace(short[i]);
    assert long[i] == short[i];
  }

  /** The refs and the state of the component. */
  class NativeComposer {
    var text: string
    var revision: nat
    var composing: bool
    var busy: bool
    var submitted: Option<Sent>
    var calls: map<nat, Sent>
    var queued: Option<QueuedInput>
    var suggestion: Option<Suggestion>
    var seen: Option<nat>
    var drawn: nat

    constructor ()
      ensures Value() == Empty
    {
      text, revision, composing, busy := "", 0, false, false;
      submitted, calls, queued, suggestion, seen := None, map[], None, None, None;
      drawn := 0;
    }

    ghost function Value(): Draft
      reads this
    {
      Draft(text, revision, composing, busy, submitted, calls, queued, suggestion, seen, drawn)
    }

    method ApplyNewSuggestion()
      modifies this`seen, this`revision, this`text
      ensures Value() == ApplySuggestion(old(Value()))
    {
      if suggestion.None? || composing || seen == Some(suggestion.value.id) { return; }
      seen, revision := Some(suggestion.value.id), revision + 1;
      text := if Blank(text) then suggestion.value.text else text + "\n\n" + suggestion.value.text;
    }

    method Send()
      modifies this
      ensures Value() == Step(old(Value()), Submit)
    {
      if busy || composing || Blank(text) { return; }
      busy, submitted := true, Some(Sent(text, revision));
      calls, drawn := calls[drawn := Sent(text, revision)], drawn + 1;
    }

    method OnSent(id: nat, accepted: bool)
      requires id in calls
      modifies this
      ensures Value() == Step(old(Value()), if accepted then Accepted(id) else Rejected(id))
    {
      var sent := calls[id];
      if accepted && revision == sent.revision { text := ""; }
      busy, calls := false, calls - {id};
    }

    method OnAcknowledgedEffect(prompt: string)
      modifies this
      ensures Value() == OnAcknowledged(old(Value()), prompt)
    {
      if submitted.Some? && submitted.value.text == prompt {
        if submitted.value.revision == revision { text := ""; }
        submitted := None;
      }
    }

    method OnConfirmed(inputId: nat, confirmedText: string)
      modifies this
      ensures Value() == Step(old(Value()), Confirm(inputId, confirmedText))
    {
      if queued.None? || queued.value.inputId != inputId || queued.value.sent.text != confirmedText { return; }
      var sent := queued.value.sent;
      if !composing && revision == sent.revision {
        revision := revision + 1;
        if text == sent.text { text := ""; }
      }
      queued := None;
    }

    /** Whatever happens next, the composer takes its step and keeps the invariant. */
    method Handle(e: Event)
      requires Inv(Value()) && Enabled(Value(), e)
      modifies this
      ensures Value() == Step(old(Value()), e) && Inv(Value())
    {
      StepKeeps(Value(), e);
      match e {
        case Type(typed) => text, revision := typed, revision + 1;
        case CompositionStart => composing := true;
        case CompositionEnd =>
          composing := false;
          ApplyNewSuggestion();
        case Suggest(suggested) =>
          suggestion, drawn := Some(Suggestion(drawn, suggested)), drawn + 1;
          ApplyNewSuggestion();
        case Submit => Send();
        case Accepted(id) => OnSent(id, true);
        case Rejected(id) => OnSent(id, false);
        case Acknowledge(prompt) => OnAcknowledgedEffect(prompt);
        case Deliver =>
          if !composing && !Blank(text) {
            queued, drawn := Some(QueuedInput(drawn, Sent(text, revision))), drawn + 1;
          }
        case Confirm(inputId, confirmed) => OnConfirmed(inputId, confirmed);
      }
    }
  }
}
