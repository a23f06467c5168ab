/** The manual editor: the open-file map of webui/src/EditorWorkspace.tsx and its operations. The Host's
    conditional save is in `EditorHost`. */
module Editor {
  import opened Options

  const TAB_LIMIT := 12

  /** `fileVersion`: the digest of a text, taken as injective. */
  datatype Version = Sha256(text: string)

  datatype OpenFile = OpenFile(version: Version, baseline: string, text: string, original: string, dirty: bool)
  datatype Tab = Tab(path: string, dirty: bool)

  /** The `files` map with its insertion order, the active path and the tab list last rendered. */
  datatype Files = Files(order: seq<string>, byPath: map<string, OpenFile>, active: string, tabs: seq<Tab>)

  const NoFiles: Files := Files([], map[], "", [])

  function Listing(order: seq<string>, byPath: map<string, OpenFile>): seq<Tab> {
    seq(|order|, i requires 0 <= i < |order| => Tab(order[i], order[i] in byPath && byPath[order[i]].dirty))
  }

  function RefreshTabs(f: Files): Files { f.(tabs := Listing(f.order, f.byPath)) }

  predicate AnyDirty(f: Files) { exists i :: 0 <= i < |f.tabs| && f.tabs[i].dirty }

  predicate Distinct(order: seq<string>) { forall i, j :: 0 <= i < j < |order| ==> order[i] != order[j] }

  function Without(order: seq<string>, path: string): (rest: seq<string>)
    requires Distinct(order)
    ensures Distinct(rest) && |rest| <= |order|
    ensures forall p :: p in rest <==> p in order && p != path
  {
    if order == [] then []
    else if order[0] == path then order[1..]
    else
      var rest := Without(order[1..], path);
      assert order == [order[0]] + order[1..] && order[0] !in rest;
      [order[0]] + rest
  }

  // ---- What the operations do to the map ----

  function Opened(f: Files, path: string, text: string, version: Version): Files {
    RefreshTabs(f.(order := f.order + [path], byPath := f.byPath[path := OpenFile(version, text, text, text, false)],
      active := path))
  }

  /** The change listener. */
  function Typed(f: Files, path: string, text: string): Files
    requires path in f.byPath
  {
    var file := f.byPath[path];
    var dirty := text != file.baseline;
    var changed := f.(byPath := f.byPath[path := file.(text := text, dirty := dirty)]);
    if dirty != file.dirty then RefreshTabs(changed) else changed
  }

  function Saved(f: Files, path: string, text: string, version: Version): Files
    requires path in f.byPath
  {
    var file := f.byPath[path];
    RefreshTabs(f.(byPath := f.byPath[path := OpenFile(version, text, file.text, text, file.text != text)]))
  }

  function Reloaded(f: Files, path: string, text: string, version: Version): Files
    requires path in f.byPath
  {
    RefreshTabs(f.(byPath := f.byPath[path := OpenFile(version, text, text, text, false)]))
  }

  function Closed(f: Files, path: string): Files
    requires Distinct(f.order)
  {
    var order := Without(f.order, path);
    var active := if f.active != path then f.active else if order == [] then "" else order[0];
    RefreshTabs(f.(order := order, byPath := f.byPath - {path}, active := active))
  }

  // ---- The component ----

  datatype Op =
    | Opening(path: string)
    | Saving(path: string, manual: nat, version: Version, text: string)
    | Reloading(path: string)
    | Entering
    | Leaving(manual: nat)
    | Quitting(manual: nat)

  datatype Call = Call(id: nat, op: Op)

  /** What an open confirmation would run. */
  datatype Question = AskClose(path: string) | AskReload(path: string) | AskLeave | AskQuit

  datatype Answer =
    | FileData(text: string, version: Version)
    | SavedAs(version: Version)
    | Held(manual: nat)
    | Done
    | Failed

  /** `call` is the operation behind `busyRef`. */
  datatype Workspace = Workspace(files: Files, manual: Option<nat>, call: Option<Call>, asking: Option<Question>,
                                 mounted: bool, nextId: nat)

  /** `Adopt` is the answer to the first request of the component, which names a manual mode that is already held. */
  datatype Event =
    | Open(path: string)
    | Pick(path: string)
    | Type(text: string)
    | Close(path: string)
    | Save
    | Reload
    | Enter
    | Leave
    | Quit
    | Keep
    | Confirm
    | Adopt(manual: Option<nat>)
    | Unmount

  /** An open confirmation makes everything but its own buttons and the dialog's close control inert. */
  predicate Enabled(w: Workspace, e: Event) {
    && w.mounted
    && Distinct(w.files.order)
    && (w.asking.Some? ==> e.Keep? || e.Confirm? || e.Quit? || e.Adopt? || e.Unmount?)
    && match e
       case Pick(path) => path in w.files.byPath
       case Close(path) => path in w.files.byPath
       case Type(_) => w.manual.Some? && w.files.active in w.files.byPath
       case Enter => w.manual.None?
       case Leave => w.manual.Some?
       case Keep => w.asking.Some?
       case Confirm => w.asking.Some?
       case _ => true
  }

  /** `operate`, up to its first await. */
  function Operate(w: Workspace, op: Op): Workspace {
    if w.call.Some? then w else w.(call := Some(Call(w.nextId, op)), nextId := w.nextId + 1)
  }

  function Unmounted(w: Workspace): Workspace { w.(mounted := false, files := NoFiles, asking := None) }

  /** The confirmed action of a question. */
  function Run(w: Workspace, question: Question): Workspace
    requires Distinct(w.files.order)
  {
    match question
    case AskClose(path) => w.(files := Closed(w.files, path))
    case AskReload(path) => Operate(w, Reloading(path))
    case AskLeave => if w.manual.Some? then Operate(w, Leaving(w.manual.value)) else w
    case AskQuit =>
      if w.manual.Some? then Operate(w, Quitting(w.manual.value))
      else if w.call.Some? then w else Unmounted(w)
  }

  function Guard(w: Workspace, dirty: bool, question: Question): Workspace
    requires Distinct(w.files.order)
  {
    if w.call.Some? then w else if dirty then w.(asking := Some(question)) else Run(w, question)
  }

  function Step(w: Workspace, e: Event): Workspace
    requires Enabled(w, e)
  {
    var f := w.files;
    match e
    case Open(path) =>
      if path in f.byPath then w.(files := f.(active := path))
      else if |f.order| >= TAB_LIMIT then w
      else Operate(w, Opening(path))
    case Pick(path) => w.(files := f.(active := path))
    case Type(text) => w.(files := Typed(f, f.active, text))
    case Close(path) => Guard(w, f.byPath[path].dirty, AskClose(path))
    case Save =>
      if f.active !in f.byPath || w.manual.None? || !f.byPath[f.active].dirty then w
      else Operate(w, Saving(f.active, w.manual.value, f.byPath[f.active].version, f.byPath[f.active].text))
    case Reload => if f.active !in f.byPath then w else Guard(w, f.byPath[f.active].dirty, AskReload(f.active))
    case Enter => Operate(w, Entering)
    case Leave => Guard(w, AnyDirty(f), AskLeave)
    case Quit => Guard(w, AnyDirty(f), AskQuit)
    case Keep => w.(asking := None)
    case Confirm => Run(w.(asking := None), w.asking.value)
    case Adopt(manual) => w.(manual := manual)
    case Unmount => Unmounted(w)
  }

  /** The continuation of the operation `id`, and its `finally`. */
  function Settle(w: Workspace, id: nat, answer: Answer): Workspace {
    if w.call.None? || w.call.value.id != id then w else
    var idle, f := w.(call := None), w.files;
    match w.call.value.op
    case Opening(path) =>
      if answer.FileData? && w.mounted then idle.(files := Opened(f, path, answer.text, answer.version)) else idle
    case Saving(path, _, _, text) =>
      if answer.SavedAs? && path in f.byPath then idle.(files := Saved(f, path, text, answer.version)) else idle
    case Reloading(path) =>
      if answer.FileData? && path in f.byPath then idle.(files := Reloaded(f, path, answer.text, answer.version))
      else idle
    case Entering => if answer.Held? then idle.(manual := Some(answer.manual)) else idle
    case Leaving(_) => if answer.Done? then idle.(manual := None) else idle
    case Quitting(_) => if answer.Done? then Unmounted(idle) else idle
  }

  // ---- Agreement ----

  ghost predicate Agrees(file: OpenFile) {
    && (file.dirty <==> file.text != file.baseline)
    && file.original == file.baseline
    && file.version == Sha256(file.baseline)
  }

  ghost predicate FilesAgree(f: Files) {
    && Distinct(f.order) && |f.order| <= TAB_LIMIT
    && (forall p :: p in f.order <==> p in f.byPath)
    && (forall p :: p in f.byPath ==> Agrees(f.byPath[p]))
    && (f.active == "" || f.active in f.byPath)
    && f.tabs == Listing(f.order, f.byPath)
  }

  lemma OpenedAgrees(f: Files, path: string, text: string)
    requires FilesAgree(f) && path !in f.byPath && |f.order| < TAB_LIMIT
    ensures FilesAgree(Opened(f, path, text, Sha256(text)))
  {
    var next := Opened(f, path, text, Sha256(text));
    assert forall p :: p in next.order <==> p in f.order || p == path;
  }

  lemma TypedAgrees(f: Files, path: string, text: string)
    requires FilesAgree(f) && path in f.byPath
    ensures FilesAgree(Typed(f, path, text))
  {
    var next := Typed(f, path, text);
    assert next.tabs == Listing(next.order, next.byPath);
  }

  lemma SavedAgrees(f: Files, path: string, text: string)
    requires FilesAgree(f) && path in f.byPath
    ensures FilesAgree(Saved(f, path, text, Sha256(text)))
  {
  }

  lemma ReloadedAgrees(f: Files, path: string, text: string)
    requires FilesAgree(f) && path in f.byPath
    ensures FilesAgree(Reloaded(f, path, text, Sha256(text)))
  {
  }

  lemma ClosedAgrees(f: Files, path: string)
    requires FilesAgree(f)
    ensures FilesAgree(Closed(f, path))
  {
    var order := Without(f.order, path);
    if order != [] {
      assert order[0] in order;
    }
  }

  /** The tab list is truthful, so the guard on leaving asks exactly when a file is dirty. */
  lemma TabsShowDirty(f: Files)
    requires FilesAgree(f)
    ensures AnyDirty(f) <==> exists p :: p in f.byPath && f.byPath[p].text != f.byPath[p].baseline
  {
    if AnyDirty(f) {
      var i :| 0 <= i < |f.tabs| && f.tabs[i].dirty;
      assert f.order[i] in f.order;
    }
    if p :| p in f.byPath && f.byPath[p].text != f.byPath[p].baseline {
      var i :| 0 <= i < |f.order| && f.order[i] == p;
      assert f.tabs[i].dirty;
    }
  }

  /** What a pending operation or question relies on. */
  ghost predicate Pending(w: Workspace) {
    && (!w.mounted ==> w.files == NoFiles)
    && (w.asking.Some? ==> w.call.None? && AnyDirty(w.files))
    && (w.asking.Some? && (w.asking.value.AskClose? || w.asking.value.AskReload?) ==>
         w.asking.value.path in w.files.byPath)
    && (w.call.Some? ==> w.call.value.id < w.nextId)
    && (w.call.Some? && w.mounted ==>
          match w.call.value.op
          case Opening(path) => path !in w.files.byPath && |w.files.order| < TAB_LIMIT
          case Saving(path, _, _, _) => path in w.files.byPath
          case Reloading(path) => path in w.files.byPath
          case _ => true)
  }

  ghost predicate Inv(w: Workspace) { FilesAgree(w.files) && Pending(w) }

  lemma RunKeeps(w: Workspace, question: Question)
    requires Inv(w) && w.mounted && w.call.None? && w.asking.None?
    requires question.AskReload? ==> question.path in w.files.byPath
    ensures Inv(Run(w, question))
  {
    if question.AskClose? {
      ClosedAgrees(w.files, question.path);
    }
  }

  lemma StepKeeps(w: Workspace, e: Event)
    requires Inv(w) && Enabled(w, e)
    ensures Inv(Step(w, e))
  {
    match e {
      case Type(text) => TypedAgrees(w.files, w.files.active, text);
      case Close(path) =>
        TabsShowDirty(w.files);
        if w.call.None? { RunKeeps(w, AskClose(path)); }
      case Reload =>
        TabsShowDirty(w.files);
        if w.call.None? && w.files.active in w.files.byPath { RunKeeps(w, AskReload(w.files.active)); }
      case Leave => if w.call.None? { RunKeeps(w, AskLeave); }
      case Quit => if w.call.None? && w.asking.None? { RunKeeps(w, AskQuit); }
      case Confirm => RunKeeps(w.(asking := None), w.asking.value);
      case _ =>
    }
  }

  /** The answer is one the Host gives to `op`. */
  ghost predicate Fits(op: Op, answer: Answer) {
    && (answer.FileData? ==> answer.version == Sha256(answer.text))
    && (answer.SavedAs? ==> op.Saving? && answer.version == Sha256(op.text))
  }

  lemma SettleKeeps(w: Workspace, id: nat, answer: Answer)
    requires Inv(w) && (w.call.Some? && w.call.value.id == id ==> Fits(w.call.value.op, answer))
    ensures Inv(Settle(w, id, answer))
  {
    if w.call.Some? && w.call.value.id == id {
      match w.call.value.op {
        case Opening(path) =>
          if answer.FileData? && w.mounted { OpenedAgrees(w.files, path, answer.text); }
        case Saving(path, _, _, text) =>
          if answer.SavedAs? && path in w.files.byPath { SavedAgrees(w.files, path, text); }
        case Reloading(path) =>
          if answer.FileData? && path in w.files.byPath { ReloadedAgrees(w.files, path, answer.text); }
        case _ =>
      }
    }
  }

  // ---- Drafts ----

  /** The user confirms the question that gives up the draft at `path`. */
  predicate Consents(w: Workspace, e: Event, path: string) {
    e.Confirm? && (w.asking == Some(AskClose(path)) || (w.asking == Some(AskQuit) && w.manual.None?))
  }

  /** A user event takes unsaved text exactly when the user typed over it, confirmed giving it up, or left the page. */
  lemma DraftNeedsConsent(w: Workspace, e: Event, path: string)
    requires Inv(w) && Enabled(w, e) && path in w.files.byPath && w.files.byPath[path].dirty
    ensures var after := Step(w, e).files.byPath;
            (path !in after || after[path].text != w.files.byPath[path].text) <==>
              (e.Unmount? || Consents(w, e, path)
               || (e.Type? && path == w.files.active && e.text != w.files.byPath[path].text))
  {
    TabsShowDirty(w.files);
    match e {
      case Confirm => ConfirmTakes(w, path);
      case _ =>
    }
  }

  lemma ConfirmTakes(w: Workspace, path: string)
    requires Inv(w) && Enabled(w, Confirm) && path in w.files.byPath
    ensures var after := Step(w, Confirm).files.byPath;
            if Consents(w, Confirm, path) then path !in after else path in after && after[path] == w.files.byPath[path]
  {
  }

  /** An answer takes unsaved text exactly when it ends a reload of that file or a quit. A save keeps what was
      typed meanwhile and compares it with the text it stored. */
  lemma AnswerKeepsDraft(w: Workspace, id: nat, answer: Answer, path: string)
    requires Inv(w) && w.call.Some? && w.call.value.id == id && Fits(w.call.value.op, answer)
    requires path in w.files.byPath
    ensures var op, after := w.call.value.op, Settle(w, id, answer).files.byPath;
            var takes :=
              || (op == Reloading(path) && answer.FileData? && answer.text != w.files.byPath[path].text)
              || (op.Quitting? && answer.Done?);
            && (takes <==> path !in after || after[path].text != w.files.byPath[path].text)
            && (op.Saving? && op.path == path && answer.SavedAs? ==>
                  after[path].baseline == op.text && (after[path].dirty <==> w.files.byPath[path].text != op.text))
  {
  }

  /** Text typed while a reload of a clean file is under way is overwritten without a question. */
  lemma ReloadTakesTyping(w: Workspace, typed: string, disk: string)
    requires Inv(w) && w.mounted && w.call.None? && w.asking.None? && w.manual.Some?
    requires w.files.active in w.files.byPath && !w.files.byPath[w.files.active].dirty
    requires typed != disk
    ensures var path, reading := w.files.active, Step(w, Reload);
            var edited := Step(reading, Type(typed));
            && Enabled(reading, Type(typed)) && edited.files.byPath[path].text == typed
            && Settle(edited, w.nextId, FileData(disk, Sha256(disk))).files.byPath[path].text == disk
  {
  }

  // ---- What the operations must do ----

  /** A save of a dirty file sends the user's text, under the version of the text it started from. */
  lemma SaveSends(w: Workspace)
    requires Inv(w) && w.mounted && w.asking.None? && w.call.None? && w.manual.Some?
    requires w.files.active in w.files.byPath && w.files.byPath[w.files.active].dirty
    ensures var path := w.files.active;
            var file := w.files.byPath[path];
            && Enabled(w, Save)
            && var op := Saving(path, w.manual.value, Sha256(file.baseline), file.text);
               Step(w, Save) == w.(call := Some(Call(w.nextId, op)), nextId := w.nextId + 1)
  {
  }

  /** Nothing is sent for a clean file, without manual mode, or while another operation is under way. */
  lemma SaveOtherwiseIdle(w: Workspace)
    requires Inv(w) && Enabled(w, Save)
    requires w.call.Some? || w.manual.None? || w.files.active !in w.files.byPath
             || !w.files.byPath[w.files.active].dirty
    ensures Step(w, Save) == w
  {
  }

  /** The answer to a save makes the stored text the baseline, and keeps what the user has by then. */
  lemma {:induction false} SavedShows(w: Workspace, id: nat, path: string, manual: nat, version: Version, text: string)
    requires Inv(w) && w.mounted && w.call == Some(Call(id, Saving(path, manual, version, text)))
    ensures var next := Settle(w, id, SavedAs(Sha256(text)));
            && next.call.None? && path in next.files.byPath
            && next.files.byPath[path].baseline == text && next.files.byPath[path].original == text
            && next.files.byPath[path].version == Sha256(text)
            && next.files.byPath[path].text == w.files.byPath[path].text
            && (next.files.byPath[path].dirty <==> w.files.byPath[path].text != text)
            && next.files.active == w.files.active && next.files.order == w.files.order
            && forall p :: p in w.files.byPath && p != path ==>
                 p in next.files.byPath && next.files.byPath[p] == w.files.byPath[p]
  {
  }

  /** Opening a closed file reads it, and the answer shows it clean and active; an open one is only activated. */
  lemma OpenShows(w: Workspace, path: string, text: string)
    requires Inv(w) && Enabled(w, Open(path)) && w.call.None?
    ensures var next := Step(w, Open(path));
            if path in w.files.byPath then next == w.(files := w.files.(active := path))
            else if |w.files.order| >= 12 then next == w
            else
              && next.call == Some(Call(w.nextId, Opening(path))) && next.files == w.files
              && var shown := Settle(next, w.nextId, FileData(text, Sha256(text)));
                 && shown.call.None? && shown.files.active == path && path in shown.files.byPath
                 && shown.files.byPath[path] == OpenFile(Sha256(text), text, text, text, false)
                 && shown.files.order == w.files.order + [path]
                 && forall p :: p in w.files.byPath ==>
                      p in shown.files.byPath && shown.files.byPath[p] == w.files.byPath[p]
  {
  }

  /** A reload of a clean file reads it at once, and the answer shows the text on disk, clean. */
  lemma ReloadShows(w: Workspace, text: string)
    requires Inv(w) && Enabled(w, Reload) && w.call.None? && w.files.active in w.files.byPath
    ensures var path, next := w.files.active, Step(w, Reload);
            if w.files.byPath[path].dirty then next == w.(asking := Some(AskReload(path)))
            else
              && next.call == Some(Call(w.nextId, Reloading(path)))
              && Settle(next, w.nextId, FileData(text, Sha256(text))).files.byPath[path]
                 == OpenFile(Sha256(text), text, text, text, false)
  {
  }

  /** Typing changes exactly the text of the active file. */
  lemma TypingShows(w: Workspace, text: string)
    requires Inv(w) && Enabled(w, Type(text))
    ensures var next, path := Step(w, Type(text)), w.files.active;
            && next.files.byPath.Keys == w.files.byPath.Keys && next.files.byPath[path].text == text
            && next.files.byPath[path].baseline == w.files.byPath[path].baseline
            && next.files.active == path && next.call == w.call
            && forall p :: p in w.files.byPath && p != path ==> next.files.byPath[p] == w.files.byPath[p]
  {
  }

  /** Closing removes exactly that file, after a question if it is dirty, and activates the first of the others if
      it was active. */
  lemma CloseRemoves(w: Workspace, path: string)
    requires Inv(w) && Enabled(w, Close(path)) && w.call.None?
    ensures var asked := Step(w, Close(path));
            var dirty := w.files.byPath[path].dirty;
            && (dirty ==> asked == w.(asking := Some(AskClose(path))) && Enabled(asked, Confirm))
            && var closed := if dirty then Step(asked, Confirm) else asked;
               && closed.files.byPath == w.files.byPath - {path} && closed.asking.None? && closed.call.None?
               && (w.files.active != path ==> closed.files.active == w.files.active)
               && (w.files.active == path ==>
                     closed.files.active == if closed.files.order == [] then "" else closed.files.order[0])
  {
    TabsShowDirty(w.files);
  }

  /** Manual mode is entered and left by the answers to its requests; leaving and quitting ask first if a file is
      dirty. */
  lemma ManualModeChanges(w: Workspace, held: nat)
    requires Inv(w) && w.mounted && w.asking.None? && w.call.None?
    ensures w.manual.None? ==>
              && Enabled(w, Enter) && Step(w, Enter).call == Some(Call(w.nextId, Entering))
              && Settle(Step(w, Enter), w.nextId, Held(held)).manual == Some(held)
    ensures w.manual.Some? ==>
              var asked := Step(w, Leave);
              && (AnyDirty(w.files) ==> asked == w.(asking := Some(AskLeave)))
              && var leaving := if AnyDirty(w.files) then Step(asked, Confirm) else asked;
                 && leaving.call == Some(Call(w.nextId, Leaving(w.manual.value))) && leaving.files == w.files
                 && Settle(leaving, w.nextId, Done).manual.None? && Settle(leaving, w.nextId, Done).files == w.files
    ensures var asked := Step(w, Quit);
            && (AnyDirty(w.files) ==> asked == w.(asking := Some(AskQuit)))
            && var quitting := if AnyDirty(w.files) then Step(asked, Confirm) else asked;
               if w.manual.None? then !quitting.mounted
               else
                 && quitting.call == Some(Call(w.nextId, Quitting(w.manual.value)))
                 && !Settle(quitting, w.nextId, Done).mounted && Settle(quitting, w.nextId, Failed).mounted
  {
  }

  /** Picking a tab activates it, keeping a draft closes the question, and the first answer sets manual mode;
      nothing else changes. */
  lemma SmallEvents(w: Workspace, path: string, manual: Option<nat>)
    requires Inv(w)
    ensures Enabled(w, Pick(path)) ==> Step(w, Pick(path)) == w.(files := w.files.(active := path))
    ensures Enabled(w, Keep) ==> Step(w, Keep) == w.(asking := None)
    ensures Enabled(w, Adopt(manual)) ==> Step(w, Adopt(manual)) == w.(manual := manual)
    ensures Enabled(w, Unmount) ==> !Step(w, Unmount).mounted && Step(w, Unmount).files.byPath == map[]
  {
  }

  /** A failed operation changes nothing but the busy flag. */
  lemma FailureOnlyFrees(w: Workspace)
    requires Inv(w) && w.call.Some?
    ensures Settle(w, w.call.value.id, Failed) == w.(call := None)
  {
  }

  // ---- The component ----

  class EditorWorkspace {
    var order: seq<string>
    var byPath: map<string, OpenFile>
    var active: string
    var tabs: seq<Tab>
    var manual: Option<nat>
    var call: Option<Call>
    var asking: Option<Question>
    var mounted: bool
    var nextId: nat

    ghost function View(): Workspace
      reads this
    {
      Workspace(Files(order, byPath, active, tabs), manual, call, asking, mounted, nextId)
    }

    constructor ()
      ensures View() == Workspace(NoFiles, None, None, None, true, 0) && Inv(View())
    {
      order, byPath, active, tabs := [], map[], "", [];
      manual, call, asking, mounted, nextId := None, None, None, true, 0;
    }

    method Refresh()
      modifies this`tabs
      ensures tabs == Listing(order, byPath)
    {
      var shown: seq<Tab> := [];
      for i := 0 to |order|
        invariant shown == Listing(order[..i], byPath)
      {
        shown := shown + [Tab(order[i], order[i] in byPath && byPath[order[i]].dirty)];
      }
      assert order[..|order|] == order;
      tabs := shown;
    }

    method Begin(op: Op)
      modifies this`call, this`nextId
      ensures View() == Operate(old(View()), op)
    {
      if call.None? {
        call, nextId := Some(Call(nextId, op)), nextId + 1;
      }
    }

    method OpenPath(path: string)
      requires Enabled(View(), Open(path))
      modifies this`active, this`call, this`nextId
      ensures View() == Step(old(View()), Open(path))
    {
      if path in byPath {
        active := path;
      } else if |order| < TAB_LIMIT {
        Begin(Opening(path));
      }
    }

    /** The change listener of the active model. */
    method Change(text: string)
      requires Enabled(View(), Type(text))
      modifies this`byPath, this`tabs
      ensures View() == Step(old(View()), Type(text))
    {
      var file := byPath[active];
      var dirty := text != file.baseline;
      byPath := byPath[active := file.(text := text, dirty := dirty)];
      if dirty != file.dirty { Refresh(); }
    }

    method Remove(path: string)
      requires Distinct(order)
      modifies this`order, this`byPath, this`active, this`tabs
      ensures View() == old(View()).(files := Closed(old(View()).files, path))
    {
      order, byPath := Without(order, path), byPath - {path};
      if active == path { active := if order == [] then "" else order[0]; }
      Refresh();
    }

    method CloseFile(path: string)
      requires Enabled(View(), Close(path))
      modifies this
      ensures View() == Step(old(View()), Close(path))
    {
      if call.Some? { return; }
      if byPath[path].dirty { asking := Some(AskClose(path)); } else { Remove(path); }
    }

    method SaveFile()
      requires Enabled(View(), Save)
      modifies this`call, this`nextId
      ensures View() == Step(old(View()), Save)
    {
      if active !in byPath || manual.None? || !byPath[active].dirty { return; }
      Begin(Saving(active, manual.value, byPath[active].version, byPath[active].text));
    }

    method ReloadFile()
      requires Enabled(View(), Reload)
      modifies this
      ensures View() == Step(old(View()), Reload)
    {
      if active !in byPath || call.Some? { return; }
      if byPath[active].dirty { asking := Some(AskReload(active)); } else { Begin(Reloading(active)); }
    }

    method Answered(id: nat, answer: Answer)
      modifies this
      ensures View() == Settle(old(View()), id, answer)
    {
      if call.None? || call.value.id != id { return; }
      var op := call.value.op;
      call := None;
      match op {
        case Opening(path) =>
          if answer.FileData? && mounted {
            byPath := byPath[path := OpenFile(answer.version, answer.text, answer.text, answer.text, false)];
            order, active := order + [path], path;
            Refresh();
          }
        case Saving(path, _, _, text) =>
          if answer.SavedAs? && path in byPath {
            var typed := byPath[path].text;
            byPath := byPath[path := OpenFile(answer.version, text, typed, text, typed != text)];
            Refresh();
          }
        case Reloading(path) =>
          if answer.FileData? && path in byPath {
            byPath := byPath[path := OpenFile(answer.version, answer.text, answer.text, answer.text, false)];
            Refresh();
          }
        case Entering => if answer.Held? { manual := Some(answer.manual); }
        case Leaving(_) => if answer.Done? { manual := None; }
        case Quitting(_) => if answer.Done? { Dispose(); }
      }
    }

    method Dispose()
      modifies this
      ensures View() == Unmounted(old(View()))
    {
      mounted, asking := false, None;
      order, byPath, active, tabs := [], map[], "", [];
    }

    /** The confirming button. */
    method Proceed()
      requires Enabled(View(), Confirm)
      modifies this
      ensures View() == Step(old(View()), Confirm)
    {
      var question := asking.value;
      asking := None;
      Follow(question);
    }

    /** The action of a question. */
    method Follow(question: Question)
      requires Distinct(order)
      modifies this
      ensures View() == Run(old(View()), question)
    {
      match question {
        case AskClose(path) => Remove(path);
        case AskReload(path) => Begin(Reloading(path));
        case AskLeave => if manual.Some? { Begin(Leaving(manual.value)); }
        case AskQuit =>
          if manual.Some? {
            Begin(Quitting(manual.value));
          } else if call.None? {
            Dispose();
          }
      }
    }

    method AskOr(dirty: bool, question: Question)
      requires Distinct(order)
      modifies this
      ensures View() == Guard(old(View()), dirty, question)
    {
      if call.Some? { return; }
      if dirty { asking := Some(question); } else { Follow(question); }
    }

    /** Whatever the user does next, the workspace takes its step and keeps the invariant. */
    method Handle(e: Event)
      requires Inv(View()) && Enabled(View(), e)
      modifies this
      ensures View() == Step(old(View()), e) && Inv(View())
    {
      StepKeeps(View(), e);
      match e {
        case Open(path) => OpenPath(path);
        case Pick(path) => active := path;
        case Type(text) => Change(text);
        case Close(path) => CloseFile(path);
        case Save => SaveFile();
        case Reload => ReloadFile();
        case Enter => Begin(Entering);
        case Leave => AskOr(AnyDirty(Files(order, byPath, active, tabs)), AskLeave);
        case Quit => AskOr(AnyDirty(Files(order, byPath, active, tabs)), AskQuit);
        case Keep => asking := None;
        case Confirm => Proceed();
        case Adopt(held) => manual := held;
        case Unmount => Dispose();
      }
    }

    /** So does any answer the Host gives to the operation under way. */
    method HandleAnswer(id: nat, answer: Answer)
      requires Inv(View()) && (call.Some? && call.value.id == id ==> Fits(call.value.op, answer))
      modifies this
      ensures View() == Settle(old(View()), id, answer) && Inv(View())
    {
      SettleKeeps(View(), id, answer);
      Answered(id, answer);
    }
  }
}
