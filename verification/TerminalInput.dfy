/** Typing into a terminal: the input chain of webui/src/TerminalPane.tsx against `write` of the Host
    (packages/host/terminals.mjs), over a network that may lose or delay requests and replies, with
    other pages writing to the same terminal. One pane is one run of the effect for a terminal. */
module TerminalInput {
  import opened Options

  const CHUNK_LIMIT := 16384
  const QUEUE_LIMIT := 65536

  function Utf8(c: char): nat {
    if c < '\U{80}' then 1 else if c < '\U{800}' then 2 else if c < '\U{10000}' then 3 else 4
  }

  function Bytes(data: string): nat {
    if data == "" then 0 else Bytes(data[..|data| - 1]) + Utf8(data[|data| - 1])
  }

  datatype Post = Post(number: nat, data: string)

  /** `chain` holds the chunks whose link of the promise chain has not finished; `inFlight` says that
      the first of them has been posted. The last four fields are history: the number first read from the
      Host, all chunks ever accepted, all posts ever made, and how many of those were answered with success. */
  datatype Pane = Pane(
    disposed: bool, failed: bool, running: bool, sequence: Option<nat>, queuedBytes: int,
    chain: seq<string>, inFlight: bool,
    origin: nat, accepted: seq<string>, posts: seq<Post>, acked: nat)

  /** The Host: what was written to the terminal so far (`inputSeq` is its length), posts that have not
      arrived, posts answered with success, and whether another page has written since the pane opened. */
  datatype Host = Host(log: seq<string>, wire: set<Post>, granted: set<Post>, shared: bool)

  /** `typed` is history: every chunk handed to a pane that was ready for it. */
  datatype State = State(pane: Pane, host: Host, typed: seq<string>)

  datatype Event =
    | Send(data: string)
    | Link
    | Reply(ok: bool)
    | Poll(running: bool, inputSeq: nat)
    | Fault
    | Dispose
    | Serve(post: Post)
    | OtherWrite(data: string)

  const Opened: Pane := Pane(false, false, false, None, 0, [], false, 0, [], [], 0)

  // ---- The pane ----

  function Fail(p: Pane): Pane { if p.disposed then p else p.(failed := true) }

  function Enqueue(p: Pane, data: string): Pane {
    if p.disposed || p.failed || !p.running || p.sequence.None? then p
    else if Bytes(data) > CHUNK_LIMIT || p.queuedBytes + Bytes(data) > QUEUE_LIMIT then Fail(p)
    else p.(queuedBytes := p.queuedBytes + Bytes(data), chain := p.chain + [data], accepted := p.accepted + [data])
  }

  /** The end of a link: its `finally`. */
  function Unlink(p: Pane): Pane {
    if p.chain == [] then p
    else p.(queuedBytes := p.queuedBytes - Bytes(p.chain[0]), chain := p.chain[1..], inFlight := false)
  }

  /** The post a link makes: the next number with the first chunk of the chain. */
  function NextPost(p: Pane): Post
    requires p.chain != []
  {
    Post((if p.sequence.Some? then p.sequence.value else 0) + 1, p.chain[0])
  }

  function Posted(p: Pane): Pane
    requires p.chain != []
  {
    p.(sequence := Some(NextPost(p).number), inFlight := true, posts := p.posts + [NextPost(p)])
  }

  function Polled(p: Pane, running: bool, inputSeq: nat): Pane {
    if p.sequence.Some? then p.(running := running)
    else p.(running := running, sequence := Some(inputSeq), origin := inputSeq)
  }

  // ---- The Host ----

  /** `write`: the last accepted write may be repeated, the next number appends, anything else conflicts. */
  function Write(log: seq<string>, post: Post): Option<seq<string>> {
    if log != [] && post.number == |log| && post.data == log[|log| - 1] then Some(log)
    else if post.number == |log| + 1 && Bytes(post.data) <= CHUNK_LIMIT then Some(log + [post.data])
    else None
  }

  // ---- Steps ----

  predicate Enabled(s: State, e: Event) {
    match e
    case Send(_) => true
    case Link => s.pane.chain != [] && !s.pane.inFlight
    case Reply(ok) =>
      && s.pane.inFlight
      && (ok ==> s.pane.posts != [] && s.pane.posts[|s.pane.posts| - 1] in s.host.granted)
    case Poll(_, inputSeq) =>
      if s.host.shared then inputSeq <= |s.host.log| else s.pane.posts == [] ==> inputSeq == |s.host.log|
    case Fault => true
    case Dispose => true
    case Serve(post) => post in s.host.wire
    case OtherWrite(_) => true
  }

  /** Input is enabled: the terminal runs, its first number is known, and nothing has stopped the pane. */
  predicate Ready(p: Pane) { !p.disposed && !p.failed && p.running && p.sequence.Some? }

  function Step(s: State, e: Event): State
    requires Enabled(s, e)
  {
    var p, h := s.pane, s.host;
    match e
    case Send(data) => s.(pane := Enqueue(p, data), typed := if Ready(p) then s.typed + [data] else s.typed)
    case Link =>
      if p.disposed || p.failed then s.(pane := Unlink(p))
      else s.(pane := Posted(p), host := h.(wire := h.wire + {NextPost(p)}))
    case Reply(ok) =>
      s.(pane := if ok then Unlink(p).(acked := p.acked + 1) else Unlink(Fail(p)))
    case Poll(running, inputSeq) =>
      if p.disposed then s
      else s.(pane := Polled(p, running, inputSeq))
    case Fault => s.(pane := Fail(p))
    case Dispose => s.(pane := p.(disposed := true))
    case Serve(post) =>
      var written := Write(h.log, post);
      s.(host := if written.Some? then h.(log := written.value, wire := h.wire - {post}, granted := h.granted + {post})
                 else h.(wire := h.wire - {post}))
    case OtherWrite(data) => s.(host := h.(log := h.log + [data], shared := true))
  }

  // ---- The invariant ----

  function Total(chunks: seq<string>): nat {
    if chunks == [] then 0 else Bytes(chunks[0]) + Total(chunks[1..])
  }

  lemma {:induction false} TotalAppend(chunks: seq<string>, data: string)
    ensures Total(chunks + [data]) == Total(chunks) + Bytes(data)
  {
    if chunks == [] {
      assert chunks + [data] == [data] && [data][1..] == [];
    } else {
      TotalAppend(chunks[1..], data);
      assert (chunks + [data])[1..] == chunks[1..] + [data];
    }
  }

  /** The i-th post is the i-th accepted chunk under the i-th number. */
  ghost predicate Numbered(posts: seq<Post>, accepted: seq<string>, origin: nat) {
    |posts| <= |accepted| && forall i :: 0 <= i < |posts| ==> posts[i] == Post(origin + i + 1, accepted[i])
  }

  /** The chain is the end of the accepted chunks. */
  ghost predicate Suffix(chain: seq<string>, accepted: seq<string>) {
    |chain| <= |accepted| && forall i :: 0 <= i < |chain| ==> chain[i] == accepted[|accepted| - |chain| + i]
  }

  /** The first `n` chunks stand in the log after `origin`. */
  ghost predicate Stands(log: seq<string>, origin: nat, chunks: seq<string>, n: int) {
    origin + n <= |log| && n <= |chunks| && forall i :: 0 <= i < n ==> log[origin + i] == chunks[i]
  }

  /** Posting goes on only while every earlier post succeeded, and then the chain holds what is left. */
  ghost predicate InOrder(p: Pane) {
    && |p.posts| - 1 <= p.acked <= |p.posts|
    && (p.accepted != [] ==> p.sequence.Some?)
    && (if p.sequence.Some? then p.sequence.value == p.origin + |p.posts| else p.origin == 0)
    && (p.inFlight ==> p.posts != [] && p.chain != [] && p.acked == |p.posts| - 1)
    && (!p.failed && !p.disposed ==> p.acked + |p.chain| == |p.accepted| && (!p.inFlight ==> p.acked == |p.posts|))
  }

  ghost predicate PaneInv(p: Pane) {
    && Numbered(p.posts, p.accepted, p.origin) && Suffix(p.chain, p.accepted) && InOrder(p)
    && p.queuedBytes == Total(p.chain) <= QUEUE_LIMIT
  }

  /** Every post answered with success stands in the terminal's input at its number. */
  ghost predicate Granted(log: seq<string>, granted: set<Post>) {
    forall post :: post in granted ==> 1 <= post.number <= |log| && log[post.number - 1] == post.data
  }

  ghost predicate HostInv(h: Host, posts: seq<Post>, acked: nat) {
    && Granted(h.log, h.granted)
    && acked <= |posts| && (forall i :: 0 <= i < acked ==> posts[i] in h.granted)
    && (forall post :: post in h.wire || post in h.granted ==> post in posts)
  }

  /** If no other page writes, the terminal has received exactly a prefix of the accepted chunks. */
  ghost predicate Exact(p: Pane, h: Host) {
    !h.shared && p.sequence.Some? ==>
      && p.acked <= |h.log| - p.origin <= |p.posts|
      && Stands(h.log, p.origin, p.accepted, |h.log| - p.origin)
  }

  ghost predicate Inv(s: State) {
    && PaneInv(s.pane) && HostInv(s.host, s.pane.posts, s.pane.acked) && Exact(s.pane, s.host)
    && s.pane.origin <= |s.host.log|
    && TakesTyped(s.pane, s.typed)
  }

  /** What was accepted is what was typed, up to the chunk that made the pane fail. */
  ghost predicate TakesTyped(p: Pane, typed: seq<string>) {
    p.accepted <= typed && (!p.failed ==> p.accepted == typed)
  }

  /** A ready pane appends what is typed, or fails: exactly when the chunk has more than 16384 bytes or the bytes
      not yet delivered would pass 65536. */
  lemma SendAcceptsOrFails(s: State, data: string)
    requires Inv(s)
    ensures var next := Step(s, Send(data)).pane;
            var over := Bytes(data) > 16384 || Total(s.pane.chain) + Bytes(data) > 65536;
            if !Ready(s.pane) then next == s.pane
            else if over then next == s.pane.(failed := true)
            else
              && next.accepted == s.pane.accepted + [data] && next.chain == s.pane.chain + [data]
              && next.queuedBytes == s.pane.queuedBytes + Bytes(data) && Ready(next)
  {
  }

  /** The first poll of a running terminal makes a fresh pane ready, numbering from the Host's count; a later poll only
      updates whether it runs. */
  lemma PollReadies(s: State, running: bool, inputSeq: nat)
    requires Inv(s) && Enabled(s, Poll(running, inputSeq)) && !s.pane.disposed
    ensures var next := Step(s, Poll(running, inputSeq)).pane;
            && next.running == running && next.failed == s.pane.failed && next.chain == s.pane.chain
            && next.sequence == (if s.pane.sequence.Some? then s.pane.sequence else Some(inputSeq))
            && (!s.pane.failed && running ==> Ready(next))
  {
  }

  /** The end of a link takes its chunk off the chain and releases its bytes; a failure stops the pane. */
  lemma ReplyReleases(s: State, ok: bool)
    requires Inv(s) && Enabled(s, Reply(ok))
    ensures var next := Step(s, Reply(ok)).pane;
            && next.chain == s.pane.chain[1..] && !next.inFlight
            && next.queuedBytes == s.pane.queuedBytes - Bytes(s.pane.chain[0])
            && next.failed == (s.pane.failed || (!ok && !s.pane.disposed))
            && next.acked == s.pane.acked + (if ok then 1 else 0)
  {
  }

  /** A link of a stopped pane posts nothing and only releases its chunk; one of a running pane posts it, under the next
      number. */
  lemma LinkPostsOrReleases(s: State)
    requires Inv(s) && Enabled(s, Link)
    ensures var next, p := Step(s, Link), s.pane;
            if p.failed || p.disposed then
              && next.pane == p.(chain := p.chain[1..], queuedBytes := p.queuedBytes - Bytes(p.chain[0]))
              && next.host == s.host
            else
              && p.sequence.Some? && next.pane.sequence == Some(p.sequence.value + 1)
              && next.pane.posts == p.posts + [Post(p.sequence.value + 1, p.chain[0])]
              && next.pane.inFlight && next.pane.chain == p.chain
              && next.host == s.host.(wire := s.host.wire + {Post(p.sequence.value + 1, p.chain[0])})
  {
  }

  /** A fault and a disposal stop the pane, and a disposed pane reports no fault. */
  lemma StopsAtOnce(s: State)
    ensures Step(s, Dispose).pane.disposed && !Ready(Step(s, Dispose).pane)
    ensures !s.pane.disposed ==> Step(s, Fault).pane.failed && !Ready(Step(s, Fault).pane)
    ensures s.pane.disposed ==> Step(s, Fault) == s
  {
  }

  /** The Host takes a write exactly if it is the next one and within the limit of one chunk, or repeats the last;
      then it is answered with success. Any other write changes nothing. A write of another page appends. */
  lemma HostWritesExactly(s: State, post: Post, data: string)
    requires post in s.host.wire
    ensures var next, log := Step(s, Serve(post)).host, s.host.log;
            var repeats := log != [] && post.number == |log| && post.data == log[|log| - 1];
            && post !in next.wire
            && if post.number == |log| + 1 && Bytes(post.data) <= 16384 then
                 next.log == log + [post.data] && next.granted == s.host.granted + {post}
               else next.log == log && next.granted == if repeats then s.host.granted + {post} else s.host.granted
    ensures Step(s, OtherWrite(data)).host == s.host.(log := s.host.log + [data], shared := true)
  {
  }

  /** ASCII text has one byte per character; a character takes up to four, at the limits of UTF-8. */
  lemma {:induction false} AsciiBytes(data: string)
    requires forall i :: 0 <= i < |data| ==> data[i] <= '\U{7F}'
    ensures Bytes(data) == |data|
    decreases |data|
  {
    if data != "" {
      AsciiBytes(data[..|data| - 1]);
    }
  }

  lemma Utf8Limits()
    ensures Bytes("\U{7F}") == 1 && Bytes("\U{80}") == 2 && Bytes("\U{7FF}") == 2 && Bytes("\U{800}") == 3
    ensures Bytes("\U{FFFF}") == 3 && Bytes("\U{10000}") == 4 && Bytes("\U{10FFFF}") == 4
  {
    assert Bytes("") == 0;
    assert forall c: char :: Bytes([c]) == Utf8(c) by {
      forall c: char ensures Bytes([c]) == Utf8(c) {
        assert [c][..0] == "";
      }
    }
  }

  /** One chunk typed into a ready, empty pane whose terminal nobody else uses: posting, serving and answering it all
      succeed, and the terminal has received it. */
  lemma ChunkArrives(s: State, data: string)
    requires Inv(s) && Ready(s.pane) && s.pane.chain == [] && Bytes(data) <= CHUNK_LIMIT
    requires !s.host.shared && |s.host.log| == s.pane.sequence.value
    ensures var sent := Step(s, Send(data));
            && Enabled(sent, Link)
            && var posted := Step(sent, Link);
               var post := Post(|s.host.log| + 1, data);
               && posted.pane.posts == s.pane.posts + [post] && Enabled(posted, Serve(post))
               && var served := Step(posted, Serve(post));
                  && served.host.log == s.host.log + [data] && Enabled(served, Reply(true))
                  && var done := Step(served, Reply(true));
                     done.pane.chain == [] && Ready(done.pane) && done.pane.queuedBytes == 0
  {
    var sent := Step(s, Send(data));
    var posted := Step(sent, Link);
    var post := Post(|s.host.log| + 1, data);
    assert posted.pane.posts[|s.pane.posts|] == post;
    assert Write(s.host.log, post) == Some(s.host.log + [data]);
  }

  lemma EnqueueKeeps(p: Pane, data: string)
    requires PaneInv(p)
    ensures PaneInv(Enqueue(p, data))
    ensures var q := Enqueue(p, data);
            q == p.(accepted := q.accepted, chain := q.chain, queuedBytes := q.queuedBytes, failed := q.failed)
    ensures p.accepted <= Enqueue(p, data).accepted
  {
    var q := Enqueue(p, data);
    if q.accepted != p.accepted {
      TotalAppend(p.chain, data);
      assert Numbered(q.posts, q.accepted, q.origin);
      assert Suffix(q.chain, q.accepted);
    }
  }

  lemma SendKeeps(s: State, data: string)
    requires Inv(s)
    ensures Inv(Step(s, Send(data)))
  {
    EnqueueKeeps(s.pane, data);
    ExactGrows(s.pane, Enqueue(s.pane, data), s.host);
  }

  lemma ExactGrows(p: Pane, q: Pane, h: Host)
    requires Exact(p, h) && p.accepted <= q.accepted
    requires q.sequence == p.sequence && q.origin == p.origin && q.posts == p.posts && q.acked == p.acked
    ensures Exact(q, h)
  {
  }

  lemma LinkKeeps(s: State)
    requires Inv(s) && Enabled(s, Link)
    ensures Inv(Step(s, Link))
  {
    var p := s.pane;
    if p.disposed || p.failed {
      assert PaneInv(Unlink(p)) by { assert Suffix(Unlink(p).chain, p.accepted); }
      ExactGrows(p, Unlink(p), s.host);
    } else {
      LinkPosts(s);
    }
  }

  lemma LinkPosts(s: State)
    requires Inv(s) && Enabled(s, Link) && !s.pane.disposed && !s.pane.failed
    ensures Inv(s.(pane := Posted(s.pane), host := s.host.(wire := s.host.wire + {NextPost(s.pane)})))
  {
    PostedKeeps(s.pane);
    PostedHost(s.pane, s.host);
  }

  lemma PostedKeeps(p: Pane)
    requires PaneInv(p) && p.chain != [] && !p.inFlight && !p.disposed && !p.failed
    ensures PaneInv(Posted(p))
  {
    assert p.chain[0] == p.accepted[|p.posts|];
    assert Numbered(Posted(p).posts, p.accepted, p.origin);
  }

  lemma PostedHost(p: Pane, h: Host)
    requires PaneInv(p) && p.chain != [] && !p.inFlight && !p.disposed && !p.failed && HostInv(h, p.posts, p.acked)
    requires Exact(p, h)
    ensures HostInv(h.(wire := h.wire + {NextPost(p)}), Posted(p).posts, p.acked)
    ensures Exact(Posted(p), h.(wire := h.wire + {NextPost(p)}))
  {
    var posts := Posted(p).posts;
    assert posts == p.posts + [NextPost(p)];
    assert forall post :: post in p.posts ==> post in posts;
    assert posts[|p.posts|] == NextPost(p);
  }

  lemma UnlinkKeeps(p: Pane)
    requires PaneInv(p) && p.inFlight
    ensures PaneInv(Unlink(p).(acked := p.acked + 1))
    ensures p.failed || p.disposed ==> PaneInv(Unlink(p))
  {
    assert Suffix(Unlink(p).chain, p.accepted);
  }

  lemma LastGranted(s: State)
    requires Inv(s) && s.pane.inFlight && s.pane.posts[|s.pane.posts| - 1] in s.host.granted
    ensures HostInv(s.host, s.pane.posts, s.pane.acked + 1)
    ensures s.pane.acked + 1 <= |s.host.log| - s.pane.origin
  {
    var p := s.pane;
    assert p.posts[|p.posts| - 1].number == p.origin + |p.posts|;
  }

  lemma ReplyKeeps(s: State, ok: bool)
    requires Inv(s) && Enabled(s, Reply(ok))
    ensures Inv(Step(s, Reply(ok)))
  {
    if ok {
      AckKeeps(s);
    } else {
      FailedReplyKeeps(s);
    }
  }

  lemma AckKeeps(s: State)
    requires Inv(s) && Enabled(s, Reply(true))
    ensures Inv(s.(pane := Unlink(s.pane).(acked := s.pane.acked + 1)))
  {
    UnlinkKeeps(s.pane);
    LastGranted(s);
  }

  lemma FailedReplyKeeps(s: State)
    requires Inv(s) && Enabled(s, Reply(false))
    ensures Inv(s.(pane := Unlink(Fail(s.pane))))
  {
    var failed := Fail(s.pane);
    assert PaneInv(Unlink(failed)) by { UnlinkKeeps(failed); }
    ExactGrows(s.pane, Unlink(failed), s.host);
  }

  lemma ServeExact(p: Pane, h: Host, i: nat, log: seq<string>)
    requires PaneInv(p) && Exact(p, h) && i < |p.posts| && p.origin <= |h.log| && Write(h.log, p.posts[i]) == Some(log)
    ensures Exact(p, h.(log := log))
  {
    if log != h.log && !h.shared && p.sequence.Some? {
      assert i == |h.log| - p.origin && log == h.log + [p.accepted[i]];
      assert Stands(log, p.origin, p.accepted, i + 1);
    }
  }

  lemma {:induction false} ServeGrants(h: Host, posts: seq<Post>, acked: nat, post: Post, log: seq<string>)
    requires HostInv(h, posts, acked) && post in posts && Write(h.log, post) == Some(log)
    ensures HostInv(h.(log := log, wire := h.wire - {post}, granted := h.granted + {post}), posts, acked)
  {
    assert Granted(log, h.granted + {post});
  }

  lemma ServeKeeps(s: State, post: Post)
    requires Inv(s) && Enabled(s, Serve(post))
    ensures Inv(Step(s, Serve(post)))
  {
    var p, h := s.pane, s.host;
    var i :| 0 <= i < |p.posts| && p.posts[i] == post;
    var written := Write(h.log, post);
    if written.Some? {
      ServeExact(p, h, i, written.value);
      ServeGrants(h, p.posts, p.acked, post, written.value);
    }
  }

  lemma PollKeeps(s: State, running: bool, inputSeq: nat)
    requires Inv(s) && Enabled(s, Poll(running, inputSeq))
    ensures Inv(Step(s, Poll(running, inputSeq)))
  {
    var p, q := s.pane, Polled(s.pane, running, inputSeq);
    if p.sequence.None? {
      assert p.posts == [] && p.accepted == [];
      assert Numbered(q.posts, q.accepted, q.origin);
    }
  }

  lemma OtherWriteKeeps(s: State, data: string)
    requires Inv(s)
    ensures Inv(Step(s, OtherWrite(data)))
  {
    assert Granted(s.host.log + [data], s.host.granted);
  }

  lemma StepKeeps(s: State, e: Event)
    requires Inv(s) && Enabled(s, e)
    ensures Inv(Step(s, e))
  {
    match e
    case Send(data) => SendKeeps(s, data);
    case Link => LinkKeeps(s);
    case Reply(ok) => ReplyKeeps(s, ok);
    case Poll(running, inputSeq) => PollKeeps(s, running, inputSeq);
    case Serve(post) => ServeKeeps(s, post);
    case OtherWrite(data) => OtherWriteKeeps(s, data);
    case Fault => StopKeeps(s, Fail(s.pane));
    case Dispose => StopKeeps(s, s.pane.(disposed := true));
  }

  lemma StopKeeps(s: State, stopped: Pane)
    requires Inv(s) && stopped == s.pane.(failed := stopped.failed, disposed := stopped.disposed)
    requires s.pane.failed ==> stopped.failed
    requires s.pane.disposed ==> stopped.disposed
    ensures Inv(s.(pane := stopped))
  {
    ExactGrows(s.pane, stopped, s.host);
  }

  /** A failed or disposed pane posts nothing and stays so. */
  lemma StoppedForGood(s: State, e: Event)
    requires Enabled(s, e) && (s.pane.failed || s.pane.disposed)
    ensures Step(s, e).pane.posts == s.pane.posts && (Step(s, e).pane.failed || Step(s, e).pane.disposed)
  {
  }

  // ---- Runs ----

  ghost predicate IsRun(states: seq<State>, events: seq<Event>) {
    && |states| == |events| + 1
    && states[0] == State(Opened, Host(states[0].host.log, {}, {}, false), [])
    && forall i {:trigger events[i]} :: 0 <= i < |events| ==>
         Enabled(states[i], events[i]) && states[i + 1] == Step(states[i], events[i])
  }

  /** From a failure or disposal on, over any number of steps, nothing more is posted. */
  lemma {:induction false} NothingAfterStop(states: seq<State>, events: seq<Event>, i: nat, k: nat)
    requires IsRun(states, events) && i <= k < |states| && (states[i].pane.failed || states[i].pane.disposed)
    ensures states[k].pane.posts == states[i].pane.posts && (states[k].pane.failed || states[k].pane.disposed)
    decreases k
  {
    if i < k {
      NothingAfterStop(states, events, i, k - 1);
      StoppedForGood(states[k - 1], events[k - 1]);
    }
  }

  lemma {:induction false} Reachable(states: seq<State>, events: seq<Event>, k: nat)
    requires IsRun(states, events) && k < |states|
    ensures Inv(states[k])
  {
    if k > 0 {
      Reachable(states, events, k - 1);
      StepKeeps(states[k - 1], events[k - 1]);
    }
  }

  lemma AckedStand(s: State)
    requires Inv(s)
    ensures Stands(s.host.log, s.pane.origin, s.pane.accepted, s.pane.acked)
  {
    var p, h := s.pane, s.host;
    forall i | 0 <= i < p.acked ensures p.origin + i < |h.log| && h.log[p.origin + i] == p.accepted[i] {
      assert p.posts[i] in h.granted && p.posts[i].number == p.origin + i + 1;
    }
    if p.acked > 0 {
      var last: int := p.acked - 1;
      assert p.posts[last] in h.granted && p.posts[last].number == p.origin + last + 1;
    }
  }

  /** Standing chunks of a prefix are standing chunks. */
  lemma {:induction false} StandsLonger(log: seq<string>, origin: nat, chunks: seq<string>, longer: seq<string>, n: int)
    requires Stands(log, origin, chunks, n) && chunks <= longer
    ensures Stands(log, origin, longer, n)
    ensures 0 <= n && origin + n == |log| ==> log[origin..] <= longer
  {
  }

  /** In every state of every run: posts are the typed chunks in order under consecutive numbers, at most one
      of them unanswered; unless the pane failed every typed chunk was accepted; the byte budget is exact and
      kept; every chunk answered with success is in the terminal's input at its number; and if no other page
      wrote, the terminal received exactly a prefix of what was typed, each chunk once. */
  lemma TypedPrefixArrives(states: seq<State>, events: seq<Event>, k: nat)
    requires IsRun(states, events) && k < |states|
    ensures var p, h, typed := states[k].pane, states[k].host, states[k].typed;
            && |p.posts| - 1 <= p.acked <= |p.posts| <= |typed|
            && (forall i :: 0 <= i < |p.posts| ==> p.posts[i] == Post(p.origin + i + 1, typed[i]))
            && (!p.failed && !p.disposed ==> p.acked + |p.chain| == |typed|)
            && p.queuedBytes == Total(p.chain) <= QUEUE_LIMIT
            && Stands(h.log, p.origin, typed, p.acked)
            && (p.sequence.Some? && !h.shared ==>
                  && p.acked <= |h.log| - p.origin <= |p.posts|
                  && h.log[p.origin..] <= typed)
  {
    Reachable(states, events, k);
    var s := states[k];
    var p, h := s.pane, s.host;
    AckedStand(s);
    StandsLonger(h.log, p.origin, p.accepted, s.typed, p.acked);
    if p.sequence.Some? && !h.shared {
      StandsLonger(h.log, p.origin, p.accepted, s.typed, |h.log| - p.origin);
    }
  }

  // ---- The closure ----

  /** The variables of the effect. */
  class TerminalPane {
    var disposed: bool
    var failed: bool
    var running: bool
    var sequence: Option<nat>
    var queuedBytes: int
    var chain: seq<string>
    var inFlight: bool
    ghost var origin: nat
    ghost var accepted: seq<string>
    ghost var posts: seq<Post>
    ghost var acked: nat

    ghost function Value(): Pane
      reads this
    {
      Pane(disposed, failed, running, sequence, queuedBytes, chain, inFlight, origin, accepted, posts, acked)
    }

    constructor ()
      ensures Value() == Opened
    {
      disposed, failed, running, sequence, queuedBytes := false, false, false, None, 0;
      chain, inFlight, origin, accepted, posts, acked := [], false, 0, [], [], 0;
    }

    method OnFail()
      modifies this`failed
      ensures Value() == Fail(old(Value()))
    {
      if !disposed { failed := true; }
    }

    method Send(data: string)
      modifies this
      ensures Value() == Enqueue(old(Value()), data)
    {
      if disposed || failed || !running || sequence.None? { return; }
      var bytes := Bytes(data);
      if bytes > CHUNK_LIMIT || queuedBytes + bytes > QUEUE_LIMIT {
        OnFail();
        return;
      }
      queuedBytes, chain, accepted := queuedBytes + bytes, chain + [data], accepted + [data];
    }

    method RunLink() returns (post: Option<Post>)
      requires chain != [] && !inFlight
      modifies this
      ensures Value() == if old(disposed || failed) then Unlink(old(Value())) else Posted(old(Value()))
      ensures post == if old(disposed || failed) then None else Some(NextPost(old(Value())))
    {
      if disposed || failed {
        queuedBytes, chain, inFlight := queuedBytes - Bytes(chain[0]), chain[1..], false;
        return None;
      }
      sequence := Some((if sequence.Some? then sequence.value else 0) + 1);
      post := Some(Post(sequence.value, chain[0]));
      inFlight, posts := true, posts + [post.value];
    }

    method OnReply(ok: bool)
      requires inFlight && chain != []
      modifies this
      ensures Value() == if ok then Unlink(old(Value())).(acked := old(acked) + 1) else Unlink(Fail(old(Value())))
    {
      if ok { acked := acked + 1; } else { OnFail(); }
      queuedBytes, chain, inFlight := queuedBytes - Bytes(chain[0]), chain[1..], false;
    }

    method OnPoll(status: bool, inputSeq: nat)
      modifies this`running, this`sequence, this`origin
      ensures Value() == if old(disposed) then old(Value()) else Polled(old(Value()), status, inputSeq)
    {
      if disposed { return; }
      running := status;
      if sequence.None? { sequence, origin := Some(inputSeq), inputSeq; }
    }

    /** Whatever happens next in the page, the pane takes its step and keeps its part of the invariant. */
    method Handle(e: Event, ghost host: Host, ghost typed: seq<string>)
      requires Inv(State(Value(), host, typed)) && Enabled(State(Value(), host, typed), e) && !e.Serve?
      requires !e.OtherWrite?
      modifies this
      ensures Value() == Step(State(old(Value()), host, typed), e).pane && PaneInv(Value())
    {
      ghost var before := State(Value(), host, typed);
      assert PaneInv(Step(before, e).pane) by { StepKeeps(before, e); }
      match e {
        case Send(data) => Send(data);
        case Link => var _ := RunLink();
        case Reply(ok) => OnReply(ok);
        case Poll(status, inputSeq) => OnPoll(status, inputSeq);
        case Fault => OnFail();
        case Dispose => disposed := true;
      }
    }
  }
}
