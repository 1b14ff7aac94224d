/**
 * TWINS: time windows that serve the servers' queues round robin. Clock readings and arrivals are
 * inputs of a run; arrivals may come before every turn of the scheduling loop.
 */
module Twins {
  import opened Requests
  import opened Sequences

  /** `clock` is the latest reading of the clock; `server` and `start` describe the current window. */
  datatype State = State(queues: seq<seq<Request>>, server: nat, first: bool, start: int, clock: int)

  /** One turn reads the clock to see if the window is over, and again to start the next window. */
  datatype Event = Arrive(queue: nat, request: Request) | Turn(now: int, restart: int)

  datatype Window = Window(server: nat, start: int)

  /** `window` is the position of the window among all windows opened. */
  datatype Dispatch = Dispatch(queue: nat, request: Request, at: int, window: int)

  datatype Trace = Trace(s: State, windows: seq<Window>, sent: seq<Dispatch>)

  /** `TWINS_init`, with one empty queue for each server */
  function Initial(size: nat, clock: int): Trace
  {
    Trace(State(seq(size, _ => []), 0, true, 0, clock), [], [])
  }

  predicate Enabled(s: State, e: Event)
  {
    match e
    case Arrive(q, r) => q < |s.queues|
    case Turn(now, restart) => s.clock <= now <= restart && exists q :: 0 <= q < |s.queues| && s.queues[q] != []
  }

  /** Round robin */
  function NextServer(size: nat, server: nat): nat
  {
    if server + 1 >= size then 0 else server + 1
  }

  /** The window of a turn. */
  function Advance(w: int, s: State, now: int, restart: int): State
  {
    if s.first then
      s.(first := false, start := restart, server := 0, clock := restart)
    else if now - s.start >= w then
      s.(start := restart, server := NextServer(|s.queues|, s.server), clock := restart)
    else
      s.(clock := now)
  }

  predicate Opens(w: int, s: State, now: int)
  {
    s.first || now - s.start >= w
  }

  function Step(w: int, t: Trace, e: Event): Trace
    requires t.s.server < |t.s.queues| && Enabled(t.s, e)
  {
    match e
    case Arrive(q, r) => t.(s := t.s.(queues := t.s.queues[q := t.s.queues[q] + [r]]))
    case Turn(now, restart) =>
      var s := Advance(w, t.s, now, restart);
      var windows := t.windows + (if Opens(w, t.s, now) then [Window(s.server, s.start)] else []);
      var queue := s.queues[s.server];
      if queue == [] then t.(s := s, windows := windows)
      else Trace(s.(queues := s.queues[s.server := queue[1..]]), windows,
                 t.sent + [Dispatch(s.server, queue[0], s.clock, |windows| - 1)])
  }

  // ---------------------------------------------------------------------------------------------
  // What every run keeps
  // ---------------------------------------------------------------------------------------------

  /** Windows go to the servers in turn, beginning with the first one. */
  ghost predicate RoundRobin(size: nat, windows: seq<Window>)
  {
    && (windows != [] ==> windows[0].server == 0)
    && (forall i, j :: 0 <= i < j < |windows| && j == i + 1 ==>
        windows[j].server == NextServer(size, windows[i].server))
  }

  ghost predicate Spaced(w: int, windows: seq<Window>)
  {
    forall i, j :: 0 <= i < j < |windows| && j == i + 1 ==> windows[i].start + w <= windows[j].start
  }

  /** A request is sent from the queue of its window, at the start of the window or before its end. */
  ghost predicate InWindow(w: int, windows: seq<Window>, d: Dispatch)
  {
    && 0 <= d.window < |windows| && d.queue == windows[d.window].server
    && (d.at == windows[d.window].start || windows[d.window].start <= d.at < windows[d.window].start + w)
  }

  ghost predicate TraceOk(w: int, size: nat, t: Trace)
  {
    && size >= 1 && |t.s.queues| == size && t.s.server < size
    && RoundRobin(size, t.windows) && Spaced(w, t.windows)
    && (t.s.first <==> t.windows == [])
    && (t.windows != [] ==> t.windows[|t.windows| - 1] == Window(t.s.server, t.s.start) && t.s.start <= t.s.clock)
    && (t.windows != [] ==> t.s.clock == t.s.start || t.s.clock < t.s.start + w)
    && (forall k :: 0 <= k < |t.sent| ==> InWindow(w, t.windows, t.sent[k]))
  }

  lemma {:induction false} StepKeepsTraceOk(w: int, size: nat, t: Trace, e: Event)
    requires w >= 0 && TraceOk(w, size, t) && Enabled(t.s, e)
    ensures TraceOk(w, size, Step(w, t, e))
  {
    if e.Turn? {
      var u := Step(w, t, e);
      forall k | 0 <= k < |u.sent| ensures InWindow(w, u.windows, u.sent[k]) {
        if k < |t.sent| {
          assert InWindow(w, t.windows, t.sent[k]);
        }
      }
    }
  }

  ghost predicate ValidRun(w: int, size: nat, clock: int, evs: seq<Event>)
    decreases |evs|, 0
  {
    && w >= 0 && size >= 1
    && (evs != [] ==>
          var n := |evs| - 1;
          ValidRun(w, size, clock, evs[..n]) && Enabled(Run(w, size, clock, evs[..n]).s, evs[n]))
  }

  ghost function Run(w: int, size: nat, clock: int, evs: seq<Event>): (t: Trace)
    requires ValidRun(w, size, clock, evs)
    ensures TraceOk(w, size, t)
    decreases |evs|, 1
  {
    if evs == [] then Initial(size, clock)
    else
      var n := |evs| - 1;
      var t := Run(w, size, clock, evs[..n]);
      StepKeepsTraceOk(w, size, t, evs[n]);
      Step(w, t, evs[n])
  }

  /** Windows start at least the configured time apart, however many there are between. */
  lemma {:induction false} WindowsApart(w: int, windows: seq<Window>, i: nat, j: nat)
    requires Spaced(w, windows) && i <= j < |windows|
    ensures windows[i].start + (j - i) * w <= windows[j].start
    decreases j - i
  {
    if i < j {
      WindowsApart(w, windows, i, j - 1);
      assert (j - i) * w == (j - 1 - i) * w + w;
    }
  }

  /** The server of the window `k` windows after window `i`. */
  lemma {:induction false} ServerAfter(size: nat, windows: seq<Window>, i: nat, k: nat)
    requires RoundRobin(size, windows) && i + k < |windows| && windows[i].server < size && k <= size
    ensures windows[i + k].server == (if windows[i].server + k < size then windows[i].server + k
                                      else windows[i].server + k - size)
  {
    if k == 0 {
    } else {
      ServerAfter(size, windows, i, k - 1);
      assert windows[i + k].server == NextServer(size, windows[i + k - 1].server);
    }
  }

  lemma {:induction false} ServerInRange(size: nat, windows: seq<Window>, i: nat)
    requires size >= 1 && RoundRobin(size, windows) && i < |windows|
    ensures windows[i].server < size
  {
    if i == 0 {
    } else {
      ServerInRange(size, windows, i - 1);
    }
  }

  /** The windows of one server are at least one full round of windows apart. */
  lemma SameServerApart(w: int, size: nat, windows: seq<Window>, i: nat, j: nat)
    requires w >= 0 && size >= 1 && RoundRobin(size, windows) && Spaced(w, windows)
    requires i < j < |windows| && windows[i].server == windows[j].server
    ensures j - i >= size && windows[i].start + size * w <= windows[j].start
  {
    ServerInRange(size, windows, i);
    if j - i < size {
      ServerAfter(size, windows, i, j - i);
    }
    WindowsApart(w, windows, i, j);
    Monotone(size, j - i, w);
  }

  lemma Monotone(a: int, b: int, w: int)
    requires a <= b && w >= 0
    ensures a * w <= b * w
  {
    assert (b - a) * w >= 0;
  }

  /**
   * In every run: requests sent from the same queue are either of one window or of windows that
   * start at least one full round apart.
   */
  lemma RoundBetweenWindows(w: int, size: nat, clock: int, evs: seq<Event>, a: nat, b: nat)
    requires ValidRun(w, size, clock, evs)
    requires var t := Run(w, size, clock, evs);
             a < |t.sent| && b < |t.sent| && t.sent[a].queue == t.sent[b].queue && t.sent[a].window < t.sent[b].window
    ensures var t := Run(w, size, clock, evs);
            t.windows[t.sent[a].window].start + size * w <= t.windows[t.sent[b].window].start
  {
    var t := Run(w, size, clock, evs);
    assert InWindow(w, t.windows, t.sent[a]) && InWindow(w, t.windows, t.sent[b]);
    SameServerApart(w, size, t.windows, t.sent[a].window, t.sent[b].window);
  }

  // ---------------------------------------------------------------------------------------------
  // Progress
  // ---------------------------------------------------------------------------------------------

  /** No window was opened yet, or the time of the last one is over. */
  predicate Expired(w: int, t: Trace, now: int)
  {
    t.windows == [] || now >= t.windows[|t.windows| - 1].start + w
  }

  /** The window that follows, whatever is queued. */
  function Following(size: nat, t: Trace, start: int): Window
    requires size >= 1
  {
    Window(if t.windows == [] then 0 else (t.windows[|t.windows| - 1].server + 1) % size, start)
  }

  /** A turn opens the window of the next server if and only if the last window is over. */
  lemma TurnOpens(w: int, size: nat, t: Trace, now: int, restart: int)
    requires w >= 0 && TraceOk(w, size, t) && Enabled(t.s, Turn(now, restart))
    ensures var u := Step(w, t, Turn(now, restart));
            && u.windows == t.windows + (if Expired(w, t, now) then [Following(size, t, restart)] else [])
            && u.s.clock == if Expired(w, t, now) then restart else now
  {
  }

  /** The turn then sends the first request of the server of the window, if there is one. */
  lemma TurnServes(w: int, size: nat, t: Trace, now: int, restart: int)
    requires w >= 0 && TraceOk(w, size, t) && Enabled(t.s, Turn(now, restart))
    ensures var u := Step(w, t, Turn(now, restart));
            var n := |u.windows| - 1;
            && n >= 0 && u.windows[n].server < size
            && var q := u.windows[n].server;
               if t.s.queues[q] == [] then u.sent == t.sent && u.s.queues == t.s.queues
               else u.sent == t.sent + [Dispatch(q, t.s.queues[q][0], u.s.clock, n)]
                    && u.s.queues == t.s.queues[q := t.s.queues[q][1..]]
  {
    StepKeepsTraceOk(w, size, t, Turn(now, restart));
  }

  /** How many turns found the last window over. */
  ghost function ExpiredTurns(w: int, size: nat, clock: int, evs: seq<Event>): nat
    requires ValidRun(w, size, clock, evs)
    decreases |evs|
  {
    if evs == [] then 0 else
      var n := |evs| - 1;
      ExpiredTurns(w, size, clock, evs[..n])
      + (if evs[n].Turn? && Expired(w, Run(w, size, clock, evs[..n]), evs[n].now) then 1 else 0)
  }

  lemma {:induction false} WindowsAreExpiredTurns(w: int, size: nat, clock: int, evs: seq<Event>)
    requires ValidRun(w, size, clock, evs)
    ensures |Run(w, size, clock, evs).windows| == ExpiredTurns(w, size, clock, evs)
    decreases |evs|
  {
    if evs == [] {
    } else {
      var n := |evs| - 1;
      WindowsAreExpiredTurns(w, size, clock, evs[..n]);
      if evs[n].Turn? {
        TurnOpens(w, size, Run(w, size, clock, evs[..n]), evs[n].now, evs[n].restart);
      }
    }
  }

  /** What was opened before is still listed. */
  lemma {:induction false} WindowsStay(w: int, size: nat, clock: int, evs: seq<Event>, m: nat)
    requires ValidRun(w, size, clock, evs) && m <= |evs|
    ensures ValidRun(w, size, clock, evs[..m])
    ensures var a, b := Run(w, size, clock, evs[..m]).windows, Run(w, size, clock, evs).windows;
            |a| <= |b| && b[..|a|] == a
    decreases |evs|
  {
    if m == |evs| {
      assert evs[..m] == evs;
    } else {
      var n := |evs| - 1;
      assert evs[..n][..m] == evs[..m];
      WindowsStay(w, size, clock, evs[..n], m);
      if evs[n].Turn? {
        TurnOpens(w, size, Run(w, size, clock, evs[..n]), evs[n].now, evs[n].restart);
      }
    }
  }

  lemma AmongConsecutive(size: nat, windows: seq<Window>, i: nat, q: nat) returns (k: nat)
    requires size >= 1 && RoundRobin(size, windows) && i + size <= |windows| && q < size
    ensures i <= k < i + size && windows[k].server == q
  {
    ServerInRange(size, windows, i);
    var d := if q >= windows[i].server then q - windows[i].server else q + size - windows[i].server;
    ServerAfter(size, windows, i, d);
    k := i + d;
  }

  /** Every server comes up within one round of expired windows, whether or not the others have requests. */
  lemma EveryServerComesUp(w: int, size: nat, clock: int, evs: seq<Event>, m: nat, q: nat) returns (k: nat)
    requires ValidRun(w, size, clock, evs) && m <= |evs| && ValidRun(w, size, clock, evs[..m]) && q < size
    requires ExpiredTurns(w, size, clock, evs) >= ExpiredTurns(w, size, clock, evs[..m]) + size
    ensures |Run(w, size, clock, evs[..m]).windows| <= k < |Run(w, size, clock, evs).windows|
    ensures Run(w, size, clock, evs).windows[k].server == q
  {
    WindowsAreExpiredTurns(w, size, clock, evs);
    WindowsAreExpiredTurns(w, size, clock, evs[..m]);
    k := AmongConsecutive(size, Run(w, size, clock, evs).windows, |Run(w, size, clock, evs[..m]).windows|, q);
  }

  /** The number of windows of server `q`. */
  function WindowsOf(windows: seq<Window>, q: nat): nat
  {
    if windows == [] then 0 else
      var n := |windows| - 1;
      WindowsOf(windows[..n], q) + (if windows[n].server == q then 1 else 0)
  }

  lemma {:induction false} WindowsOfGrow(windows: seq<Window>, i: nat, k: nat, q: nat)
    requires i <= k < |windows| && windows[k].server == q
    ensures WindowsOf(windows, q) >= WindowsOf(windows[..i], q) + 1
    decreases |windows|
  {
    var n := |windows| - 1;
    assert windows[..n][..i] == windows[..i];
    if k == n {
      WindowsOfMonotone(windows[..n], i, q);
    } else {
      WindowsOfGrow(windows[..n], i, k, q);
    }
  }

  lemma {:induction false} WindowsOfMonotone(windows: seq<Window>, i: nat, q: nat)
    requires i <= |windows|
    ensures WindowsOf(windows[..i], q) <= WindowsOf(windows, q)
    decreases |windows|
  {
    if i == |windows| {
      assert windows[..i] == windows;
    } else {
      var n := |windows| - 1;
      assert windows[..n][..i] == windows[..i];
      WindowsOfMonotone(windows[..n], i, q);
    }
  }

  lemma RoundRobinPrefix(size: nat, windows: seq<Window>, n: nat)
    requires RoundRobin(size, windows) && n <= |windows|
    ensures RoundRobin(size, windows[..n])
  {
  }

  /** In every round there is a window for each server. */
  lemma {:induction false} RoundsHaveWindows(size: nat, windows: seq<Window>, i: nat, rounds: nat, q: nat)
    requires size >= 1 && RoundRobin(size, windows) && i + rounds * size <= |windows| && q < size
    ensures WindowsOf(windows, q) >= WindowsOf(windows[..i], q) + rounds
    decreases rounds
  {
    if rounds == 0 {
      WindowsOfMonotone(windows, i, q);
    } else {
      assert rounds * size == (rounds - 1) * size + size;
      var j := i + (rounds - 1) * size;
      RoundRobinPrefix(size, windows, j);
      assert windows[..j][..i] == windows[..i];
      RoundsHaveWindows(size, windows[..j], i, rounds - 1, q);
      var k := AmongConsecutive(size, windows, j, q);
      WindowsOfGrow(windows, j, k, q);
    }
  }

  // ---------------------------------------------------------------------------------------------
  // First in, first out
  // ---------------------------------------------------------------------------------------------

  function SentFrom(sent: seq<Dispatch>, q: nat): seq<Request>
  {
    if sent == [] then [] else
      var n := |sent| - 1;
      SentFrom(sent[..n], q) + (if sent[n].queue == q then [sent[n].request] else [])
  }

  function Arrived(evs: seq<Event>, q: nat): seq<Request>
  {
    if evs == [] then [] else
      var n := |evs| - 1;
      Arrived(evs[..n], q) + (if evs[n].Arrive? && evs[n].queue == q then [evs[n].request] else [])
  }

  lemma SentSnoc(sent: seq<Dispatch>, d: Dispatch, q: nat)
    ensures SentFrom(sent + [d], q) == SentFrom(sent, q) + (if d.queue == q then [d.request] else [])
  {
    assert (sent + [d])[..|sent|] == sent;
  }

  lemma StepIsFifo(w: int, t: Trace, e: Event, q: nat)
    requires t.s.server < |t.s.queues| && Enabled(t.s, e) && q < |t.s.queues|
    ensures var u := Step(w, t, e);
            && |u.s.queues| == |t.s.queues|
            && SentFrom(u.sent, q) + u.s.queues[q] ==
               SentFrom(t.sent, q) + t.s.queues[q] + (if e.Arrive? && e.queue == q then [e.request] else [])
  {
    if e.Turn? {
      var s := Advance(w, t.s, e.now, e.restart);
      var queue := t.s.queues[s.server];
      if queue != [] {
        var n := |t.windows| + (if Opens(w, t.s, e.now) then 1 else 0);
        SentSnoc(t.sent, Dispatch(s.server, queue[0], s.clock, n - 1), q);
        assert [queue[0]] + queue[1..] == queue;
      }
    }
  }

  /** In every run each queue is sent in the order of arrival: sent and queued together are what arrived. */
  lemma {:induction false} FifoPerServer(w: int, size: nat, clock: int, evs: seq<Event>, q: nat)
    requires ValidRun(w, size, clock, evs) && q < size
    ensures var t := Run(w, size, clock, evs); SentFrom(t.sent, q) + t.s.queues[q] == Arrived(evs, q)
  {
    if evs == [] {
    } else {
      var n := |evs| - 1;
      FifoPerServer(w, size, clock, evs[..n], q);
      StepIsFifo(w, Run(w, size, clock, evs[..n]), evs[n], q);
    }
  }

  lemma {:induction false} ArrivedStays(evs: seq<Event>, m: nat, q: nat)
    requires m <= |evs|
    ensures |Arrived(evs[..m], q)| <= |Arrived(evs, q)|
    ensures Arrived(evs, q)[..|Arrived(evs[..m], q)|] == Arrived(evs[..m], q)
    decreases |evs|
  {
    if m == |evs| {
      assert evs[..m] == evs;
    } else {
      var n := |evs| - 1;
      assert evs[..n][..m] == evs[..m];
      ArrivedStays(evs[..n], m, q);
    }
  }

  /** How many more requests of queue `q` were sent, and windows of its server opened, in `u` than in `t`. */
  predicate Ahead(t: Trace, u: Trace, q: nat)
    requires q < |t.s.queues|
  {
    var sent := |SentFrom(u.sent, q)| - |SentFrom(t.sent, q)|;
    sent >= |t.s.queues[q]| || sent >= WindowsOf(u.windows, q) - WindowsOf(t.windows, q)
  }

  /** Every window of a server sends a request, until what was queued at first is sent. */
  lemma TurnKeepsAhead(w: int, size: nat, t: Trace, u: Trace, now: int, restart: int, q: nat)
    requires w >= 0 && TraceOk(w, size, t) && TraceOk(w, size, u) && Enabled(u.s, Turn(now, restart)) && q < size
    requires Ahead(t, u, q)
    requires u.s.queues[q] == [] ==> |SentFrom(u.sent, q)| - |SentFrom(t.sent, q)| >= |t.s.queues[q]|
    ensures Ahead(t, Step(w, u, Turn(now, restart)), q)
  {
    var v := Step(w, u, Turn(now, restart));
    var n := |v.windows| - 1;
    TurnOpens(w, size, u, now, restart);
    TurnServes(w, size, u, now, restart);
    var s := v.windows[n].server;
    OneWindowMore(u.windows, v.windows, q);
    if u.s.queues[s] != [] {
      SentSnoc(u.sent, Dispatch(s, u.s.queues[s][0], v.s.clock, n), q);
    }
  }

  lemma OneWindowMore(a: seq<Window>, b: seq<Window>, q: nat)
    requires b != [] && (b == a || b[..|b| - 1] == a)
    ensures WindowsOf(b, q) <= WindowsOf(a, q) + (if b[|b| - 1].server == q then 1 else 0)
  {
  }

  lemma {:induction false} RunStaysAhead(w: int, size: nat, clock: int, evs: seq<Event>, m: nat, q: nat)
    requires ValidRun(w, size, clock, evs) && m <= |evs| && ValidRun(w, size, clock, evs[..m]) && q < size
    ensures Ahead(Run(w, size, clock, evs[..m]), Run(w, size, clock, evs), q)
    decreases |evs|
  {
    if m == |evs| {
      assert evs[..m] == evs;
    } else {
      var n := |evs| - 1;
      assert evs[..n][..m] == evs[..m];
      RunStaysAhead(w, size, clock, evs[..n], m, q);
      if evs[n].Turn? {
        FifoPerServer(w, size, clock, evs[..n], q);
        FifoPerServer(w, size, clock, evs[..m], q);
        ArrivedStays(evs[..n], m, q);
        TurnKeepsAhead(w, size, Run(w, size, clock, evs[..m]), Run(w, size, clock, evs[..n]), evs[n].now,
                       evs[n].restart, q);
      }
    }
  }

  /**
   * No starvation: the request at position `n` of a queue has been sent once `n + 1` rounds of
   * windows are over, whatever arrives meanwhile.
   */
  lemma SentWithinWindows(w: int, size: nat, clock: int, evs: seq<Event>, m: nat, q: nat, n: nat)
    requires ValidRun(w, size, clock, evs) && m <= |evs| && ValidRun(w, size, clock, evs[..m]) && q < size
    requires n < |Run(w, size, clock, evs[..m]).s.queues[q]|
    requires ExpiredTurns(w, size, clock, evs) >= ExpiredTurns(w, size, clock, evs[..m]) + (n + 1) * size
    ensures var t, u := Run(w, size, clock, evs[..m]), Run(w, size, clock, evs);
            var k := |SentFrom(t.sent, q)| + n;
            k < |SentFrom(u.sent, q)| && SentFrom(u.sent, q)[k] == t.s.queues[q][n]
  {
    EnoughSent(w, size, clock, evs, m, q, n);
    PlaceKept(w, size, clock, evs, m, q, n);
  }

  lemma PlaceKept(w: int, size: nat, clock: int, evs: seq<Event>, m: nat, q: nat, n: nat)
    requires ValidRun(w, size, clock, evs) && m <= |evs| && ValidRun(w, size, clock, evs[..m]) && q < size
    requires n < |Run(w, size, clock, evs[..m]).s.queues[q]|
    requires |SentFrom(Run(w, size, clock, evs[..m]).sent, q)| + n < |SentFrom(Run(w, size, clock, evs).sent, q)|
    ensures var t, u := Run(w, size, clock, evs[..m]), Run(w, size, clock, evs);
            SentFrom(u.sent, q)[|SentFrom(t.sent, q)| + n] == t.s.queues[q][n]
  {
    var t, u := Run(w, size, clock, evs[..m]), Run(w, size, clock, evs);
    HasQueue(w, size, t, q);
    HasQueue(w, size, u, q);
    FifoPerServer(w, size, clock, evs, q);
    FifoPerServer(w, size, clock, evs[..m], q);
    KeptPlace(t, u, evs, m, q, n);
  }

  lemma HasQueue(w: int, size: nat, t: Trace, q: nat)
    requires TraceOk(w, size, t) && q < size
    ensures q < |t.s.queues|
  {
  }

  lemma KeptPlace(t: Trace, u: Trace, evs: seq<Event>, m: nat, q: nat, n: nat)
    requires m <= |evs| && q < |t.s.queues| && q < |u.s.queues| && n < |t.s.queues[q]|
    requires SentFrom(u.sent, q) + u.s.queues[q] == Arrived(evs, q)
    requires SentFrom(t.sent, q) + t.s.queues[q] == Arrived(evs[..m], q)
    requires |SentFrom(t.sent, q)| + n < |SentFrom(u.sent, q)|
    ensures SentFrom(u.sent, q)[|SentFrom(t.sent, q)| + n] == t.s.queues[q][n]
  {
    ArrivedStays(evs, m, q);
    SamePlace(SentFrom(u.sent, q), u.s.queues[q], SentFrom(t.sent, q), t.s.queues[q], Arrived(evs, q),
              Arrived(evs[..m], q), n);
  }

  lemma EnoughWindows(w: int, size: nat, clock: int, evs: seq<Event>, m: nat, q: nat, rounds: nat)
    requires ValidRun(w, size, clock, evs) && m <= |evs| && ValidRun(w, size, clock, evs[..m]) && q < size
    requires ExpiredTurns(w, size, clock, evs) >= ExpiredTurns(w, size, clock, evs[..m]) + rounds * size
    ensures WindowsOf(Run(w, size, clock, evs).windows, q) >=
            WindowsOf(Run(w, size, clock, evs[..m]).windows, q) + rounds
  {
    var a, b := Run(w, size, clock, evs[..m]).windows, Run(w, size, clock, evs).windows;
    WindowsAreExpiredTurns(w, size, clock, evs);
    WindowsAreExpiredTurns(w, size, clock, evs[..m]);
    WindowsStay(w, size, clock, evs, m);
    RoundsHaveWindows(size, b, |a|, rounds, q);
  }

  lemma EnoughSent(w: int, size: nat, clock: int, evs: seq<Event>, m: nat, q: nat, n: nat)
    requires ValidRun(w, size, clock, evs) && m <= |evs| && ValidRun(w, size, clock, evs[..m]) && q < size
    requires n < |Run(w, size, clock, evs[..m]).s.queues[q]|
    requires ExpiredTurns(w, size, clock, evs) >= ExpiredTurns(w, size, clock, evs[..m]) + (n + 1) * size
    ensures |SentFrom(Run(w, size, clock, evs[..m]).sent, q)| + n < |SentFrom(Run(w, size, clock, evs).sent, q)|
  {
    EnoughWindows(w, size, clock, evs, m, q, n + 1);
    RunStaysAhead(w, size, clock, evs, m, q);
  }

  lemma SamePlace<T>(sent: seq<T>, left: seq<T>, before: seq<T>, queue: seq<T>, all: seq<T>, early: seq<T>, n: nat)
    requires sent + left == all && before + queue == early && |early| <= |all| && all[..|early|] == early
    requires n < |queue| && |before| + n < |sent|
    ensures sent[|before| + n] == queue[n]
  {
    var k := |before| + n;
    assert sent[k] == all[k] == all[..|early|][k] == queue[n];
  }

  // ---------------------------------------------------------------------------------------------
  // The scheduler, updated in place
  // ---------------------------------------------------------------------------------------------

  lemma RunSnoc(w: int, size: nat, clock: int, evs: seq<Event>, e: Event)
    requires ValidRun(w, size, clock, evs) && Enabled(Run(w, size, clock, evs).s, e)
    ensures ValidRun(w, size, clock, evs + [e])
    ensures Run(w, size, clock, evs + [e]) == Step(w, Run(w, size, clock, evs), e)
  {
    assert (evs + [e])[..|evs|] == evs;
  }

  ghost predicate NeverGoesBack(readings: nat -> int)
  {
    forall i, j :: 0 <= i <= j ==> readings(i) <= readings(j)
  }

  function RequestsOf(sent: seq<Dispatch>): (rs: seq<Request>)
    ensures |rs| == |sent| && forall k :: 0 <= k < |sent| ==> rs[k] == sent[k].request
  {
    seq(|sent|, k requires 0 <= k < |sent| => sent[k].request)
  }

  /** What a turn does to the queues and sends. */
  lemma TurnSends(w: int, t: Trace, now: int, restart: int)
    requires t.s.server < |t.s.queues| && Enabled(t.s, Turn(now, restart))
    ensures var s, u := Advance(w, t.s, now, restart), Step(w, t, Turn(now, restart));
            var queue := s.queues[s.server];
            && u.s == (if queue == [] then s else s.(queues := s.queues[s.server := queue[1..]]))
            && RequestsOf(u.sent) == RequestsOf(t.sent) + queue[..if queue == [] then 0 else 1]
  {
  }

  lemma TurnRun(w: int, size: nat, clock: int, evs: seq<Event>, s: State, now: int, restart: int)
    requires ValidRun(w, size, clock, evs) && Run(w, size, clock, evs).s == s && Enabled(s, Turn(now, restart))
    ensures var all, u := evs + [Turn(now, restart)], Advance(w, s, now, restart);
            var queue := u.queues[u.server];
            && ValidRun(w, size, clock, all)
            && Run(w, size, clock, all).s == (if queue == [] then u else u.(queues := u.queues[u.server := queue[1..]]))
            && RequestsOf(Run(w, size, clock, all).sent) ==
               RequestsOf(Run(w, size, clock, evs).sent) + queue[..if queue == [] then 0 else 1]
  {
    RunSnoc(w, size, clock, evs, Turn(now, restart));
    TurnSends(w, Run(w, size, clock, evs), now, restart);
  }

  class Scheduler {
    const window: int
    const queues: array<seq<Request>>
    var server: nat
    var first: bool
    var start: int
    var reqnb: int
    ghost const began: int
    ghost var clock: int
    ghost var events: seq<Event>

    ghost function Snapshot(): State
      reads this, queues
    {
      State(queues[..], server, first, start, clock)
    }

    ghost predicate Valid()
      reads this, queues
    {
      && ValidRun(window, queues.Length, began, events) && Run(window, queues.Length, began, events).s == Snapshot()
      && reqnb == Sum(queues[..], SIZE)
    }

    /** What the scheduler has done since `TWINS_init`. */
    ghost function Done(): Trace
      reads this, queues
      requires Valid()
    {
      Run(window, queues.Length, began, events)
    }

    ghost function Sent(): seq<Request>
      reads this, queues
      requires Valid()
    {
      RequestsOf(Done().sent)
    }

    constructor (window: int, size: nat, now: int)
      requires window >= 0 && size >= 1
      ensures Valid() && events == [] && this.window == window && queues.Length == size && clock == now && fresh(queues)
    {
      this.window, queues := window, new seq<Request>[size](_ => []);
      server, first, start, reqnb := 0, true, 0, 0;
      began, clock, events := now, now, [];
      new;
      assert queues[..] == Initial(size, now).s.queues;
      SumZero(queues[..], SIZE);
    }

    /** A request arrives: `timeline_add_req` appends it to the list of its queue. */
    method Receive(a: Arrival)
      requires Valid() && a.queue < queues.Length
      modifies this`events, this`reqnb, queues
      ensures Valid() && events == old(events) + [Arrive(a.queue, a.request)] && reqnb == old(reqnb) + 1
      ensures Sent() == old(Sent())
    {
      ghost var before := queues[..];
      RunSnoc(window, queues.Length, began, events, Arrive(a.queue, a.request));
      queues[a.queue] := queues[a.queue] + [a.request];
      reqnb := reqnb + 1;
      events := events + [Arrive(a.queue, a.request)];
      SumUpdate(before, a.queue, queues[a.queue], SIZE);
      assert queues[..] == before[a.queue := queues[a.queue]];
    }

    /** The requests of one batch arrive while the scheduler does not hold the lock. */
    method ReceiveAll(batch: seq<Arrival>)
      requires Valid() && forall a :: a in batch ==> a.queue < queues.Length
      modifies this`events, this`reqnb, queues
      ensures Valid() && reqnb == old(reqnb) + |batch| && Sent() == old(Sent())
    {
      for n := 0 to |batch|
        invariant Valid() && reqnb == old(reqnb) + n && Sent() == old(Sent())
      {
        Receive(batch[n]);
      }
    }

    /** The window test; `tick` numbers the readings of the clock. */
    method UpdateWindow(readings: nat -> int, tick: nat) returns (next: nat, ghost now: int, ghost restart: int)
      requires server < queues.Length && clock <= readings(tick) && NeverGoesBack(readings)
      modifies this`server, this`first, this`start, this`clock
      ensures tick < next && old(clock) <= now <= restart && clock <= readings(next)
      ensures Snapshot() == Advance(window, old(Snapshot()), now, restart) && server < queues.Length
      ensures old(first) ==> server == 0 && start == clock == restart
      ensures !old(first) && now >= old(start) + window ==>
                server == (old(server) + 1) % queues.Length && start == clock == restart
      ensures !old(first) && now < old(start) + window ==>
                server == old(server) && start == old(start) && clock == now
    {
      now, restart, next := readings(tick), readings(tick), tick + 1;
      if first {
        start := readings(tick);
        first := false;
        server := 0;
      } else if readings(tick) - start >= window {
        start := readings(tick + 1);
        restart, next := readings(tick + 1), tick + 2;
        server := server + 1;
        if server >= queues.Length {
          server := 0;
        }
      }
      clock := restart;
    }

    /** Takes the first request, if any, of the queue of the current window. */
    method TakeFirst() returns (out: seq<Request>)
      requires server < queues.Length && reqnb == Sum(queues[..], SIZE)
      modifies this`reqnb, queues
      ensures var s := old(Snapshot());
              var queue := s.queues[s.server];
              && Snapshot() == (if queue == [] then s else s.(queues := s.queues[s.server := queue[1..]]))
              && out == queue[..if queue == [] then 0 else 1]
      ensures reqnb == old(reqnb) - |out| == Sum(queues[..], SIZE)
    {
      out := [];
      if queues[server] != [] {
        ghost var before := queues[..];
        out := [queues[server][0]];
        queues[server] := queues[server][1..];
        reqnb := reqnb - 1;
        SumUpdate(before, server, queues[server], SIZE);
        assert queues[..] == before[server := queues[server]];
      }
    }

    /** The window test, and then the first request, if any, of the queue of the window. */
    method PerformTurn(readings: nat -> int, tick: nat)
      returns (next: nat, out: seq<Request>, ghost now: int, ghost restart: int)
      requires server < queues.Length && clock <= readings(tick) && NeverGoesBack(readings)
      requires reqnb == Sum(queues[..], SIZE)
      modifies this`server, this`first, this`start, this`clock, this`reqnb, queues
      ensures tick < next && old(clock) <= now <= restart && clock <= readings(next) && server < queues.Length
      ensures var s := Advance(window, old(Snapshot()), now, restart);
              s.server < queues.Length == |s.queues| &&
              var queue := s.queues[s.server];
              && Snapshot() == (if queue == [] then s else s.(queues := s.queues[s.server := queue[1..]]))
              && out == queue[..if queue == [] then 0 else 1] && (out == [] ==> queues[server] == [])
      ensures reqnb == old(reqnb) - |out| == Sum(queues[..], SIZE)
    {
      next, now, restart := UpdateWindow(readings, tick);
      out := TakeFirst();
    }

    /** One turn of the loop: a request is sent unless the queue of the current window is empty. */
    method TakeTurn(readings: nat -> int, tick: nat) returns (next: nat, out: seq<Request>)
      requires Valid() && reqnb > 0 && clock <= readings(tick) && NeverGoesBack(readings)
      modifies this, queues
      ensures Valid() && tick < next && clock <= readings(next)
      ensures exists now, restart :: events == old(events) + [Turn(now, restart)]
      ensures Sent() == old(Sent()) + out
      ensures reqnb == old(reqnb) - |out| && (out == [] ==> queues[server] == [])
    {
      SumZero(queues[..], SIZE);
      ghost var now, restart;
      next, out, now, restart := PerformTurn(readings, tick);
      TurnRun(window, queues.Length, began, events, old(Snapshot()), now, restart);
      events := events + [Turn(now, restart)];
    }

    /** Requests in the queues plus those of the batches that are still to arrive. */
    ghost function Remaining(arrivals: seq<seq<Arrival>>, k: nat): int
      requires k <= |arrivals|
      reads this
    {
      reqnb + Sum(arrivals[k..], BATCH)
    }

    lemma RemainingNonNegative(arrivals: seq<seq<Arrival>>, k: nat)
      requires Valid() && k <= |arrivals|
      ensures Remaining(arrivals, k) >= 0
    {
      SumNonNegative(queues[..], SIZE);
      SumNonNegative(arrivals[k..], BATCH);
    }

    ghost predicate ArrivalsOk(arrivals: seq<seq<Arrival>>)
    {
      forall b, a :: b in arrivals && a in b ==> a.queue < queues.Length
    }

    /** The user is called back with the lock released, so that the next batch of requests arrives. */
    method Unlocked(arrivals: seq<seq<Arrival>>, k: nat) returns (next: nat)
      requires Valid() && ArrivalsOk(arrivals) && k <= |arrivals|
      modifies this`events, this`reqnb, queues
      ensures Valid() && k <= next <= |arrivals| && Remaining(arrivals, next) == old(Remaining(arrivals, k))
      ensures Sent() == old(Sent())
    {
      next := k;
      if k < |arrivals| {
        ReceiveAll(arrivals[k]);
        assert arrivals[k..][1..] == arrivals[k + 1..];
        next := k + 1;
      }
    }

    /** One turn, and what happens while the lock is free after it. */
    method Iterate(readings: nat -> int, tick: nat, arrivals: seq<seq<Arrival>>, k: nat)
      returns (next: nat, later: nat, out: seq<Request>)
      requires Valid() && reqnb > 0 && clock <= readings(tick) && NeverGoesBack(readings)
      requires ArrivalsOk(arrivals) && k <= |arrivals|
      modifies this, queues
      ensures Valid() && clock <= readings(next) && later <= |arrivals| && Sent() == old(Sent()) + out
      ensures out == [] ==> queues[server] == []
      ensures 0 <= Remaining(arrivals, later) == old(Remaining(arrivals, k)) - |out|
    {
      later := k;
      next, out := TakeTurn(readings, tick);
      if out != [] {
        later := Unlocked(arrivals, k);
      }
      RemainingNonNegative(arrivals, later);
    }

    /**
     * The scheduler: sends requests until none is left or the queue of the current window is empty,
     * and tells how long the window still lasts. `arrivals` says what arrives each time the lock is free.
     */
    method Serve(readings: nat -> int, from: nat, arrivals: seq<seq<Arrival>>)
      returns (left: int, out: seq<Request>, tick: nat)
      requires Valid() && clock <= readings(from) && NeverGoesBack(readings)
      requires ArrivalsOk(arrivals)
      modifies this, queues
      ensures Valid() && Sent() == old(Sent()) + out
      ensures reqnb <= 0 || queues[server] == []
      ensures clock <= readings(tick) && left == window - (readings(tick) - start)
    {
      tick, out := from, [];
      var k: nat := 0;
      ghost var was := Sent();
      while reqnb > 0
        invariant Valid() && clock <= readings(tick) && k <= |arrivals| && Sent() == was + out
        decreases Remaining(arrivals, k)
      {
        var sent;
        tick, k, sent := Iterate(readings, tick, arrivals, k);
        Regroup(was, out, sent);
        out := out + sent;
        if sent == [] {
          break;
        }
      }
      left := window - (readings(tick) - start);
    }
  }
}
