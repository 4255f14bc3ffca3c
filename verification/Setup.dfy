/** How many handshake requests are queued by the time the client enters the handshake. */
module Setup {
  import opened Wrappers
  import opened Session
  import opened Outgoing
  import opened Runs
  import opened Lifecycle
  import opened Output

  /** The connection stands and the request is queued, but set_nonblocking fails. */
  predicate SetupFails(s: State, a: Action) {
    && a.Iterate? && s.status.StartInit?
    && a.input.connected && s.acceptable != Some([]) && !a.input.nonblocking
  }

  /** How often that happens on a run. */
  function SetupFailures(s: State, acts: seq<Action>): nat
    decreases |acts|
  {
    if acts == [] then 0
    else (if SetupFails(s, acts[0]) then 1 else 0) + SetupFailures(Act(s, acts[0]).s, acts[1..])
  }

  /** Exactly the first n events are requests. */
  predicate Requests(q: seq<Event>, n: nat) {
    n <= |q| && forall k | 0 <= k < |q| :: q[k].HttpRequest? <==> k < n
  }

  lemma SetupStep(s: State, a: Action, n: nat)
    requires Healthy(s) && Rank(s.status) <= 1 && Requests(s.outputEvents, n) && s.written == []
    requires a.Initialize? ==> s.status.NotInit?
    ensures var t := Act(s, a).s;
            && t.written == []
            && Requests(t.outputEvents, n + if SetupFails(s, a) || t.status.Handshake? then 1 else 0)
            && (t.status.Handshake? ==> !SetupFails(s, a))
  {
    match a
    case SendText(c) => var fs, ps := SendEffect(s, c);
    case Iterate(i) =>
      if s.acceptable.Some? {
        NoProtocols(s.acceptable.value);
      }
    case _ =>
  }

  lemma {:induction false} RunSetup(s: State, acts: seq<Action>, n: nat)
    requires Healthy(s) && SingleInit(s, acts) && Requests(s.outputEvents, n) && s.written == []
    requires Rank(s.status) <= 1 && Rank(After(s, acts).status) <= 1
    ensures var t := After(s, acts);
            t.written == [] && Requests(t.outputEvents, n + SetupFailures(s, acts))
    decreases |acts|
  {
    if acts != [] {
      SetupStep(s, acts[0], n);
      ActSound(s, acts[0]);
      var t := Act(s, acts[0]).s;
      RunSound(t, acts[1..]);
      RunSetup(t, acts[1..], n + if SetupFails(s, acts[0]) then 1 else 0);
    }
  }

  /**
   * On every run of a client initialised at most once, the iteration that enters the handshake leaves
   * one request in front of the queue for itself and one for every earlier failure of
   * set_nonblocking. So a single request goes first, and only frames follow, if and only if
   * set_nonblocking never failed.
   */
  lemma OneRequestIff(acts: seq<Action>, i: StepInput)
    requires SingleInit(FRESH, acts) && After(FRESH, acts).status.StartInit?
    requires EventLoop(After(FRESH, acts), i).s.status.Handshake?
    ensures var t := EventLoop(After(FRESH, acts), i).s;
            && Requests(t.outputEvents, 1 + SetupFailures(FRESH, acts))
            && (RequestFirst(t.written + t.outputEvents) <==> SetupFailures(FRESH, acts) == 0)
  {
    var s := After(FRESH, acts);
    RunSound(FRESH, acts);
    RunSetup(FRESH, acts, 0);
    SetupStep(s, Iterate(i), SetupFailures(FRESH, acts));
    RequestsFirst(Act(s, Iterate(i)).s, SetupFailures(FRESH, acts));
  }

  lemma RequestsFirst(t: State, n: nat)
    requires Healthy(t) && t.written == [] && Requests(t.outputEvents, 1 + n)
    ensures RequestFirst(t.written + t.outputEvents) <==> n == 0
  {
    var q := t.outputEvents;
    assert t.written + q == q;
    if n == 0 {
      forall k | 0 < k < |q| ensures q[k].WebsocketData? {
        assert q[k] in q && OutEvent(q[k]);
      }
    } else {
      assert q[1].HttpRequest?;
    }
  }

  /**
   * If set_nonblocking fails, the request stays in the queue, so that the next iteration queues a
   * second one in front of it.
   */
  lemma RequestQueuedTwice(s: State, i: StepInput, j: StepInput)
    requires s.status.StartInit? && s.acceptable != Some([])
    requires i.connected && !i.nonblocking && j.connected && j.nonblocking
    ensures var r := EventLoop(s, i);
            var t := EventLoop(r.s, j);
            && r.outcome == Err(IOError) && r.s.status.StartInit?
            && t.outcome.Ok? && t.s.status.Handshake? && |t.s.outputEvents| == |s.outputEvents| + 2
            && t.s.outputEvents[0].HttpRequest? && t.s.outputEvents[1].HttpRequest?
  {
    if s.acceptable.Some? {
      NoProtocols(s.acceptable.value);
    }
  }
}
