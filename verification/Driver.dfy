/** A user of the class: calls on a WSClient object follow the runs that the theorems speak of. */
module Driver {
  import opened Bytes
  import opened Session
  import opened Runs
  import opened Lifecycle
  import opened Client
  import Fragmentation
  import EndToEnd
  import Rfc = Rfc6455

  method Perform(c: WSClient, a: Action) returns (o: Outcome)
    modifies c
    ensures Result(c.Abs(), o) == Act(old(c.Abs()), a)
  {
    o := Ok;
    match a
    case Initialize(path, config) => c.Init(path, config);
    case SetMessageSize(size) => c.SetMessageSize(size);
    case SendText(call) => o := c.Send(call);
    case Iterate(input) => o := c.EventLoop(input);
    case Discard(mask, inputs) => o := c.Drop(mask, inputs);
  }

  /** Any list of calls, whatever their outcomes. */
  method PerformAll(c: WSClient, acts: seq<Action>)
    modifies c
    ensures c.Abs() == After(old(c.Abs()), acts)
  {
    for k := 0 to |acts|
      invariant After(c.Abs(), acts[k..]) == After(old(c.Abs()), acts)
    {
      assert acts[k..][0] == acts[k] && acts[k..][1..] == acts[k + 1..];
      var o := Perform(c, acts[k]);
    }
  }

  /**
   * An object used in any way that initialises it at most once reports callbacks in order, and if all
   * calls succeed, what it passed to the socket is a request and then messages that a server reads
   * as the payloads given to send.
   */
  method UseClient(acts: seq<Action>) returns (c: WSClient, ghost head: seq<byte>, ghost tail: seq<byte>)
    requires SingleInit(FRESH, acts)
    ensures fresh(c) && c.Abs() == After(FRESH, acts) && Language(c.trace.callbacks)
    ensures OkRun(FRESH, acts) ==>
              && c.trace.wire == head + tail
              && Fragmentation.Partway(Rfc.ServerReceives(tail), EndToEnd.NonEmpty(c.trace.payloads))
  {
    c := new WSClient();
    PerformAll(c, acts);
    LifecycleTheorem(acts);
    if OkRun(FRESH, acts) {
      head, tail := EndToEnd.EndToEndTheorem(acts);
    } else {
      head, tail := [], [];
    }
  }
}
