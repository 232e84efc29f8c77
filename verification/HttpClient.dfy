/** The client object: its two queues and its loops, carrying out the client model. */
module HttpClient {
  import opened ClientModel

  class Client {
    const depth: nat
    const domain: bool
    const reachable: bool
    var link: Link
    var resolving: bool
    var reading: bool
    var requestsBuffer: seq<Request>
    var pipeliningCallbacks: seq<Request>
    var submitted: nat
    var log: Log
    ghost var wire: seq<nat>
    ghost var delivered: seq<nat>
    ghost var broken: bool

    ghost function View(): ClientModel.Client
      reads this
    {
      ClientModel.Client(depth, domain, reachable, link, resolving, reading, requestsBuffer, pipeliningCallbacks,
                         submitted, log, wire, delivered, broken)
    }

    constructor (depth: nat, domain: bool, reachable: bool)
      ensures View() == Init(depth, domain, reachable)
    {
      this.depth, this.domain, this.reachable := depth, domain, reachable;
      link, resolving, reading := NoClient, false, false;
      requestsBuffer, pipeliningCallbacks, submitted, log := [], [], 0, Log({}, []);
      wire, delivered, broken := [], [], false;
    }

    /** The stored callback of a request runs. */
    method Callback(r: Request, result: Result)
      modifies this`log
      ensures log == Fire(old(log), r, result)
    {
      if r.timed && r.id in log.flags {
        return;
      }
      log := Log(log.flags + {r.id}, log.calls + [(r.id, result)]);
    }

    method FailPipeline(result: Result)
      modifies this`log, this`pipeliningCallbacks
      ensures log == FireAll(old(log), old(pipeliningCallbacks), result) && pipeliningCallbacks == []
    {
      while pipeliningCallbacks != []
        invariant FireAll(log, pipeliningCallbacks, result) == FireAll(old(log), old(pipeliningCallbacks), result)
        decreases |pipeliningCallbacks|
      {
        var first := pipeliningCallbacks[0];
        pipeliningCallbacks := pipeliningCallbacks[1..];
        Callback(first, result);
      }
    }

    method FailBuffer(result: Result)
      modifies this`log, this`requestsBuffer
      ensures log == FireAll(old(log), old(requestsBuffer), result) && requestsBuffer == []
    {
      while requestsBuffer != []
        invariant FireAll(log, requestsBuffer, result) == FireAll(old(log), old(requestsBuffer), result)
        decreases |requestsBuffer|
      {
        var first := requestsBuffer[0];
        requestsBuffer := requestsBuffer[1..];
        Callback(first, result);
      }
    }

    method OnError(result: Result)
      modifies this
      ensures View() == Fail(old(View()), result)
    {
      FailPipeline(result);
      FailBuffer(result);
      link, reading := NoClient, false;
      wire, delivered := [], [];
    }

    method SendFront()
      requires requestsBuffer != []
      modifies this`requestsBuffer, this`pipeliningCallbacks, this`wire
      ensures View() == SendFirst(old(View()))
    {
      var first := requestsBuffer[0];
      wire := wire + [first.id];
      pipeliningCallbacks := pipeliningCallbacks + [first];
      requestsBuffer := requestsBuffer[1..];
    }

    /** The connection is established. */
    method OnConnected()
      requires link.Connecting?
      modifies this
      ensures View() == Next(old(View()), ConnectOk)
    {
      link := Up;
      ghost var start := View();
      while |pipeliningCallbacks| <= depth && requestsBuffer != []
        invariant Refill(View()) == Refill(start)
        decreases |requestsBuffer|
      {
        SendFront();
      }
    }

    method HandleResponse(close: bool, up: bool)
      requires pipeliningCallbacks != []
      modifies this
      ensures View() == Handle(old(View()), close, up)
    {
      var first := pipeliningCallbacks[0];
      pipeliningCallbacks := pipeliningCallbacks[1..];
      delivered := delivered + [first.id];
      Callback(first, Ok);
      hide Fire, FireAll;
      if up {
        if requestsBuffer != [] {
          SendFront();
        } else if close && pipeliningCallbacks == [] {
          link := NoClient;
          wire, delivered := [], [];
        }
      } else {
        FailPipeline(NetworkFailure);
        wire, delivered := [], [];
      }
    }

    /** The first buffered request of that identity, if any, is dropped. */
    method EraseRequest(id: nat)
      modifies this`requestsBuffer
      ensures requestsBuffer == Without(old(requestsBuffer), id)
    {
      var rs := requestsBuffer;
      var i := 0;
      while i < |rs| && rs[i].id != id
        invariant requestsBuffer == rs
        invariant 0 <= i <= |rs|
        invariant Without(rs, id) == rs[..i] + Without(rs[i..], id)
      {
        WithoutNext(rs, i, id);
        i := i + 1;
      }
      if i < |rs| {
        assert rs[i..][1..] == rs[i + 1..];
        requestsBuffer := rs[..i] + rs[i + 1..];
      } else {
        assert rs[i..] == [] && rs[..i] == rs;
      }
    }

    /** A timer fires for a request still in one of the queues. */
    method OnTimeout(id: nat)
      requires Request(id, true) in requestsBuffer + pipeliningCallbacks
      modifies this`log, this`requestsBuffer
      ensures View() == Next(old(View()), TimerFires(id))
    {
      if id in log.flags {
        return;
      }
      EraseRequest(id);
      log := Log(log.flags + {id}, log.calls + [(id, Timeout)]);
      hide Without;
    }

    /** A request joins the pipeline when there is room and nothing waits, else the buffer. */
    method SendRequest(timed: bool)
      modifies this
      ensures View() == Submitted(old(View()), timed)
    {
      hide Fire;
      var r := Request(submitted, timed);
      submitted := submitted + 1;
      if link.NoClient? {
        requestsBuffer := requestsBuffer + [r];
        if !domain {
          if reachable {
            link := Connecting;
          } else {
            requestsBuffer := requestsBuffer[1..];
            Callback(r, BadServerAddress);
            broken := broken || requestsBuffer != [];
          }
          return;
        }
        resolving := true;
        return;
      }
      if link.Connecting? {
        requestsBuffer := requestsBuffer + [r];
        return;
      }
      if |pipeliningCallbacks| <= depth && requestsBuffer == [] {
        pipeliningCallbacks := pipeliningCallbacks + [r];
        wire := if link.Up? then wire + [r.id] else wire;
      } else {
        requestsBuffer := requestsBuffer + [r];
      }
    }
  }

  lemma WithoutNext(rs: seq<Request>, i: nat, id: nat)
    requires i < |rs| && rs[i].id != id
    requires Without(rs, id) == rs[..i] + Without(rs[i..], id)
    ensures Without(rs, id) == rs[..i + 1] + Without(rs[i + 1..], id)
  {
    assert rs[i..][1..] == rs[i + 1..];
    assert rs[..i] + ([rs[i]] + Without(rs[i + 1..], id)) == rs[..i + 1] + Without(rs[i + 1..], id);
  }
}
