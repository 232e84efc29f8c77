/** The request parser's pipeline: requests in arrival order, each with its response
    once there is one. */
module PipelineQueue {
  import opened Text

  /** Requests are numbered in the order they arrive; `batch` tells which call of
      `onRequests` took the request. */
  datatype Request = Request(id: nat, head: bool, batch: nat)

  /** `close` asks for the connection to be shut down behind it; `bare` responses (1xx and
      204) have no body and no length. */
  datatype Response = Response(payload: string, close: bool, bare: bool)

  /** A response as it is handed to the sender: with the HEAD flag of its request. */
  datatype Outgoing = Outgoing(response: Response, head: bool)

  datatype Slot = Slot(request: Request, response: Option<Response>)

  /** The first slot of a request. */
  function IndexOf(slots: seq<Slot>, id: nat): (r: Option<nat>)
    ensures r.Some? ==> r.value < |slots| && slots[r.value].request.id == id
    ensures r.Some? ==> forall i :: 0 <= i < r.value ==> slots[i].request.id != id
    ensures r.None? ==> forall i :: 0 <= i < |slots| ==> slots[i].request.id != id
  {
    if slots == [] then None
    else if slots[0].request.id == id then Some(0)
    else
      var r := IndexOf(slots[1..], id);
      if r.Some? then Some(r.value + 1) else None
  }

  function Fill(slots: seq<Slot>, i: nat, response: Response): seq<Slot>
    requires i < |slots|
  {
    slots[i := slots[i].(response := Some(response))]
  }

  /** How many responses at the front are ready to go. */
  function Ready(slots: seq<Slot>): (n: nat)
    ensures n <= |slots|
    ensures forall i :: 0 <= i < n ==> slots[i].response.Some?
    ensures n < |slots| ==> slots[n].response.None?
  {
    if slots == [] || slots[0].response.None? then 0 else 1 + Ready(slots[1..])
  }

  function Outputs(slots: seq<Slot>): (r: seq<Outgoing>)
    requires forall i :: 0 <= i < |slots| ==> slots[i].response.Some?
    ensures |r| == |slots|
    ensures forall i :: 0 <= i < |slots| ==> r[i] == Outgoing(slots[i].response.value, slots[i].request.head)
  {
    if slots == [] then [] else [Outgoing(slots[0].response.value, slots[0].request.head)] + Outputs(slots[1..])
  }

  class Pipeline {
    var slots: seq<Slot>

    constructor ()
      ensures slots == []
    {
      slots := [];
    }

    method PushRequest(request: Request)
      modifies this
      ensures slots == old(slots) + [Slot(request, None)]
    {
      slots := slots + [Slot(request, None)];
    }

    /** Put the response into its request's slot; true if that slot is the first. */
    method PushResponse(id: nat, response: Response) returns (first: bool)
      modifies this
      ensures match IndexOf(old(slots), id)
              case Some(i) => slots == Fill(old(slots), i, response) && first == (i == 0)
              case None => slots == old(slots) && !first
    {
      var i := 0;
      while i != |slots|
        invariant i <= |slots| && slots == old(slots)
        invariant forall j :: 0 <= j < i ==> slots[j].request.id != id
      {
        if slots[i].request.id == id {
          slots := slots[i := slots[i].(response := Some(response))];
          return i == 0;
        }
        i := i + 1;
      }
      return false;
    }

    /** Move the ready responses from the front behind those in `buffer`. */
    method PopReady(buffer: seq<Outgoing>) returns (buffer': seq<Outgoing>)
      modifies this
      ensures var n := Ready(old(slots));
              slots == old(slots)[n..] && buffer' == buffer + Outputs(old(slots)[..n])
    {
      buffer' := buffer;
      ghost var all := slots;
      ghost var n := Ready(all);
      ghost var out := Outputs(all[..n]);
      ghost var k := 0;
      assert out[..0] == [];
      while slots != [] && slots[0].response.Some?
        invariant 0 <= k <= n && slots == all[k..]
        invariant buffer' == buffer + out[..k]
        decreases |slots|
      {
        hide Outputs, Ready;
        var first := Outgoing(slots[0].response.value, slots[0].request.head);
        assert k < n && first == out[k];
        TakeMore(buffer, out, k);
        buffer' := buffer' + [first];
        slots := slots[1..];
        k := k + 1;
      }
      assert k == n && out[..n] == out;
    }
  }

  lemma TakeMore<T>(a: seq<T>, b: seq<T>, k: nat)
    requires k < |b|
    ensures a + b[..k] + [b[k]] == a + b[..k + 1]
  {}
}
