/** The queue, the wake pipe and the dispatcher's loop over one batch, as the objects the
    bridge is made of. */
module RequestQueue {
  import opened Text
  import opened Runs
  import opened Bridge

  class WakePipe {
    const capacity: nat
    var bytes: nat

    constructor (capacity: nat)
      ensures this.capacity == capacity && bytes == 0
    {
      this.capacity := capacity;
      bytes := 0;
    }

    /** A non-blocking write of one byte; it is lost when the pipe is full. */
    method Write()
      modifies this
      ensures bytes == if old(bytes) < capacity then old(bytes) + 1 else old(bytes)
      ensures capacity > 0 ==> bytes > 0
    {
      if bytes < capacity {
        bytes := bytes + 1;
      }
    }

    /** One read into a buffer of 64 bytes. */
    method Read() returns (n: nat)
      modifies this
      ensures n <= 64 && bytes == old(bytes) - n
      ensures n == 0 ==> old(bytes) == 0
    {
      n := if bytes < 64 then bytes else 64;
      bytes := bytes - n;
    }

    /** Read until there is nothing left. */
    method Drain()
      modifies this
      ensures bytes == 0
    {
      var n := Read();
      while n > 0
        invariant n == 0 ==> bytes == 0
        decreases bytes + n
      {
        n := Read();
      }
    }
  }

  class Queue {
    const max: nat
    const pipe: WakePipe
    var items: seq<nat>

    constructor (max: nat, pipe: WakePipe)
      ensures this.max == max && this.pipe == pipe && items == []
    {
      this.max := max;
      this.pipe := pipe;
      items := [];
    }

    /** Refused when full; otherwise queued behind the others, and the pipe has been
        written to.  The bound is kept. */
    method Enqueue(id: nat) returns (accepted: bool)
      modifies this, pipe
      ensures accepted <==> max == 0 || |old(items)| < max
      ensures items == if accepted then old(items) + [id] else old(items)
      ensures max > 0 && |old(items)| <= max ==> |items| <= max
      ensures accepted && pipe.capacity > 0 ==> pipe.bytes > 0
      ensures !accepted ==> pipe.bytes == old(pipe.bytes)
    {
      if max > 0 && |items| >= max {
        return false;
      }
      items := items + [id];
      pipe.Write();
      return true;
    }

    method Drain() returns (out: seq<nat>)
      modifies this
      ensures out == old(items) && items == []
    {
      out := items;
      items := [];
    }
  }

  /** The replies to a batch, one each, in its order. */
  function Answers(items: seq<nat>, outcomes: seq<Outcome>): (r: seq<(nat, Reply)>)
    requires |items| == |outcomes|
    ensures |r| == |items|
    ensures forall i :: 0 <= i < |r| ==> r[i].0 == items[i] && FromDispatcher(r[i].1)
  {
    if items == [] then []
    else [(items[0], ReplyFor(outcomes[0]))] + Answers(items[1..], outcomes[1..])
  }

  lemma {:induction false} AnswersMore(items: seq<nat>, outcomes: seq<Outcome>, k: nat)
    requires |items| == |outcomes| && k < |items|
    ensures Answers(items[..k + 1], outcomes[..k + 1]) ==
            Answers(items[..k], outcomes[..k]) + [(items[k], ReplyFor(outcomes[k]))]
  {
    hide ReplyFor;
    if k > 0 {
      assert items[..k + 1][1..] == items[1..][..k] && outcomes[..k + 1][1..] == outcomes[1..][..k];
      assert items[..k][1..] == items[1..][..k - 1] && outcomes[..k][1..] == outcomes[1..][..k - 1];
      AnswersMore(items[1..], outcomes[1..], k - 1);
    }
  }

  class Dispatcher {
    var replies: seq<(nat, Reply)>

    /** One request: its handler's result, an error, or the stream that takes it over. */
    method RunOne(item: nat, outcome: Outcome)
      modifies this
      ensures |replies| == |old(replies)| + 1 && old(replies) <= replies
      ensures var (to, reply) := replies[|old(replies)|];
              && to == item
              && (reply.Normal? <==> outcome.Value?) && (outcome.Value? ==> reply.body == outcome.body)
              && (reply.StreamHead? <==> outcome == Stream(true))
              && (reply.Failure? <==> outcome.NoHandler? || outcome.Raised? || outcome == Stream(false))
              && (outcome.Raised? ==> reply.text == "R handler error: " + outcome.message)
      ensures replies == old(replies) + [(item, ReplyFor(outcome))]
    {
      var streaming := false;
      var reply := Failure("");
      match outcome {
        case NoHandler =>
          reply := Failure("no handler registered for this route");
        case Raised(message) =>
          reply := Failure("R handler error: " + message);
        case Stream(callable) =>
          if !callable {
            reply := Failure("drogon_stream: next_chunk is not a function");
          } else {
            // the session sends the response head itself
            replies := replies + [(item, StreamHead)];
            streaming := true;
          }
        case Value(body) =>
          reply := Normal(body);
      }
      if !streaming {
        replies := replies + [(item, reply)];
      }
    }

    /** The loop of `runDispatcher` over the requests it took out: each is answered once,
        in the order of the batch. */
    method RunBatch(items: seq<nat>, outcomes: seq<Outcome>)
      requires |items| == |outcomes|
      modifies this
      ensures replies == old(replies) + Answers(items, outcomes)
    {
      hide ReplyFor;
      var i := 0;
      while i < |items|
        invariant i <= |items|
        invariant replies == old(replies) + Answers(items[..i], outcomes[..i])
      {
        AnswersMore(items, outcomes, i);
        hide Answers;
        RunOne(items[i], outcomes[i]);
        i := i + 1;
      }
      assert items[..i] == items && outcomes[..i] == outcomes;
    }
  }

  /** The steps that handle a whole batch. */
  function HandleAll(outcomes: seq<Outcome>): seq<Action> {
    seq(|outcomes|, i requires 0 <= i < |outcomes| => Handle(outcomes[i]))
  }

  /** The loop over a batch is the dispatcher's steps taken without a break. */
  lemma {:induction false} BatchRefines(s: State, outcomes: seq<Outcome>)
    requires s.phase == Working(Http) && |outcomes| == |s.http.batch|
    ensures Run(Step, s, HandleAll(outcomes)) ==
            Some(s.(replies := s.replies + Answers(s.http.batch, outcomes),
                    http := s.http.(batch := [], done := s.http.done + s.http.batch)))
    decreases |outcomes|
  {
    if outcomes == [] {
      assert s.http.done + s.http.batch == s.http.done;
      assert s.replies + Answers(s.http.batch, outcomes) == s.replies;
    } else {
      var s' := Next(s, Handle(outcomes[0]));
      assert HandleAll(outcomes)[1..] == HandleAll(outcomes[1..]);
      BatchRefines(s', outcomes[1..]);
      BatchAdds(s, outcomes);
      hide Answers, ReplyFor;
    }
  }

  lemma BatchAdds(s: State, outcomes: seq<Outcome>)
    requires s.phase == Working(Http) && |outcomes| == |s.http.batch| && outcomes != []
    ensures var s' := Next(s, Handle(outcomes[0]));
            && s'.replies + Answers(s'.http.batch, outcomes[1..]) == s.replies + Answers(s.http.batch, outcomes)
            && s'.http.done + s'.http.batch == s.http.done + s.http.batch
  {
    var first := (s.http.batch[0], ReplyFor(outcomes[0]));
    Regroup(s.replies, first, Answers(s.http.batch[1..], outcomes[1..]));
    Regroup(s.http.done, s.http.batch[0], s.http.batch[1..]);
    assert s.http.batch == [s.http.batch[0]] + s.http.batch[1..];
    hide ReplyFor;
  }

  lemma Regroup<T>(a: seq<T>, x: T, b: seq<T>)
    ensures a + [x] + b == a + ([x] + b)
  {}
}
