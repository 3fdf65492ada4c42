/**
  The worker's side of the phase protocol: numbered requests on one stream,
  numbered replies on another, and a computation in between.
 */
module WorkerPhases {
  import opened Wrappers

  datatype Request = Acquire(sequence: nat) | Release(sequence: nat) | Failed(sequence: nat, oom: bool)

  datatype Reply = Reply(sequence: nat, error: bool, granted: bool)

  datatype Error = Disconnected | Protocol | Computation

  /** The computation under the phase succeeds, or fails, possibly for lack of memory. */
  datatype Outcome = Success | Failure(oom: bool)

  /** Reply `n` answers the request sent `n` requests after `sequence`, without error. */
  predicate Answers(replies: seq<Reply>, sequence: nat, n: nat)
    requires n < |replies|
  {
    replies[n].sequence == sequence + n + 1 && !replies[n].error
  }

  /** The `n` requests before this one were all refused in turn. */
  predicate Refusals(replies: seq<Reply>, sequence: nat, n: nat)
    requires n <= |replies|
  {
    forall i :: 0 <= i < n ==> Answers(replies, sequence, i) && !replies[i].granted
  }

  function Acquires(sequence: nat, n: nat): seq<Request> {
    seq(n, i requires 0 <= i => Acquire(sequence + i + 1))
  }

  class GpuPhases {
    var sequence: nat
    /** Replies not read yet; the parent closes the stream when it leaves. */
    var input: seq<Reply>
    var sent: seq<Request>

    constructor (input: seq<Reply>)
      ensures sequence == 0 && this.input == input && sent == []
    {
      sequence, this.input, sent := 0, input, [];
    }

    method Exchange(request: Request) returns (r: Result<bool, Error>)
      requires request.sequence == sequence + 1
      modifies this
      ensures sequence == old(sequence) + 1 && sent == old(sent) + [request]
      ensures old(input) == [] ==> r == Err(Disconnected) && input == []
      ensures old(input) != [] ==>
        input == old(input)[1..]
        && r == if Answers(old(input), old(sequence), 0) then Ok(old(input)[0].granted) else Err(Protocol)
    {
      sequence := sequence + 1;
      sent := sent + [request];
      if input == [] {
        return Err(Disconnected);
      }
      var reply := input[0];
      input := input[1..];
      r := if reply.sequence != sequence || reply.error then Err(Protocol) else Ok(reply.granted);
    }

    /** Asks until granted: the `n` refusals are followed by a grant, or by the end of the protocol. */
    method Await() returns (r: Result<nat, Error>)
      modifies this
      ensures r.Ok? ==>
        && r.value < |old(input)| && Refusals(old(input), old(sequence), r.value)
        && Answers(old(input), old(sequence), r.value) && old(input)[r.value].granted
        && sequence == old(sequence) + r.value + 1 && input == old(input)[r.value + 1..]
        && sent == old(sent) + Acquires(old(sequence), r.value + 1)
      ensures r.Err? ==> r.error in {Disconnected, Protocol}
      ensures r.Err? ==> !exists n :: 0 <= n < |old(input)| && Refusals(old(input), old(sequence), n)
                                      && Answers(old(input), old(sequence), n) && old(input)[n].granted
    {
      var n := 0;
      while true
        invariant n <= |old(input)| && input == old(input)[n..] && sequence == old(sequence) + n
        invariant Refusals(old(input), old(sequence), n)
        invariant sent == old(sent) + Acquires(old(sequence), n)
        decreases |old(input)| - n
      {
        var reply := Exchange(Acquire(sequence + 1));
        assert n < |old(input)| ==> old(input)[n..][0] == old(input)[n];
        assert Acquires(old(sequence), n + 1) == Acquires(old(sequence), n) + [Acquire(old(sequence) + n + 1)];
        if reply.Err? {
          return Err(reply.error);
        }
        if reply.value {
          return Ok(n);
        }
        n := n + 1;
      }
    }

    /**
      A computation runs only after a grant that answers the request before it,
      and is followed by exactly one release or failure.
     */
    method Run(outcome: Outcome) returns (r: Result<(), Error>, ran: bool)
      modifies this
      ensures ran <==> exists n :: 0 <= n < |old(input)| && Refusals(old(input), old(sequence), n)
                                   && Answers(old(input), old(sequence), n) && old(input)[n].granted
      ensures ran ==>
        && sequence > old(sequence) && sent != []
        && sent[|sent| - 1] == (if outcome == Success then Release(sequence) else Failed(sequence, outcome.oom))
        && sent[..|sent| - 1] == old(sent) + Acquires(old(sequence), sequence - old(sequence) - 1)
      ensures r.Ok? ==> ran && outcome == Success
      ensures ran ==>
        var n := sequence - old(sequence) - 1;
        var closed := n < |old(input)| && Answers(old(input), old(sequence), n);
        && (r.Ok? <==> closed && outcome == Success)
        && (r == Err(Computation) <==> closed && outcome != Success)
        && (!closed ==> r.error in {Disconnected, Protocol})
    {
      var entered := Await();
      if entered.Err? {
        return Err(entered.error), false;
      }
      ran := true;
      var request := if outcome == Success then Release(sequence + 1) else Failed(sequence + 1, outcome.oom);
      var reply := Exchange(request);
      if reply.Err? {
        return Err(reply.error), ran;
      }
      r := if outcome == Success then Ok(()) else Err(Computation);
    }
  }
}
