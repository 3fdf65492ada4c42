/** Inference in batches that shrink when the GPU runs out of memory. */
module Batching {
  import opened Wrappers

  datatype Error = OutOfMemory | InvalidFeatures | NothingToJoin

  function Min(a: nat, b: nat): nat { if a < b then a else b }

  function Mapped<T, U>(model: T -> U, items: seq<T>): (values: seq<U>)
    ensures |values| == |items|
    ensures forall i :: 0 <= i < |items| ==> values[i] == model(items[i])
  {
    seq(|items|, i requires 0 <= i < |items| => model(items[i]))
  }

  function Power(n: nat): nat { if n == 0 then 1 else 2 * Power(n - 1) }

  /** A model on a device whose memory runs out when `fails` says so for an attempt and its size. */
  class Adapter<T, U> {
    const model: T -> U
    const finite: U -> bool
    const fails: (nat, nat) -> bool
    var attempts: nat
    /** Attempts that ran out of memory. */
    ghost var failures: nat
    var batchLimit: Option<nat>

    constructor (model: T -> U, finite: U -> bool, fails: (nat, nat) -> bool)
      ensures Valid() && this.model == model && this.finite == finite && this.fails == fails
      ensures attempts == 0 && failures == 0 && batchLimit == None
    {
      this.model, this.finite, this.fails := model, finite, fails;
      attempts, failures, batchLimit := 0, 0, None;
    }

    ghost predicate Valid()
      reads this
    {
      batchLimit.Some? ==> batchLimit.value >= 1
    }

    function Limit(batchSize: nat): nat
      reads this
    {
      if batchLimit.Some? then Min(batchSize, batchLimit.value) else batchSize
    }

    method ExtractBatch(part: seq<T>) returns (r: Option<seq<U>>)
      modifies this`attempts, this`failures
      ensures attempts == old(attempts) + 1
      ensures r == if fails(old(attempts), |part|) then None else Some(Mapped(model, part))
      ensures failures == old(failures) + if r == None then 1 else 0
    {
      var failed := fails(attempts, |part|);
      attempts := attempts + 1;
      if failed {
        failures := failures + 1;
        return None;
      }
      r := Some(Mapped(model, part));
    }

    method AllFinite(values: seq<U>) returns (valid: bool)
      ensures valid <==> forall i :: 0 <= i < |values| ==> finite(values[i])
    {
      var i := 0;
      while i < |values|
        invariant i <= |values| && forall j :: 0 <= j < i ==> finite(values[j])
      {
        if !finite(values[i]) {
          return false;
        }
        i := i + 1;
      }
      valid := true;
    }

    /**
      One value per item, in order, whichever attempts run out of memory. The
      batch limit never grows and halves with every failure; only a single item
      that does not fit ends the work.
     */
    method InferBatches(items: seq<T>, batchSize: nat) returns (r: Result<seq<U>, Error>)
      requires Valid() && batchSize >= 1
      modifies this
      ensures Valid() && attempts >= old(attempts) && failures >= old(failures)
      ensures r.Ok? ==> items != [] && r.value == Mapped(model, items)
      ensures r.Ok? ==> forall i :: 0 <= i < |r.value| ==> finite(r.value[i])
      ensures r == Err(NothingToJoin) <==> items == []
      ensures r == Err(OutOfMemory) ==> attempts > old(attempts) && fails(attempts - 1, 1)
      ensures r == Err(InvalidFeatures) ==> exists i :: 0 <= i < |items| && !finite(model(items[i]))
      ensures Limit(batchSize) <= old(Limit(batchSize))
      ensures r != Err(OutOfMemory) ==> Power(failures - old(failures)) * Limit(batchSize) <= old(Limit(batchSize))
    {
      var result, offset := [], 0;
      var limit := Limit(batchSize);
      while offset < |items|
        invariant offset <= |items| && 1 <= limit && limit == Limit(batchSize) && Valid()
        invariant attempts >= old(attempts) && failures >= old(failures)
        invariant result == Mapped(model, items[..offset])
        invariant forall i :: 0 <= i < offset ==> finite(result[i])
        invariant Power(failures - old(failures)) * limit <= old(Limit(batchSize))
        invariant limit <= old(Limit(batchSize))
        decreases |items| - offset, limit
      {
        var part := items[offset..Min(offset + limit, |items|)];
        var value := ExtractBatch(part);
        if value == None {
          if |part| == 1 {
            return Err(OutOfMemory);
          }
          Halved(failures - 1 - old(failures), limit, |part| / 2);
          limit := if |part| / 2 < 1 then 1 else |part| / 2;
          batchLimit := Some(limit);
          continue;
        }
        var valid := AllFinite(value.value);
        if !valid {
          return Err(InvalidFeatures);
        }
        assert items[..offset + |part|] == items[..offset] + part;
        result := result + value.value;
        offset := offset + |part|;
      }
      assert items[..offset] == items;
      if result == [] {
        return Err(NothingToJoin);
      }
      r := Ok(result);
    }
  }

  lemma Halved(n: nat, limit: nat, half: nat)
    requires 2 * half <= limit
    ensures Power(n + 1) * half <= Power(n) * limit
  {
    assert Power(n + 1) * half == Power(n) * (2 * half);
    assert Power(n) * (2 * half) <= Power(n) * limit;
  }

  /** So no more attempts can fail than halving the limit down to one allows. */
  lemma {:induction false} FewFailures(failures: nat, limit: nat)
    requires Power(failures) <= limit
    ensures failures < limit
  {
    if failures > 0 {
      FewFailures(failures - 1, limit / 2);
    }
  }
}
