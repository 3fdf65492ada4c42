/**
  The lease table as the processes change it: `request_lease` with its passes
  over the rows, heartbeats, releases and out-of-memory reports.
 */
module LeaseTable {
  import opened Wrappers
  import opened Admission
  import opened AdmissionLaws

  lemma {:induction false} OldestUnmeasured(rows: seq<Row>, k: nat, w: World, n: nat)
    requires k < |rows| && n <= |rows| && w.sample.Some?
    ensures OldestEncoder(Measure(rows, k, w), k, n) == OldestEncoder(rows, k, n)
  {
    if n > 0 {
      OldestUnmeasured(rows, k, w, n - 1);
    }
  }

  /** Measuring the running leases changes neither who waits nor what the earmark is. */
  lemma EarmarkUnmeasured(rows: seq<Row>, k: nat, q: Request, w: World)
    requires k < |rows| && w.sample.Some?
    ensures Earmark(Measure(rows, k, w), k, q) == Earmark(rows, k, q)
  {
    var measured := Measure(rows, k, w);
    OldestUnmeasured(rows, k, w, |rows|);
    forall i | 0 <= i < |rows|
      ensures Competes(measured, k, i) && measured[i].mode == Shared && measured[i].workload == Some(Compression) <==>
              Competes(rows, k, i) && rows[i].mode == Shared && rows[i].workload == Some(Compression)
    {
    }
    assert EncoderActive(measured, k) == EncoderActive(rows, k);
  }

  /** Row `i` alone keeps the shared row `k` out. */
  predicate Blocks(rows: seq<Row>, k: nat, i: nat)
    requires k < |rows| && i < |rows|
  {
    || (Competes(rows, k, i) && (rows[i].status == Conflict || rows[i].mode != Shared))
    || (Ahead(rows, k, i) && rows[i].mode != Shared)
  }

  class LeaseTable {
    var rows: seq<Row>
    /** Leases granted and not released since. */
    ghost var held: set<nat>

    ghost function View(): Table
      reads this
    {
      Table(rows, held)
    }

    ghost predicate Valid()
      reads this
    {
      Inv(View())
    }

    constructor ()
      ensures Valid() && View() == Table([], {})
    {
      rows, held := [], {};
    }

    method SweepDevice(device: nat, w: World)
      modifies this`rows
      ensures rows == Sweep(old(rows), device, w)
    {
      var i := 0;
      while i < |rows|
        invariant i <= |rows| == |old(rows)|
        invariant forall j :: 0 <= j < i ==> rows[j] == Swept(old(rows)[j], device, w)
        invariant forall j :: i <= j < |rows| ==> rows[j] == old(rows)[j]
      {
        var row := rows[i];
        if row.device == device && row.status != Released {
          if row.status == Waiting && w.now - row.heartbeat > EXPIRY {
            row := row.(status := Released);
          } else {
            var identity := w.processes(row.pid);
            if identity == Unknown {
              row := row.(status := Conflict);
            } else if identity != Alive(row.identity) {
              row := row.(status := Released);
            }
          }
        }
        rows := rows[i := row];
        i := i + 1;
      }
    }

    method Locate(owner: nat) returns (k: Option<nat>)
      ensures k.Some? <==> Owned(rows, owner)
      ensures k.Some? ==> k.value == Find(rows, owner)
    {
      var i := 0;
      while i < |rows|
        invariant i <= |rows|
        invariant forall j :: 0 <= j < i ==> rows[j].owner != owner
      {
        if rows[i].owner == owner {
          return Some(i);
        }
        i := i + 1;
      }
      k := None;
    }

    /** Finds, revives or adds the caller's row; the caller undoes this when the request is refused. */
    method EnterRow(q: Request, w: World) returns (r: Result<nat, Error>)
      modifies this`rows
      ensures match Enter(old(rows), q, w)
              case Err(error) => r == Err(error)
              case Ok((entered, k)) => r == Ok(k) && rows == entered
    {
      SweepDevice(q.device, w);
      var found := Locate(q.owner);
      var k: nat;
      if found.Some? {
        k := found.value;
        if rows[k].status == Released {
          rows := rows[k := rows[k].(status := Waiting, created := w.now, pid := q.pid, identity := q.identity)];
        }
      } else {
        k := |rows|;
        rows := rows + [NewRow(q, w.now)];
      }
      ghost var swept := Sweep(old(rows), q.device, w);
      assert rows == if found.Some? then swept[k := Entered(swept[k], q, w.now)] else swept + [NewRow(q, w.now)];
      if rows[k].device != q.device {
        return Err(DeviceChanged);
      }
      if rows[k].mode != q.mode {
        return Err(RequestChanged);
      }
      if q.mode == Shared {
        if q.budget <= 0 || q.reserve <= 0 {
          return Err(InvalidBudget);
        }
        rows := rows[k := Budgeted(rows[k], q)];
      }
      r := Ok(k);
    }

    method MayRun(k: nat, q: Request) returns (eligible: bool)
      requires k < |rows|
      ensures eligible == Eligible(rows, k, q)
    {
      var i, same, blocked := 0, 0, false;
      while i < |rows|
        invariant i <= |rows| && same == SameType(rows, k, i, q.workload)
        invariant blocked <==> exists j :: 0 <= j < i && Blocks(rows, k, j)
      {
        assert Blocks(rows, k, i) ==> exists j :: 0 <= j < i + 1 && Blocks(rows, k, j);
        if Competes(rows, k, i) {
          if WorkloadOf(rows[i]) == q.workload {
            same := same + 1;
          }
          blocked := blocked || rows[i].status == Conflict || rows[i].mode != Shared;
        }
        blocked := blocked || (Ahead(rows, k, i) && rows[i].mode != Shared);
        i := i + 1;
      }
      assert forall j :: 0 <= j < |rows| && (Competes(rows, k, j) || Ahead(rows, k, j)) && !blocked ==> !Blocks(rows, k, j);
      eligible := !blocked && same < Limit(q);
    }

    method MayRunAlone(k: nat) returns (alone: bool)
      requires k < |rows|
      ensures alone <==> forall i :: 0 <= i < |rows| ==> !Competes(rows, k, i) && !Ahead(rows, k, i)
    {
      var i := 0;
      while i < |rows|
        invariant i <= |rows|
        invariant forall j :: 0 <= j < i ==> !Competes(rows, k, j) && !Ahead(rows, k, j)
      {
        if Competes(rows, k, i) || Ahead(rows, k, i) {
          return false;
        }
        i := i + 1;
      }
      alone := true;
    }

    /** Notes what the running leases use, raises exceeded budgets and adds up what they may still claim. */
    method MeasureActive(k: nat, w: World) returns (pending: nat)
      requires k < |rows| && w.sample.Some?
      modifies this`rows
      ensures rows == Measure(old(rows), k, w)
      ensures pending == Pending(old(rows), k, w, |old(rows)|)
    {
      pending := 0;
      var i := 0;
      while i < |rows|
        invariant i <= |rows| == |old(rows)|
        invariant pending == Pending(old(rows), k, w, i)
        invariant rows[k] == old(rows)[k]
        invariant forall j :: 0 <= j < i ==>
          rows[j] == if Competes(old(rows), k, j) then Measured(old(rows)[j], w) else old(rows)[j]
        invariant forall j :: i <= j < |rows| ==> rows[j] == old(rows)[j]
      {
        if Competes(rows, k, i) {
          var row := rows[i];
          var observed := Observed(row.children, w.processes, w.sample.value.memory);
          row := row.(peak := Max(row.peak, observed));
          if observed > Budget(row) {
            row := row.(budget := Some(observed * 11 / 10 + 1));
          }
          pending := pending + Max(0, Budget(row) - observed);
          rows := rows[i := row];
        }
        i := i + 1;
      }
    }

    /** Room to keep for the oldest encoder waiting ahead of row `k`. */
    method EarmarkFor(k: nat, q: Request) returns (room: nat)
      requires k < |rows|
      ensures room == Earmark(rows, k, q)
    {
      var i, oldest: Option<nat>, active := 0, None, false;
      while i < |rows|
        invariant i <= |rows| && oldest == OldestEncoder(rows, k, i)
        invariant active <==> exists j :: 0 <= j < i && Competes(rows, k, j) && rows[j].mode == Shared
                                          && rows[j].workload == Some(Compression)
      {
        if EncoderAhead(rows, k, i) && (oldest == None || Before(rows[i], rows[oldest.value])) {
          oldest := Some(i);
        }
        active := active || (Competes(rows, k, i) && rows[i].mode == Shared && rows[i].workload == Some(Compression));
        i := i + 1;
      }
      room := if q.workload != Compression && oldest.Some? && !active then Budget(rows[oldest.value]) else 0;
    }

    method Decide(k: nat, q: Request, w: World) returns (admitted: bool)
      requires k < |rows| && rows[k].status == Waiting && rows[k].mode == q.mode
      modifies this`rows
      ensures admitted == Admits(old(rows), k, q, w)
      ensures rows == if Measures(old(rows), k, q, w) then Measure(old(rows), k, w) else old(rows)
    {
      if q.mode != Shared {
        admitted := MayRunAlone(k);
        return;
      }
      admitted := MayRun(k, q);
      if admitted && q.checkMemory {
        if w.sample == None {
          return false;
        }
        var pending := MeasureActive(k, w);
        var room := EarmarkFor(k, q);
        EarmarkUnmeasured(old(rows), k, q, w);
        admitted := w.sample.value.available - pending - room >= Budget(rows[k]) + q.reserve;
      }
    }

    method RequestLease(q: Request, w: World) returns (r: Result<Option<nat>, Error>)
      requires Valid() && FreshId(View(), Ask(q, w))
      modifies this
      ensures Valid() && View() == Apply(old(View()), Ask(q, w))
      ensures match Requested(old(rows), q, w)
              case Err(error) => r == Err(error)
              case Ok((_, granted)) => r == Ok(granted)
    {
      AskKeepsInv(View(), Ask(q, w));
      var before := rows;
      var entered := EnterRow(q, w);
      if entered.Err? {
        rows := before;
        return Err(entered.error);
      }
      var k := entered.value;
      EnterShape(before, q, w);
      var admitted := rows[k].status == Active;
      if rows[k].status == Waiting {
        admitted := Decide(k, q, w);
      }
      rows := rows[k := rows[k].(heartbeat := w.now, status := if admitted then Active else rows[k].status)];
      held := StillHeld(rows, if admitted then held + {rows[k].id} else held);
      r := Ok(if admitted then Some(rows[k].id) else None);
    }

    /** Any of the operations that change rows one by one. */
    method Change(op: Operation)
      requires Valid() && !op.Ask?
      modifies this
      ensures Valid() && View() == Apply(old(View()), op)
    {
      OtherKeepsInv(View(), op);
      var i := 0;
      while i < |rows|
        invariant i <= |rows| == |old(rows)| && held == old(held)
        invariant forall j :: 0 <= j < i ==> rows[j] == Changed(old(rows)[j], op)
        invariant forall j :: i <= j < |rows| ==> rows[j] == old(rows)[j]
      {
        rows := rows[i := Changed(rows[i], op)];
        i := i + 1;
      }
      assert rows == After(old(rows), op);
      held := StillHeld(rows, held);
    }
  }
}
