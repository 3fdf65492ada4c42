/**
  The parent's side of one phase request: `gpu_control` and the bookkeeping it
  shares with the release at the end of the task.
 */
module PhaseControl {
  import opened Wrappers

  /** A request is made for a phase and a batch size; together they name an owner. */
  datatype Owner = Owner(phase: nat, size: nat)

  datatype Action =
    | Acquire(owner: Owner)
    | Release(phase: nat, oom: bool)
    | Failed(phase: nat, oom: bool)

  /** What the admission transaction does. `Broken` may or may not have committed a lease first. */
  datatype Admission = Granted(heartbeat: bool) | Refused | Broken(committed: bool)

  /** Everything one call finds out from outside. */
  datatype Circumstance = Circumstance(
    known: bool, valid: bool, stopping: bool, running: bool, admission: Admission,
    oomRecorded: bool, released: bool, releaseRaised: bool)

  /** `leases` are the leases the task holds in the database; `phase` is what the running table shows. */
  datatype Book = Book(lease: Option<Owner>, phase: Option<nat>, owners: set<Owner>, leases: set<Owner>)

  datatype Error = InvalidRequest | LeaseMismatch | OwnerUnavailable | Cancelled | Unavailable

  function Leave(b: Book, phase: nat, oom: bool, c: Circumstance, release: bool): (Book, Result<bool, Error>) {
    if b.lease == None || !c.known || b.phase != Some(phase) then (b, Err(LeaseMismatch))
    else if oom && !c.oomRecorded then (b, Err(Unavailable))
    else if !release then (b, Ok(true))
    else
      var leases := if c.released || !c.releaseRaised then b.leases - {b.lease.value} else b.leases;
      if c.releaseRaised then (b.(leases := leases), Err(Unavailable))
      else (b.(lease := None, phase := None, leases := leases), Ok(true))
  }

  function Enter(b: Book, owner: Owner, c: Circumstance): (Book, Result<bool, Error>) {
    if b.lease.Some? || c.stopping || !c.known then (b, Err(OwnerUnavailable))
    else if !c.running then (b, Err(Cancelled))
    else
      var asked := b.(owners := b.owners + {owner});
      match c.admission
      case Refused => (asked, Ok(false))
      case Broken(committed) => (if committed then asked.(leases := asked.leases + {owner}) else asked, Err(Unavailable))
      case Granted(heartbeat) =>
        var granted := asked.(lease := Some(owner), phase := Some(owner.phase), leases := asked.leases + {owner});
        (granted, if heartbeat then Ok(true) else Err(Unavailable))
  }

  function Control(b: Book, action: Action, c: Circumstance): (Book, Result<bool, Error>) {
    if !c.valid then (b, Err(InvalidRequest))
    else
      match action
      case Acquire(owner) => Enter(b, owner, c)
      case Release(phase, oom) => Leave(b, phase, oom, c, true)
      case Failed(phase, oom) => Leave(b, phase, oom, c, false)
  }

  function Cleaned(b: Book): Book {
    b.(lease := None, phase := None, leases := b.leases - b.owners)
  }

  /** The last block of the task: its own lease, then whatever its phases asked for. */
  function Ended(b: Book): Book {
    b.(leases := (if b.lease.Some? then b.leases - {b.lease.value} else b.leases) - b.owners)
  }

  /** Every lease was asked for under an owner the task remembers. */
  predicate Accounted(b: Book) {
    b.leases <= b.owners && (b.lease.Some? ==> b.lease.value in b.owners && b.phase == Some(b.lease.value.phase))
  }

  lemma ControlKeepsAccount(b: Book, action: Action, c: Circumstance)
    requires Accounted(b)
    ensures Accounted(Control(b, action, c).0)
  {
  }

  /** A lease the task relies on is given up only when the worker says it is done with that phase. */
  lemma OnlyReleaseGivesUp(b: Book, action: Action, c: Circumstance)
    requires Accounted(b) && b.lease.Some? && b.lease.value in b.leases
    ensures var (after, _) := Control(b, action, c);
            (after.lease == b.lease && b.lease.value in after.leases) || action.Release?
  {
  }

  lemma NothingLeft(b: Book)
    requires Accounted(b)
    ensures Ended(b).leases == {} && Cleaned(b).leases == {} && Ended(Cleaned(b)).leases == {}
  {
  }

  // ------------------------------------------------- what each answer amounts to

  /** The phase named is the one the task holds its lease for. */
  predicate IsCurrent(b: Book, phase: nat) { b.lease.Some? && b.phase == Some(phase) }

  /** A release that is answered without error has given the lease back, and nothing else. */
  lemma ReleaseGivesBack(b: Book, phase: nat, oom: bool, c: Circumstance)
    ensures var (after, r) := Control(b, Release(phase, oom), c);
            && (r.Ok? <==> c.valid && c.known && IsCurrent(b, phase) && (oom ==> c.oomRecorded) && !c.releaseRaised)
            && (r.Ok? ==> r.value && after == Book(None, None, b.owners, b.leases - {b.lease.value}))
            && (r.Err? ==> after.lease == b.lease && after.phase == b.phase && after.owners == b.owners)
            && (r.Err? && after.leases != b.leases ==>
                  c.releaseRaised && c.released && b.lease.Some? && after.leases == b.leases - {b.lease.value})
  {
  }

  /** A failure report keeps the lease for as long as the worker's processes may use it. */
  lemma FailureKeepsLease(b: Book, phase: nat, oom: bool, c: Circumstance)
    ensures var (after, r) := Control(b, Failed(phase, oom), c);
            && after == b && r != Ok(false)
            && (r.Ok? <==> c.valid && c.known && IsCurrent(b, phase) && (oom ==> c.oomRecorded))
  {
  }

  /** A lease is granted to a task that runs, holds none and is not being stopped, and then it is on the books. */
  lemma GrantIsBooked(b: Book, owner: Owner, c: Circumstance)
    ensures var (after, r) := Control(b, Acquire(owner), c);
            && (r.Ok? <==> c.valid && c.known && !c.stopping && c.running && b.lease == None
                           && (c.admission == Refused || c.admission == Granted(true)))
            && (r == Ok(true) ==> c.admission == Granted(true) && after.lease == Some(owner) && owner in after.leases)
            && (r == Ok(true) ==> after.phase == Some(owner.phase) && owner in after.owners)
            && (r == Ok(false) ==> c.admission == Refused && after.lease == None && after.leases == b.leases)
            && b.owners <= after.owners <= b.owners + {owner} && b.leases <= after.leases <= b.leases + {owner}
            && (owner in after.leases && owner !in b.leases ==> owner in after.owners)
            && (r == Err(Unavailable) && c.admission.Broken? ==>
                  after.lease == None && (owner in after.leases <==> owner in b.leases || c.admission.committed))
  {
  }

  /** So one phase after another gets its lease, and none is left between them. */
  lemma PhasesFollowEachOther(b: Book, first: Owner, second: Owner, oom: bool, c: Circumstance)
    requires b.lease == None && first !in b.leases && second !in b.leases
    requires c.valid && c.known && !c.stopping && c.running && c.admission == Granted(true)
    requires (oom ==> c.oomRecorded) && !c.releaseRaised
    ensures var (held, granted) := Control(b, Acquire(first), c);
            var (free, released) := Control(held, Release(first.phase, oom), c);
            var (again, next) := Control(free, Acquire(second), c);
            && granted == Ok(true) && released == Ok(true) && next == Ok(true)
            && free.leases == b.leases && again.leases == b.leases + {second} && again.lease == Some(second)
  {
  }

  class PhaseController {
    var lease: Option<Owner>
    var phase: Option<nat>
    var owners: set<Owner>
    var leases: set<Owner>

    ghost function View(): Book
      reads this
    {
      Book(lease, phase, owners, leases)
    }

    ghost predicate Valid()
      reads this
    {
      Accounted(View())
    }

    constructor ()
      ensures Valid() && View() == Book(None, None, {}, {})
    {
      lease, phase, owners, leases := None, None, {}, {};
    }

    method GpuControl(action: Action, c: Circumstance) returns (r: Result<bool, Error>)
      requires Valid()
      modifies this
      ensures Valid() && (View(), r) == Control(old(View()), action, c)
    {
      ControlKeepsAccount(View(), action, c);
      if !c.valid {
        return Err(InvalidRequest);
      }
      if action.Release? || action.Failed? {
        if lease == None || !c.known || phase != Some(action.phase) {
          return Err(LeaseMismatch);
        }
        if action.oom && !c.oomRecorded {
          return Err(Unavailable);
        }
        if action.Release? {
          if c.released || !c.releaseRaised {
            leases := leases - {lease.value};
          }
          if c.releaseRaised {
            return Err(Unavailable);
          }
          lease, phase := None, None;
        }
        return Ok(true);
      }
      if lease.Some? || c.stopping || !c.known {
        return Err(OwnerUnavailable);
      }
      if !c.running {
        return Err(Cancelled);
      }
      var owner := action.owner;
      owners := owners + {owner};
      if c.admission == Refused {
        return Ok(false);
      }
      if c.admission.Broken? {
        if c.admission.committed {
          leases := leases + {owner};
        }
        return Err(Unavailable);
      }
      lease, phase, leases := Some(owner), Some(owner.phase), leases + {owner};
      r := if c.admission.heartbeat then Ok(true) else Err(Unavailable);
    }

    method Cleanup()
      requires Valid()
      modifies this
      ensures Valid() && View() == Cleaned(old(View())) && leases == {}
    {
      leases := leases - owners;
      lease, phase := None, None;
    }

    method EndTask()
      requires Valid()
      modifies this`leases
      ensures Valid() && View() == Ended(old(View())) && leases == {}
    {
      if lease.Some? {
        leases := leases - {lease.value};
      }
      leases := leases - owners;
    }
  }
}
