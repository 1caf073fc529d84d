/** The participant object with its three nested loops, proved to walk the flat machine of `Participation`. */
module ParticipantObject {
  import opened Chain
  import opened Participation

  /** How a loop came back: with its result, with the context's error, with "F3 is disabled",
      or not at all, because the answers given ran out while it was still going. */
  datatype Exit = Done | Cancelled | F3Off | StillRunning

  class Participant {
    const cfg: Config
    const answers: seq<Answer>
    var pos: nat
    var attempt: nat
    var cancelled: bool
    var sleeps: seq<int>
    ghost var machine: State

    constructor (cfg: Config, answers: seq<Answer>)
      ensures this.cfg == cfg && this.answers == answers && pos == 0
      ensures Valid() && Slept() && machine == INIT
    {
      this.cfg, this.answers := cfg, answers;
      pos, attempt, cancelled, sleeps, machine := 0, 0, false, [], INIT;
    }

    /** Every lease wait of the machine was slept, for its duration and in its order. */
    ghost predicate Slept()
      reads this
      requires Valid()
    {
      sleeps == DueAlong(cfg, answers, pos)
    }

    /** The machine has consumed exactly the answers the object has. */
    ghost predicate Valid()
      reads this
    {
      && pos <= |answers|
      && machine == Run(cfg, answers[..pos])
      && (cancelled ==> machine.phase == Ended(Nil))
    }

    /** A loop that returned has left the machine where its caller expects it. */
    ghost predicate CameBack(exit: Exit)
      reads this
    {
      match exit
      case Done => !cancelled ==> !machine.phase.Ended?
      case Cancelled => cancelled
      case F3Off => !cancelled ==> machine.phase == Ended(StoppedUnexpectedly)
      case StillRunning => pos == |answers| && !cancelled && !machine.phase.Ended?
    }

    /** `Backoff.Duration()`. */
    method Duration()
      modifies this`attempt
      ensures attempt == old(attempt) + 1
    {
      attempt := attempt + 1;
    }

    method Reset()
      modifies this`attempt
      ensures attempt == 0
    {
      attempt := 0;
    }

    /** One node call: takes the next answer and lets the machine step on it. */
    method Call() returns (a: Answer)
      requires Valid() && pos < |answers| && !cancelled && !machine.phase.Ended?
      modifies this`pos, this`cancelled, this`machine
      ensures Valid() && pos == old(pos) + 1
      ensures a == answers[old(pos)]
      ensures machine == Step(cfg, old(machine), a)
      ensures cancelled == a.cancelled
      ensures DueAlong(cfg, answers, pos) == DueAlong(cfg, answers, old(pos)) + Due(cfg, old(machine), a)
    {
      a := answers[pos];
      assert answers[..pos + 1][..pos] == answers[..pos];
      pos := pos + 1;
      cancelled := a.cancelled;
      machine := Step(cfg, machine, a);
    }

    /** `F3Participate`: the machine polls, and a lease with a cached manifest leaves a wait to sleep. */
    method Participate() returns (reply: Reply<Lease>)
      requires Valid() && Slept() && pos < |answers| && !cancelled && machine.phase.Poll?
      modifies this`pos, this`cancelled, this`machine
      ensures Valid() && pos == old(pos) + 1
      ensures cancelled || reply.Err? ==> Slept()
      ensures !cancelled ==> machine.ticket == old(machine).ticket
      ensures !cancelled && reply.Err? ==>
                var retry := Retries(cfg, old(machine).attempt, reply.error);
                && machine.manifest == old(machine).manifest
                && if reply.error.Disabled? then machine.phase == Ended(StoppedUnexpectedly)
                   else if retry
                   then machine.phase == Poll && machine.attempt == old(machine).attempt + DURATIONS_PER_FAILURE
                   else machine.phase == Acquire && machine.attempt == 0
      ensures !cancelled && reply.Ok? ==>
                var lease, manifest := reply.value, old(machine).manifest;
                && machine.attempt == 0
                && if lease.validityTerm <= RenewWithin(cfg) then Slept() && machine.phase == Acquire
                   else if manifest.None? || manifest.value.network != lease.network
                   then Slept() && machine.phase == Fetch(lease)
                   else
                     && machine.phase == Poll && machine.manifest == manifest
                     && sleeps + [WaitTime(cfg, lease, manifest.value)] == DueAlong(cfg, answers, pos)
    {
      var a := Call();
      reply := a.lease;
    }

    /** `F3GetManifest`: the lease's own manifest leaves a wait to sleep. */
    method FetchManifest(lease: Lease) returns (reply: Reply<Option<Manifest>>)
      requires Valid() && Slept() && pos < |answers| && !cancelled && machine.phase == Fetch(lease)
      modifies this`pos, this`cancelled, this`machine
      ensures Valid() && pos == old(pos) + 1
      ensures cancelled ==> Slept()
      ensures !cancelled ==> machine.ticket == old(machine).ticket
      ensures !cancelled && reply == Err(Disabled) ==> Slept() && machine.phase == Ended(StoppedUnexpectedly)
      ensures !cancelled && reply != Err(Disabled) && (reply.Err? || reply.value.None?) ==>
                && Slept() && machine.phase == Fetch(lease)
                && machine.attempt == old(machine).attempt + DURATIONS_PER_FAILURE
      ensures !cancelled && reply.Ok? && reply.value.Some? ==>
                && machine.manifest == reply.value
                && if reply.value.value.network != lease.network
                   then Slept() && machine.phase == Acquire && machine.attempt == 0
                   else
                     && machine.phase == Poll && machine.attempt == old(machine).attempt
                     && sleeps + [WaitTime(cfg, lease, reply.value.value)] == DueAlong(cfg, answers, pos)
    {
      var a := Call();
      reply := a.manifest;
    }

    /** Logs a duration and sleeps another one. */
    method LogAndBackOff()
      modifies this`attempt
      ensures attempt == old(attempt) + DURATIONS_PER_FAILURE
    {
      Duration();
      Duration();
    }

    /** Sleeps on a lease unless the context is done. */
    method BackOffFor(d: int)
      modifies this`sleeps
      ensures sleeps == if cancelled then old(sleeps) else old(sleeps) + [d]
    {
      if !cancelled {
        sleeps := sleeps + [d];
      }
    }

    /** The wait that closes a poll, unless the context is done. */
    method WaitToRenew(lease: Lease, renewLeaseWithin: nat, manifest: Manifest)
      requires renewLeaseWithin == RenewWithin(cfg)
      modifies this`sleeps
      ensures sleeps == if cancelled then old(sleeps) else old(sleeps) + [WaitTime(cfg, lease, manifest)]
    {
      var wait := Wrap(Wrap(WrapUnsigned(lease.validityTerm - renewLeaseWithin)) * manifest.catchUpAlignment);
      if wait == 0 {
        wait := HUNDRED_MS;
      }
      BackOffFor(wait);
    }

    method TryGetTicket(previous: F3Ticket) returns (ticket: F3Ticket, exit: Exit)
      requires Valid() && Slept() && !cancelled
      requires machine.phase == Acquire && machine.attempt == 0 && machine.ticket == previous
      modifies this
      ensures Valid() && Slept() && pos >= old(pos) && CameBack(exit)
      ensures exit == Done ==>
                !cancelled && machine.phase == Poll && machine.ticket == ticket
                && machine.attempt == 0 && machine.manifest == None
    {
      Reset();
      ticket := "";
      while !cancelled
        invariant Valid() && Slept() && pos >= old(pos)
        invariant !cancelled ==>
                    machine.phase == Acquire && machine.attempt == attempt && machine.ticket == previous
        decreases |answers| - pos, !cancelled
      {
        if pos == |answers| {
          return "", StillRunning;
        }
        var a := Call();
        if cancelled {
          return "", Cancelled;
        }
        match a.ticket {
          case Err(error) =>
            if error == Disabled {
              return "", F3Off;
            }
            LogAndBackOff();
          case Ok(t) =>
            return t, Done;
        }
      }
      exit := Cancelled;
    }

    method GetManifest(lease: Lease) returns (manifest: Option<Manifest>, exit: Exit)
      requires Valid() && Slept() && !cancelled
      requires machine.phase == Fetch(lease) && machine.attempt == 0
      modifies this
      ensures Valid() && pos >= old(pos) && (exit != Done ==> CameBack(exit))
      ensures if exit == Done && !cancelled && manifest.Some? && manifest.value.network == lease.network
              then sleeps + [WaitTime(cfg, lease, manifest.value)] == DueAlong(cfg, answers, pos)
              else Slept()
      ensures exit != StillRunning ==> pos > old(pos)
      ensures exit == Done ==> manifest.Some?
      ensures exit == Done && !cancelled ==>
                && machine.manifest == manifest
                && machine.ticket == old(machine).ticket
                && (if manifest.value.network == lease.network
                    then machine.phase == Poll && machine.attempt == attempt
                    else machine.phase == Acquire && machine.attempt == 0)
    {
      Reset();
      manifest := None;
      while !cancelled
        invariant Valid() && Slept() && pos >= old(pos)
        invariant cancelled ==> pos > old(pos)
        invariant !cancelled ==>
                    machine.phase == Fetch(lease) && machine.attempt == attempt && machine.ticket == old(machine).ticket
        decreases |answers| - pos, !cancelled
      {
        if pos == |answers| {
          return None, StillRunning;
        }
        var reply := FetchManifest(lease);
        match reply {
          case Err(error) =>
            if error == Disabled {
              return None, F3Off;
            }
            LogAndBackOff();
          case Ok(m) =>
            if m.Some? {
              return m, Done;
            }
            LogAndBackOff();
        }
      }
      exit := Cancelled;
    }

    /** What a failed poll leads to: out of the loop, or, for `None`, to the next poll. */
    method OnError(error: NodeError) returns (leave: Option<Exit>)
      requires Valid() && !cancelled
      requires if error.Disabled? then machine.phase == Ended(StoppedUnexpectedly)
               else if Retries(cfg, attempt, error)
               then machine.phase == Poll && machine.attempt == attempt + DURATIONS_PER_FAILURE
               else machine.phase == Acquire && machine.attempt == 0
      modifies this`attempt
      ensures leave in {None, Some(Done), Some(F3Off)}
      ensures leave == Some(F3Off) ==> machine.phase == Ended(StoppedUnexpectedly)
      ensures leave == Some(Done) ==> machine.phase == Acquire && machine.attempt == 0
      ensures leave == None ==> machine.phase == Poll && machine.attempt == attempt
    {
      match error {
        case Disabled => return Some(F3Off);
        case TicketExpired => return Some(Done);
        case StartBeforeExisting => return Some(Done);
        case TicketInvalid =>
          LogAndBackOff();
          return Some(Done);
        case IssuerMismatch => LogAndBackOff();
        case NotReady => LogAndBackOff();
        case Unexpected =>
          if attempt > cfg.maxAttempts {
            return Some(Done);
          }
          LogAndBackOff();
      }
      leave := None;
    }

    /** A lease worth waiting for: fetches its manifest if the cached one is not of its network. */
    method OnLease(lease: Lease, cached: Option<Manifest>, renewLeaseWithin: nat)
      returns (manifest: Option<Manifest>, leave: Option<Exit>)
      requires Valid() && !cancelled && attempt == machine.attempt == 0
      requires lease.validityTerm > renewLeaseWithin == RenewWithin(cfg)
      requires if cached.None? || cached.value.network != lease.network
               then Slept() && machine.phase == Fetch(lease)
               else
                 && machine.phase == Poll && machine.manifest == cached
                 && sleeps + [WaitTime(cfg, lease, cached.value)] == DueAlong(cfg, answers, pos)
      modifies this
      ensures Valid() && Slept() && pos >= old(pos)
      ensures leave.Some? ==> CameBack(leave.value)
      ensures leave.None? && cancelled ==> pos > old(pos)
      ensures leave.Some? && leave != Some(StillRunning) ==> pos > old(pos)
      ensures leave == Some(Done) && !cancelled ==>
                machine.phase == Acquire && machine.attempt == 0 && machine.ticket == old(machine).ticket
      ensures leave == None && !cancelled ==>
                && machine.phase == Poll && machine.attempt == attempt
                && machine.manifest == manifest && machine.ticket == old(machine).ticket
    {
      manifest, leave := cached, None;
      if manifest.None? || lease.network != manifest.value.network {
        var fetched;
        manifest, fetched := GetManifest(lease);
        if fetched != Done {
          leave := Some(fetched);
          return;
        }
        if manifest.value.network != lease.network {
          leave := Some(Done);
          return;
        }
      }
      WaitToRenew(lease, renewLeaseWithin, manifest.value);
    }

    method TryParticipate(ticket: F3Ticket) returns (exit: Exit)
      requires Valid() && Slept() && !cancelled
      requires machine.phase == Poll && machine.ticket == ticket && machine.attempt == 0 && machine.manifest == None
      modifies this
      ensures Valid() && Slept() && (exit != StillRunning ==> pos > old(pos)) && CameBack(exit)
      ensures exit == Done && !cancelled ==>
                machine.phase == Acquire && machine.ticket == ticket && machine.attempt == 0
    {
      Reset();
      var renewLeaseWithin := cfg.leaseTerm / 2;
      var manifest: Option<Manifest> := None;
      while !cancelled
        invariant Valid() && Slept() && pos >= old(pos)
        invariant cancelled ==> pos > old(pos)
        invariant !cancelled ==>
                    && machine.phase == Poll && machine.attempt == attempt
                    && machine.ticket == ticket && machine.manifest == manifest
        decreases |answers| - pos, !cancelled
      {
        if pos == |answers| {
          return StillRunning;
        }
        var reply := Participate();
        if cancelled {
          return Cancelled;
        }
        var leave;
        match reply {
          case Err(error) =>
            leave := OnError(error);
          case Ok(lease) =>
            if lease.validityTerm <= renewLeaseWithin {
              return Done;
            }
            Reset();
            manifest, leave := OnLease(lease, manifest, renewLeaseWithin);
        }
        if leave.Some? {
          return leave.value;
        }
      }
      exit := Cancelled;
    }

    /** Whatever is answered, the object's loops end as the machine does, having slept its lease waits. */
    method RunLoop() returns (exit: Exit, result: Result)
      requires Valid() && Slept() && machine == INIT && !cancelled
      modifies this
      ensures Valid() && sleeps == Sleeps(Run(cfg, answers[..pos]).calls)
      ensures exit == StillRunning <==> !Run(cfg, answers[..pos]).phase.Ended?
      ensures exit == StillRunning ==> pos == |answers|
      ensures exit != StillRunning ==> Run(cfg, answers[..pos]).phase == Ended(result)
    {
      var ticket := "";
      while !cancelled
        invariant Valid() && Slept()
        invariant !cancelled ==> machine.phase == Acquire && machine.attempt == 0 && machine.ticket == ticket
        decreases |answers| - pos, !cancelled
      {
        ticket, exit := TryGetTicket(ticket);
        if exit != Done {
          DueIsLogged(cfg, answers, pos);
          result := if cancelled then Nil else StoppedUnexpectedly;
          return;
        }
        exit := TryParticipate(ticket);
        if exit != Done {
          DueIsLogged(cfg, answers, pos);
          result := if cancelled then Nil else StoppedUnexpectedly;
          return;
        }
      }
      DueIsLogged(cfg, answers, pos);
      exit, result := Cancelled, Nil;
    }
  }
}
