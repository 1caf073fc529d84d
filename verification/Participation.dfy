/** F3 participation: acquiring a ticket, polling for leases and fetching the manifest share one backoff
    counter. Here the three loops are one flat machine over the node's answers. */
module Participation {
  import opened Chain

  type F3Ticket = string
  type Network = string

  /** A failed call, by the first error text the code matches. */
  datatype NodeError =
    | Disabled
    | TicketExpired
    | StartBeforeExisting
    | TicketInvalid
    | IssuerMismatch
    | NotReady
    | Unexpected

  datatype Reply<+T> = Ok(value: T) | Err(error: NodeError)

  datatype Lease = Lease(network: Network, validityTerm: nat)

  /** `catchUpAlignment` is a duration in nanoseconds. */
  datatype Manifest = Manifest(network: Network, catchUpAlignment: int)

  /** What the node answers to whichever call comes next, and whether the context is cancelled before
      the loops look at it again. A nil manifest is `Ok(None)`. */
  datatype Answer = Answer(
    ticket: Reply<F3Ticket>, lease: Reply<Lease>, manifest: Reply<Option<Manifest>>, cancelled: bool)

  datatype Config = Config(maxAttempts: int, leaseTerm: nat)

  datatype Result = Nil | StoppedUnexpectedly

  datatype Phase = Acquire | Poll | Fetch(lease: Lease) | Ended(result: Result)

  /** One thing done: a node call with its outcome, or a wait for a lease. */
  datatype Call =
    | Asked(previous: F3Ticket, got: Option<F3Ticket>)
    | Participated(used: F3Ticket, reply: Reply<Lease>, retried: bool)
    | AskedManifest(answer: Reply<Option<Manifest>>)
    | Waited(lease: Lease, manifest: Manifest, wait: int)

  /** `attempt` is the backoff counter; `ticket` the one last acquired. */
  datatype State = State(
    phase: Phase, ticket: F3Ticket, attempt: nat, manifest: Option<Manifest>, calls: seq<Call>)

  const INIT := State(Acquire, "", 0, None, [])

  /** Every failed call that is retried draws two backoff durations: the one logged and the one slept. */
  const DURATIONS_PER_FAILURE: nat := 2

  const HUNDRED_MS := 100_000_000

  function RenewWithin(cfg: Config): nat {
    cfg.leaseTerm / 2
  }

  /** An int64 product or conversion. */
  function Wrap(x: int): int {
    (x + 0x8000_0000_0000_0000) % 0x1_0000_0000_0000_0000 - 0x8000_0000_0000_0000
  }

  /** A uint64 difference. */
  function WrapUnsigned(x: int): nat {
    x % 0x1_0000_0000_0000_0000
  }

  function WaitTime(cfg: Config, lease: Lease, m: Manifest): int {
    var wait := Wrap(Wrap(WrapUnsigned(lease.validityTerm - RenewWithin(cfg))) * m.catchUpAlignment);
    if wait == 0 then HUNDRED_MS else wait
  }

  function Did(s: State, c: Call): State {
    s.(calls := s.calls + [c])
  }

  function BackOff(s: State): State {
    s.(attempt := s.attempt + DURATIONS_PER_FAILURE)
  }

  /** Back to acquiring a ticket: its loop resets the counter. */
  function Renew(s: State): State {
    s.(phase := Acquire, attempt := 0)
  }

  function SleepOnLease(cfg: Config, s: State, lease: Lease): State
    requires s.manifest.Some?
  {
    Did(s, Waited(lease, s.manifest.value, WaitTime(cfg, lease, s.manifest.value))).(phase := Poll)
  }

  function StepAcquire(s: State, reply: Reply<F3Ticket>): State {
    match reply
    case Ok(t) => State(Poll, t, 0, None, s.calls + [Asked(s.ticket, Some(t))])
    case Err(Disabled) => Did(s, Asked(s.ticket, None)).(phase := Ended(StoppedUnexpectedly))
    case Err(_) => BackOff(Did(s, Asked(s.ticket, None)))
  }

  /** The failed poll is repeated with the same ticket. */
  predicate Retries(cfg: Config, attempt: nat, error: NodeError) {
    error.IssuerMismatch? || error.NotReady? || (error.Unexpected? && attempt <= cfg.maxAttempts)
  }

  function StepPoll(cfg: Config, s: State, reply: Reply<Lease>): State {
    match reply
    case Ok(lease) =>
      var polled := Did(s, Participated(s.ticket, reply, false));
      if lease.validityTerm <= RenewWithin(cfg) then Renew(polled)
      else if s.manifest.None? || s.manifest.value.network != lease.network
      then polled.(phase := Fetch(lease), attempt := 0)
      else SleepOnLease(cfg, polled.(attempt := 0), lease)
    case Err(error) =>
      var retry := Retries(cfg, s.attempt, error);
      var polled := Did(s, Participated(s.ticket, reply, retry));
      if error.Disabled? then polled.(phase := Ended(StoppedUnexpectedly))
      else if retry then BackOff(polled)
      else Renew(polled)
  }

  function StepFetch(cfg: Config, s: State, lease: Lease, reply: Reply<Option<Manifest>>): State {
    match reply
    case Ok(Some(m)) =>
      var got := Did(s, AskedManifest(reply)).(manifest := Some(m));
      if m.network != lease.network then Renew(got) else SleepOnLease(cfg, got, lease)
    case Err(Disabled) => Did(s, AskedManifest(reply)).(phase := Ended(StoppedUnexpectedly))
    case _ => BackOff(Did(s, AskedManifest(reply)))
  }

  function Upto(calls: seq<Call>, n: nat): seq<Call> {
    if n <= |calls| then calls[..n] else calls
  }

  /** One answer while the context lives. */
  function StepLive(cfg: Config, s: State, a: Answer): State {
    match s.phase
    case Acquire => StepAcquire(s, a.ticket)
    case Poll => StepPoll(cfg, s, a.lease)
    case Fetch(lease) => StepFetch(cfg, s, lease, a.manifest)
    case Ended(_) => s
  }

  /** One answer. A cancelled context ends every loop before any wait, and `run` then reports nil
      whatever was answered. */
  function Step(cfg: Config, s: State, a: Answer): State {
    var s' := StepLive(cfg, s, a);
    if s.phase.Ended? || !a.cancelled then s'
    else s'.(phase := Ended(Nil), calls := Upto(s'.calls, |s.calls| + 1))
  }

  function Run(cfg: Config, answers: seq<Answer>): State {
    if answers == [] then INIT
    else Step(cfg, Run(cfg, answers[..|answers| - 1]), answers[|answers| - 1])
  }

  // ---- How a run ends ----

  /** The call that state `s` makes is answered "F3 is disabled". */
  predicate ReportsDisabled(s: State, a: Answer) {
    match s.phase
    case Acquire => a.ticket == Err(Disabled)
    case Poll => a.lease == Err(Disabled)
    case Fetch(_) => a.manifest == Err(Disabled)
    case Ended(_) => false
  }

  /** The run is still on before answer `i`, which ends it. */
  predicate StopsAt(cfg: Config, answers: seq<Answer>, i: nat)
    requires i < |answers|
  {
    var s := Run(cfg, answers[..i]);
    !s.phase.Ended? && (answers[i].cancelled || ReportsDisabled(s, answers[i]))
  }

  lemma StepOutcome(cfg: Config, s: State, a: Answer)
    requires !s.phase.Ended?
    ensures Step(cfg, s, a).phase.Ended? <==> a.cancelled || ReportsDisabled(s, a)
    ensures Step(cfg, s, a).phase.Ended? ==>
              Step(cfg, s, a).phase == Ended(if a.cancelled then Nil else StoppedUnexpectedly)
  {
  }

  lemma {:induction false} EndedStays(cfg: Config, answers: seq<Answer>, i: nat)
    requires i <= |answers| && Run(cfg, answers[..i]).phase.Ended?
    ensures Run(cfg, answers) == Run(cfg, answers[..i])
    decreases |answers|
  {
    if i < |answers| {
      assert answers[..|answers| - 1][..i] == answers[..i];
      EndedStays(cfg, answers[..|answers| - 1], i);
    } else {
      assert answers[..i] == answers;
    }
  }

  lemma {:induction false} EndedHasCause(cfg: Config, answers: seq<Answer>) returns (i: nat)
    requires Run(cfg, answers).phase.Ended?
    ensures i < |answers| && StopsAt(cfg, answers, i)
    decreases |answers|
  {
    var n := |answers| - 1;
    if Run(cfg, answers[..n]).phase.Ended? {
      i := EndedHasCause(cfg, answers[..n]);
      assert answers[..n][..i] == answers[..i] && answers[..n][i] == answers[i];
    } else {
      i := n;
      StepOutcome(cfg, Run(cfg, answers[..n]), answers[n]);
    }
  }

  lemma StopEnds(cfg: Config, answers: seq<Answer>, i: nat)
    requires i < |answers| && StopsAt(cfg, answers, i)
    ensures Run(cfg, answers).phase == Ended(if answers[i].cancelled then Nil else StoppedUnexpectedly)
  {
    StepOutcome(cfg, Run(cfg, answers[..i]), answers[i]);
    assert answers[..i + 1][..i] == answers[..i];
    EndedStays(cfg, answers, i + 1);
  }

  /** Over every sequence of answers, `run` has ended exactly when the context was cancelled or the
      node reported F3 disabled, with nil if and only if that answer found the context cancelled. */
  lemma {:induction false} RunOutcome(cfg: Config, answers: seq<Answer>)
    ensures Run(cfg, answers).phase.Ended? <==> exists i | 0 <= i < |answers| :: StopsAt(cfg, answers, i)
    ensures forall i | 0 <= i < |answers| && StopsAt(cfg, answers, i) ::
              Run(cfg, answers).phase == Ended(if answers[i].cancelled then Nil else StoppedUnexpectedly)
  {
    if Run(cfg, answers).phase.Ended? {
      var i := EndedHasCause(cfg, answers);
    }
    forall i | 0 <= i < |answers| && StopsAt(cfg, answers, i)
      ensures Run(cfg, answers).phase == Ended(if answers[i].cancelled then Nil else StoppedUnexpectedly)
    {
      StopEnds(cfg, answers, i);
    }
  }

  // ---- Which ticket is used where ----

  /** The ticket acquired last, empty before the first. */
  function LastTicket(calls: seq<Call>): F3Ticket {
    if calls == [] then "" else
    var last := calls[|calls| - 1];
    if last.Asked? && last.got.Some? then last.got.value else LastTicket(calls[..|calls| - 1])
  }

  ghost predicate TicketsChain(calls: seq<Call>) {
    forall i | 0 <= i < |calls| ::
      && (calls[i].Asked? ==> calls[i].previous == LastTicket(calls[..i]))
      && (calls[i].Participated? ==> calls[i].used == LastTicket(calls[..i]))
  }

  lemma AddedCall(calls: seq<Call>, c: Call)
    requires TicketsChain(calls)
    requires c.Asked? ==> c.previous == LastTicket(calls)
    requires c.Participated? ==> c.used == LastTicket(calls)
    ensures TicketsChain(calls + [c])
    ensures LastTicket(calls + [c]) == if c.Asked? && c.got.Some? then c.got.value else LastTicket(calls)
  {
    assert (calls + [c])[..|calls|] == calls;
    assert forall i | 0 <= i < |calls| :: (calls + [c])[..i] == calls[..i];
  }

  /** The call a step makes, and what it logs after it. */
  lemma LiveCalls(cfg: Config, s: State, a: Answer) returns (c: Call, waits: seq<Call>)
    requires !s.phase.Ended?
    ensures StepLive(cfg, s, a).calls == s.calls + [c] + waits
    ensures !c.Waited? && (waits == [] || (|waits| == 1 && waits[0].Waited?))
    ensures !a.cancelled ==> Due(cfg, s, a) == if waits == [] then [] else [waits[0].wait]
    ensures c.Asked? ==> c.previous == s.ticket
    ensures c.Participated? ==> c.used == s.ticket
    ensures StepLive(cfg, s, a).ticket == if c.Asked? && c.got.Some? then c.got.value else s.ticket
  {
    var s' := StepLive(cfg, s, a);
    c := s'.calls[|s.calls|];
    waits := s'.calls[|s.calls| + 1..];
  }

  lemma StepCalls(cfg: Config, s: State, a: Answer) returns (c: Call, waits: seq<Call>)
    requires !s.phase.Ended?
    ensures Step(cfg, s, a).calls == s.calls + [c] + waits
    ensures waits == [] || (|waits| == 1 && waits[0].Waited? && StepLive(cfg, s, a).calls == s.calls + [c] + waits)
    ensures a.cancelled ==> waits == []
    ensures !c.Waited?
    ensures s.calls + [c] <= StepLive(cfg, s, a).calls
    ensures c.Asked? ==> c.previous == s.ticket
    ensures c.Participated? ==> c.used == s.ticket
    ensures Step(cfg, s, a).ticket == if c.Asked? && c.got.Some? then c.got.value else s.ticket
  {
    c, waits := LiveCalls(cfg, s, a);
    if a.cancelled {
      waits := [];
      assert Upto(StepLive(cfg, s, a).calls, |s.calls| + 1) == s.calls + [c];
    }
  }

  /** Every participation uses the ticket acquired last, and every renewal passes it on. */
  lemma {:induction false} TicketsAreChained(cfg: Config, answers: seq<Answer>)
    ensures TicketsChain(Run(cfg, answers).calls)
    ensures Run(cfg, answers).ticket == LastTicket(Run(cfg, answers).calls)
  {
    if answers != [] {
      var n := |answers| - 1;
      TicketsAreChained(cfg, answers[..n]);
      var s := Run(cfg, answers[..n]);
      if !s.phase.Ended? {
        var c, waits := StepCalls(cfg, s, answers[n]);
        AddedCall(s.calls, c);
        if waits != [] {
          AddedCall(s.calls + [c], waits[0]);
          assert waits == [waits[0]];
        } else {
          assert s.calls + [c] + waits == s.calls + [c];
        }
      }
    }
  }

  // ---- What follows what ----

  /** What a log of calls tells: the manifest fetched with this ticket, the last lease, and the failures
      since the backoff was last reset. */
  datatype Memory = Memory(manifest: Option<Manifest>, lease: Option<Lease>, failures: nat)

  /** The next thing to do. */
  datatype Next = AskTicket | Participate | FetchManifest | Sleep(lease: Lease, manifest: Manifest) | Stop

  /** An unexpected error is retried as long as two durations for each failure so far do not exceed the
      attempts allowed. */
  predicate MayRetry(cfg: Config, failures: nat) {
    2 * failures <= cfg.maxAttempts
  }

  /** What is to be done after call `c`, given what the calls before it tell. */
  function NextAfter(cfg: Config, mem: Memory, c: Call): Next {
    match c
    case Asked(_, got) => if got.Some? then Participate else AskTicket
    case Participated(_, Ok(lease), _) =>
      if lease.validityTerm <= cfg.leaseTerm / 2 then AskTicket
      else if mem.manifest.Some? && mem.manifest.value.network == lease.network
      then Sleep(lease, mem.manifest.value)
      else FetchManifest
    case Participated(_, Err(Disabled), _) => Stop
    case Participated(_, Err(TicketExpired), _) => AskTicket
    case Participated(_, Err(StartBeforeExisting), _) => AskTicket
    case Participated(_, Err(TicketInvalid), _) => AskTicket
    case Participated(_, Err(IssuerMismatch), _) => Participate
    case Participated(_, Err(NotReady), _) => Participate
    case Participated(_, Err(Unexpected), _) => if MayRetry(cfg, mem.failures) then Participate else AskTicket
    case AskedManifest(Ok(Some(m))) =>
      if mem.lease.Some? && mem.lease.value.network == m.network then Sleep(mem.lease.value, m) else AskTicket
    case AskedManifest(Err(Disabled)) => Stop
    case AskedManifest(_) => FetchManifest
    case Waited(_, _, _) => Participate
  }

  function Remember(cfg: Config, mem: Memory, c: Call): Memory {
    match c
    case Asked(_, got) => if got.Some? then Memory(None, mem.lease, 0) else mem.(failures := mem.failures + 1)
    case Participated(_, Ok(lease), _) => Memory(mem.manifest, Some(lease), 0)
    case Participated(_, Err(_), _) =>
      mem.(failures := if NextAfter(cfg, mem, c) == Participate then mem.failures + 1 else 0)
    case AskedManifest(Ok(Some(m))) =>
      mem.(manifest := Some(m), failures := if NextAfter(cfg, mem, c) == AskTicket then 0 else mem.failures)
    case AskedManifest(_) => mem.(failures := mem.failures + 1)
    case Waited(_, _, _) => mem
  }

  function Recall(cfg: Config, calls: seq<Call>): Memory {
    if calls == [] then Memory(None, None, 0)
    else Remember(cfg, Recall(cfg, calls[..|calls| - 1]), calls[|calls| - 1])
  }

  function ToDo(cfg: Config, calls: seq<Call>): Next {
    if calls == [] then AskTicket
    else NextAfter(cfg, Recall(cfg, calls[..|calls| - 1]), calls[|calls| - 1])
  }

  predicate Does(c: Call, next: Next) {
    match next
    case AskTicket => c.Asked?
    case Participate => c.Participated?
    case FetchManifest => c.AskedManifest?
    case Sleep(lease, m) => c.Waited? && c.lease == lease && c.manifest == m
    case Stop => false
  }

  /** Call `i` is the one to be made after those before it, and a failed participation is marked as retried
      exactly if the next call is to participate again. */
  predicate CallInOrder(cfg: Config, calls: seq<Call>, i: nat)
    requires i < |calls|
  {
    && Does(calls[i], ToDo(cfg, calls[..i]))
    && (calls[i].Participated? && calls[i].reply.Err? ==>
          (calls[i].retried <==> ToDo(cfg, calls[..i + 1]) == Participate))
  }

  ghost predicate InOrder(cfg: Config, calls: seq<Call>) {
    forall i | 0 <= i < |calls| :: CallInOrder(cfg, calls, i)
  }

  lemma RecallSnoc(cfg: Config, calls: seq<Call>, c: Call)
    ensures Recall(cfg, calls + [c]) == Remember(cfg, Recall(cfg, calls), c)
    ensures ToDo(cfg, calls + [c]) == NextAfter(cfg, Recall(cfg, calls), c)
  {
    assert (calls + [c])[..|calls|] == calls;
  }

  lemma CallInOrderPrefix(cfg: Config, calls: seq<Call>, n: nat, i: nat)
    requires i < n <= |calls|
    ensures CallInOrder(cfg, calls[..n], i) <==> CallInOrder(cfg, calls, i)
  {
    assert calls[..n][..i] == calls[..i] && calls[..n][..i + 1] == calls[..i + 1];
  }

  lemma LastInOrder(cfg: Config, calls: seq<Call>, c: Call)
    requires Does(c, ToDo(cfg, calls))
    requires c.Participated? && c.reply.Err? ==>
               (c.retried <==> NextAfter(cfg, Recall(cfg, calls), c) == Participate)
    ensures CallInOrder(cfg, calls + [c], |calls|)
  {
    RecallSnoc(cfg, calls, c);
    assert (calls + [c])[..|calls|] == calls && (calls + [c])[..|calls| + 1] == calls + [c];
  }

  lemma InOrderSnoc(cfg: Config, calls: seq<Call>, c: Call)
    requires InOrder(cfg, calls) && Does(c, ToDo(cfg, calls))
    requires c.Participated? && c.reply.Err? ==>
               (c.retried <==> NextAfter(cfg, Recall(cfg, calls), c) == Participate)
    ensures InOrder(cfg, calls + [c])
  {
    var all := calls + [c];
    LastInOrder(cfg, calls, c);
    forall i | 0 <= i < |calls|
      ensures CallInOrder(cfg, all, i)
    {
      assert all[..|calls|] == calls;
      CallInOrderPrefix(cfg, all, |calls|, i);
    }
  }

  /** The machine stands where its log says. */
  predicate AtNext(s: State, next: Next, mem: Memory) {
    match s.phase
    case Acquire => next == AskTicket && s.attempt == 2 * mem.failures
    case Poll => next == Participate && s.attempt == 2 * mem.failures && s.manifest == mem.manifest
    case Fetch(lease) =>
      next == FetchManifest && s.attempt == 2 * mem.failures && s.manifest == mem.manifest && mem.lease == Some(lease)
    case Ended(_) => true
  }

  ghost predicate LogInv(cfg: Config, s: State) {
    InOrder(cfg, s.calls) && AtNext(s, ToDo(cfg, s.calls), Recall(cfg, s.calls))
  }

  lemma AcquireFollows(cfg: Config, s: State, reply: Reply<F3Ticket>)
    requires LogInv(cfg, s) && s.phase.Acquire?
    ensures LogInv(cfg, StepAcquire(s, reply))
  {
    var c := Asked(s.ticket, if reply.Ok? then Some(reply.value) else None);
    RecallSnoc(cfg, s.calls, c);
    InOrderSnoc(cfg, s.calls, c);
    assert StepAcquire(s, reply).calls == s.calls + [c];
  }

  lemma FailedPollFollows(cfg: Config, s: State, error: NodeError)
    requires LogInv(cfg, s) && s.phase.Poll?
    ensures LogInv(cfg, StepPoll(cfg, s, Err(error)))
  {
    var c := Participated(s.ticket, Err(error), Retries(cfg, s.attempt, error));
    RecallSnoc(cfg, s.calls, c);
    InOrderSnoc(cfg, s.calls, c);
    assert StepPoll(cfg, s, Err(error)).calls == s.calls + [c];
  }

  /** A call that leads to a wait. */
  lemma WaitFollows(cfg: Config, calls: seq<Call>, c: Call, wait: Call)
    requires InOrder(cfg, calls + [c]) && wait.Waited?
    requires NextAfter(cfg, Recall(cfg, calls), c) == Sleep(wait.lease, wait.manifest)
    ensures InOrder(cfg, calls + [c] + [wait])
    ensures ToDo(cfg, calls + [c] + [wait]) == Participate
    ensures Recall(cfg, calls + [c] + [wait]) == Remember(cfg, Recall(cfg, calls), c)
  {
    RecallSnoc(cfg, calls, c);
    RecallSnoc(cfg, calls + [c], wait);
    InOrderSnoc(cfg, calls + [c], wait);
  }

  lemma LeaseFollows(cfg: Config, s: State, lease: Lease)
    requires LogInv(cfg, s) && s.phase.Poll?
    ensures LogInv(cfg, StepPoll(cfg, s, Ok(lease)))
  {
    var s', c := StepPoll(cfg, s, Ok(lease)), Participated(s.ticket, Ok(lease), false);
    RecallSnoc(cfg, s.calls, c);
    InOrderSnoc(cfg, s.calls, c);
    if s'.phase.Poll? {
      var wait := Waited(lease, s.manifest.value, WaitTime(cfg, lease, s.manifest.value));
      WaitFollows(cfg, s.calls, c, wait);
      assert s'.calls == s.calls + [c] + [wait];
    } else {
      assert s'.calls == s.calls + [c];
    }
  }

  lemma GotManifestFollows(cfg: Config, s: State, lease: Lease, m: Manifest)
    requires LogInv(cfg, s) && s.phase == Fetch(lease)
    ensures LogInv(cfg, StepFetch(cfg, s, lease, Ok(Some(m))))
  {
    var s', c := StepFetch(cfg, s, lease, Ok(Some(m))), AskedManifest(Ok(Some(m)));
    RecallSnoc(cfg, s.calls, c);
    InOrderSnoc(cfg, s.calls, c);
    if m.network == lease.network {
      var wait := Waited(lease, m, WaitTime(cfg, lease, m));
      WaitFollows(cfg, s.calls, c, wait);
      assert s'.calls == s.calls + [c] + [wait];
    } else {
      assert s'.calls == s.calls + [c];
    }
  }

  lemma NoManifestFollows(cfg: Config, s: State, lease: Lease, reply: Reply<Option<Manifest>>)
    requires LogInv(cfg, s) && s.phase == Fetch(lease) && (reply.Err? || reply.value.None?)
    ensures LogInv(cfg, StepFetch(cfg, s, lease, reply))
  {
    RecallSnoc(cfg, s.calls, AskedManifest(reply));
    InOrderSnoc(cfg, s.calls, AskedManifest(reply));
    assert StepFetch(cfg, s, lease, reply).calls == s.calls + [AskedManifest(reply)];
  }

  lemma LiveFollows(cfg: Config, s: State, a: Answer)
    requires LogInv(cfg, s)
    ensures LogInv(cfg, StepLive(cfg, s, a))
  {
    match s.phase
    case Acquire => AcquireFollows(cfg, s, a.ticket);
    case Poll =>
      match a.lease {
        case Ok(lease) => LeaseFollows(cfg, s, lease);
        case Err(error) => FailedPollFollows(cfg, s, error);
      }
    case Fetch(lease) =>
      if a.manifest.Ok? && a.manifest.value.Some? {
        GotManifestFollows(cfg, s, lease, a.manifest.value.value);
      } else {
        NoManifestFollows(cfg, s, lease, a.manifest);
      }
    case Ended(_) =>
  }

  lemma InOrderPrefix(cfg: Config, calls: seq<Call>, n: nat)
    requires InOrder(cfg, calls) && n <= |calls|
    ensures InOrder(cfg, calls[..n])
  {
    forall i | 0 <= i < n
      ensures CallInOrder(cfg, calls[..n], i)
    {
      CallInOrderPrefix(cfg, calls, n, i);
    }
  }

  /** Over every sequence of answers the calls come in this order: an expired, too early or invalid ticket
      is given up, an issuer mismatch or a node that is not ready is polled again, an unexpected error is
      until the attempts are used up, a short lease asks for a new ticket, a long one is slept on, with a
      manifest that is fetched only when the one at hand is of another network. */
  lemma {:induction false} CallsAreInOrder(cfg: Config, answers: seq<Answer>)
    ensures InOrder(cfg, Run(cfg, answers).calls)
    ensures LogInv(cfg, Run(cfg, answers))
  {
    if answers != [] {
      var n := |answers| - 1;
      var s := Run(cfg, answers[..n]);
      CallsAreInOrder(cfg, answers[..n]);
      LiveFollows(cfg, s, answers[n]);
      if answers[n].cancelled && !s.phase.Ended? {
        InOrderPrefix(cfg, StepLive(cfg, s, answers[n]).calls,
                      |Upto(StepLive(cfg, s, answers[n]).calls, |s.calls| + 1)|);
      }
    }
  }

  /** In every run: a ticket that is expired, too early or invalid is passed on for a new one in the very
      next call; a mismatched issuer or a node that is not ready is polled again with the same ticket. */
  lemma ErrorsDecideTheTicket(cfg: Config, answers: seq<Answer>, i: nat)
    requires i + 1 < |Run(cfg, answers).calls|
    requires var c := Run(cfg, answers).calls[i]; c.Participated? && c.reply.Err?
    ensures var c, next := Run(cfg, answers).calls[i], Run(cfg, answers).calls[i + 1];
            && (c.reply.error in {TicketExpired, StartBeforeExisting, TicketInvalid} ==>
                  next.Asked? && next.previous == c.used)
            && (c.reply.error in {IssuerMismatch, NotReady} ==> next.Participated? && next.used == c.used)
  {
    var calls := Run(cfg, answers).calls;
    CallsAreInOrder(cfg, answers);
    TicketsAreChained(cfg, answers);
    assert CallInOrder(cfg, calls, i) && CallInOrder(cfg, calls, i + 1);
    assert calls[..i + 1][..i] == calls[..i];
  }

  // ---- Giving up ----

  /** Unexpected errors retried since the last successful poll with this ticket. */
  function Retried(calls: seq<Call>): nat {
    if calls == [] then 0 else
    var last, before := calls[|calls| - 1], calls[..|calls| - 1];
    if last.Participated? && last.reply.Ok? then 0
    else if last.Asked? && last.got.Some? then 0
    else if last.Participated? && last.reply == Err(Unexpected) && last.retried then Retried(before) + 1
    else Retried(before)
  }

  predicate Bounded(cfg: Config, retried: nat) {
    retried == 0 || DURATIONS_PER_FAILURE * (retried - 1) <= cfg.maxAttempts
  }

  predicate GiveUpInv(cfg: Config, s: State) {
    && Bounded(cfg, Retried(s.calls))
    && (s.phase.Poll? ==> DURATIONS_PER_FAILURE * Retried(s.calls) <= s.attempt)
    && (s.phase.Fetch? ==> Retried(s.calls) == 0)
  }

  lemma RetriedSnoc(calls: seq<Call>, c: Call)
    ensures Retried(calls + [c]) ==
            if (c.Participated? && c.reply.Ok?) || (c.Asked? && c.got.Some?) then 0
            else if c.Participated? && c.reply == Err(Unexpected) && c.retried then Retried(calls) + 1
            else Retried(calls)
  {
    assert (calls + [c])[..|calls|] == calls;
  }

  lemma FailedPollKeepsGiveUp(cfg: Config, s: State, error: NodeError)
    requires GiveUpInv(cfg, s) && s.phase.Poll?
    ensures GiveUpInv(cfg, StepPoll(cfg, s, Err(error)))
  {
    var c := Participated(s.ticket, Err(error), Retries(cfg, s.attempt, error));
    RetriedSnoc(s.calls, c);
    assert StepPoll(cfg, s, Err(error)).calls == s.calls + [c];
  }

  lemma LeaseKeepsGiveUp(cfg: Config, s: State, lease: Lease)
    requires GiveUpInv(cfg, s) && s.phase.Poll?
    ensures GiveUpInv(cfg, StepPoll(cfg, s, Ok(lease)))
  {
    var s', c := StepPoll(cfg, s, Ok(lease)), Participated(s.ticket, Ok(lease), false);
    RetriedSnoc(s.calls, c);
    if s'.phase.Poll? {
      var wait := Waited(lease, s.manifest.value, WaitTime(cfg, lease, s.manifest.value));
      RetriedSnoc(s.calls + [c], wait);
      assert s'.calls == s.calls + [c] + [wait];
    } else {
      assert s'.calls == s.calls + [c];
    }
  }

  lemma FetchKeepsGiveUp(cfg: Config, s: State, lease: Lease, reply: Reply<Option<Manifest>>)
    requires GiveUpInv(cfg, s) && s.phase == Fetch(lease)
    ensures GiveUpInv(cfg, StepFetch(cfg, s, lease, reply))
  {
    RetriedSnoc(s.calls, AskedManifest(reply));
    if reply.Ok? && reply.value.Some? {
      var m := reply.value.value;
      RetriedSnoc(s.calls + [AskedManifest(reply)], Waited(lease, m, WaitTime(cfg, lease, m)));
    }
  }

  lemma LiveKeepsGiveUp(cfg: Config, s: State, a: Answer)
    requires GiveUpInv(cfg, s)
    ensures GiveUpInv(cfg, StepLive(cfg, s, a))
  {
    match s.phase
    case Acquire =>
      RetriedSnoc(s.calls, Asked(s.ticket, if a.ticket.Ok? then Some(a.ticket.value) else None));
    case Poll =>
      match a.lease {
        case Ok(lease) => LeaseKeepsGiveUp(cfg, s, lease);
        case Err(error) => FailedPollKeepsGiveUp(cfg, s, error);
      }
    case Fetch(lease) => FetchKeepsGiveUp(cfg, s, lease, a.manifest);
    case Ended(_) =>
  }

  lemma StepKeepsGiveUp(cfg: Config, s: State, a: Answer)
    requires GiveUpInv(cfg, s)
    ensures GiveUpInv(cfg, Step(cfg, s, a))
  {
    LiveKeepsGiveUp(cfg, s, a);
    if a.cancelled && !s.phase.Ended? {
      var c, waits := LiveCalls(cfg, s, a);
      assert Upto(StepLive(cfg, s, a).calls, |s.calls| + 1) == s.calls + [c];
      if waits != [] {
        RetriedSnoc(s.calls + [c], waits[0]);
        assert waits == [waits[0]];
      } else {
        assert s.calls + [c] + waits == s.calls + [c];
      }
    }
  }

  /** In every run, at most ⌊maxAttempts / 2⌋ + 1 unexpected errors are retried since the last
      successful poll, although fetching a manifest counts on the same counter. */
  lemma {:induction false} RetriesAreBounded(cfg: Config, answers: seq<Answer>)
    ensures GiveUpInv(cfg, Run(cfg, answers))
    ensures cfg.maxAttempts >= 0 ==>
              Retried(Run(cfg, answers).calls) <= cfg.maxAttempts / DURATIONS_PER_FAILURE + 1
    ensures cfg.maxAttempts < 0 ==> Retried(Run(cfg, answers).calls) == 0
  {
    if answers != [] {
      RetriesAreBounded(cfg, answers[..|answers| - 1]);
      StepKeepsGiveUp(cfg, Run(cfg, answers[..|answers| - 1]), answers[|answers| - 1]);
    }
  }

  function StepAll(cfg: Config, s: State, answers: seq<Answer>): State {
    if answers == [] then s
    else Step(cfg, StepAll(cfg, s, answers[..|answers| - 1]), answers[|answers| - 1])
  }

  /** With nothing but unexpected errors from a fresh counter the bound is reached exactly: that many
      are retried, and the next one gives the ticket up. */
  lemma {:induction false} GivesUpExactly(cfg: Config, s: State, answers: seq<Answer>)
    requires cfg.maxAttempts >= 0 && s.phase.Poll? && s.attempt == 0
    requires forall a | a in answers :: a.lease == Err(Unexpected) && !a.cancelled
    requires |answers| <= cfg.maxAttempts / 2 + 2
    ensures var s' := StepAll(cfg, s, answers);
            if |answers| <= cfg.maxAttempts / 2 + 1
            then s'.phase == Poll && s'.attempt == 2 * |answers|
            else s'.phase == Acquire
  {
    if answers != [] {
      GivesUpExactly(cfg, s, answers[..|answers| - 1]);
      assert answers[|answers| - 1] in answers;
    }
  }

  // ---- Waiting for a lease ----

  predicate GoodWait(cfg: Config, c: Call) {
    c.Waited? ==>
      && c.manifest.network == c.lease.network
      && c.lease.validityTerm > cfg.leaseTerm / 2
      && c.wait == WaitTime(cfg, c.lease, c.manifest)
  }

  ghost predicate WaitInv(cfg: Config, s: State) {
    && (forall i | 0 <= i < |s.calls| :: GoodWait(cfg, s.calls[i]))
    && (s.phase.Fetch? ==> s.phase.lease.validityTerm > RenewWithin(cfg))
  }

  lemma StepKeepsWaits(cfg: Config, s: State, a: Answer)
    requires WaitInv(cfg, s)
    ensures WaitInv(cfg, StepLive(cfg, s, a))
  {
  }

  /** Whenever the loop sleeps on a lease, over polls and cached manifests, it has the manifest of the
      lease's own network and the lease is longer than the renewal window. */
  lemma {:induction false} WaitsAreGood(cfg: Config, answers: seq<Answer>)
    ensures WaitInv(cfg, Run(cfg, answers))
  {
    if answers != [] {
      WaitsAreGood(cfg, answers[..|answers| - 1]);
      StepKeepsWaits(cfg, Run(cfg, answers[..|answers| - 1]), answers[|answers| - 1]);
    }
  }

  predicate Uint64(n: nat) {
    n < 0x1_0000_0000_0000_0000
  }

  /** An int64 congruent to the product, or 100 ms if that is a multiple of 2^64. */
  predicate IsInt64Product(product: int, wait: int) {
    && (product % 0x1_0000_0000_0000_0000 == 0 ==> wait == 100_000_000)
    && (product % 0x1_0000_0000_0000_0000 != 0 ==>
          && -0x8000_0000_0000_0000 <= wait < 0x8000_0000_0000_0000
          && (wait - product) % 0x1_0000_0000_0000_0000 == 0)
  }

  /** The wait is the int64 product of the instances left and the alignment, or 100 ms if that is zero. */
  predicate IsInt64Wait(cfg: Config, lease: Lease, m: Manifest, wait: int) {
    IsInt64Product((lease.validityTerm - cfg.leaseTerm / 2) * m.catchUpAlignment, wait)
  }

  lemma WrapIs(x: int) returns (q: int)
    ensures Wrap(x) == x - 0x1_0000_0000_0000_0000 * q
    ensures -0x8000_0000_0000_0000 <= Wrap(x) < 0x8000_0000_0000_0000
  {
    q := (x + 0x8000_0000_0000_0000) / 0x1_0000_0000_0000_0000;
  }

  lemma Multiples(x: int, y: int, q: int)
    requires x == y - 0x1_0000_0000_0000_0000 * q
    ensures (x - y) % 0x1_0000_0000_0000_0000 == 0
    ensures x % 0x1_0000_0000_0000_0000 == y % 0x1_0000_0000_0000_0000
  {
    assert x - y == 0x1_0000_0000_0000_0000 * -q;
    assert x + 0x1_0000_0000_0000_0000 * q == y;
  }

  lemma Distribute(left: int, q: int, a: int)
    ensures (left - 0x1_0000_0000_0000_0000 * q) * a == left * a - 0x1_0000_0000_0000_0000 * (q * a)
  {
  }

  lemma WrappedProduct(left: int, a: int)
    ensures var w := Wrap(Wrap(left) * a);
            IsInt64Product(left * a, if w == 0 then HUNDRED_MS else w)
  {
    var q := WrapIs(left);
    var q' := WrapIs(Wrap(left) * a);
    Distribute(left, q, a);
    Multiples(Wrap(Wrap(left) * a), left * a, q * a + q');
    SmallMultiple(Wrap(Wrap(left) * a));
  }

  lemma SmallMultiple(w: int)
    requires -0x8000_0000_0000_0000 <= w < 0x8000_0000_0000_0000
    ensures w % 0x1_0000_0000_0000_0000 == 0 <==> w == 0
  {
  }

  lemma NoUnsignedWrap(n: nat)
    requires Uint64(n)
    ensures WrapUnsigned(n) == n
  {
  }

  lemma WaitIsInt64(cfg: Config, lease: Lease, m: Manifest)
    requires RenewWithin(cfg) < lease.validityTerm && Uint64(lease.validityTerm)
    ensures IsInt64Wait(cfg, lease, m, WaitTime(cfg, lease, m))
  {
    var left := lease.validityTerm - cfg.leaseTerm / 2;
    NoUnsignedWrap(left);
    WrappedProduct(left, m.catchUpAlignment);
    assert WaitTime(cfg, lease, m)
        == (if Wrap(Wrap(left) * m.catchUpAlignment) == 0 then HUNDRED_MS else Wrap(Wrap(left) * m.catchUpAlignment));
  }

  /** The instances left do not wrap, and the wait is positive for a non-negative alignment whose product
      with them fits an int64; for a positive alignment it is that product. */
  predicate PositiveWait(cfg: Config, lease: Lease, m: Manifest, wait: int) {
    var left := lease.validityTerm - cfg.leaseTerm / 2;
    && WrapUnsigned(left) == left > 0
    && (m.catchUpAlignment >= 0 && left < 0x8000_0000_0000_0000
        && left * m.catchUpAlignment < 0x8000_0000_0000_0000 ==>
          wait > 0 && (m.catchUpAlignment > 0 ==> wait == left * m.catchUpAlignment))
  }

  lemma WaitIsPositive(cfg: Config, lease: Lease, m: Manifest)
    requires RenewWithin(cfg) < lease.validityTerm && Uint64(lease.validityTerm)
    ensures PositiveWait(cfg, lease, m, WaitTime(cfg, lease, m))
  {
    var left := lease.validityTerm - RenewWithin(cfg);
    if m.catchUpAlignment > 0 {
      Products(left, m.catchUpAlignment);
    }
  }

  lemma Products(a: int, b: int)
    requires a > 0 && b > 0
    ensures a * b > 0
  {
  }

  /** The leases that are slept on, or about to be, are leases the node answered. */
  ghost predicate LeasesFit(s: State) {
    && (forall c | c in s.calls && c.Waited? :: Uint64(c.lease.validityTerm))
    && (s.phase.Fetch? ==> Uint64(s.phase.lease.validityTerm))
  }

  lemma StepKeepsLeases(cfg: Config, s: State, a: Answer)
    requires LeasesFit(s) && (a.lease.Ok? ==> Uint64(a.lease.value.validityTerm))
    ensures LeasesFit(StepLive(cfg, s, a))
  {
  }

  lemma {:induction false} LeasesAreAnswers(cfg: Config, answers: seq<Answer>)
    requires forall a | a in answers && a.lease.Ok? :: Uint64(a.lease.value.validityTerm)
    ensures LeasesFit(Run(cfg, answers))
  {
    if answers != [] {
      var n := |answers| - 1;
      assert answers[n] in answers && forall a | a in answers[..n] :: a in answers;
      LeasesAreAnswers(cfg, answers[..n]);
      StepKeepsLeases(cfg, Run(cfg, answers[..n]), answers[n]);
    }
  }

  /** Over every sequence of uint64 leases, every wait the loop takes is positive in this sense. */
  lemma {:induction false} WaitsArePositive(cfg: Config, answers: seq<Answer>)
    requires forall a | a in answers && a.lease.Ok? :: Uint64(a.lease.value.validityTerm)
    ensures forall c | c in Run(cfg, answers).calls && c.Waited? ::
              PositiveWait(cfg, c.lease, c.manifest, c.wait) && IsInt64Wait(cfg, c.lease, c.manifest, c.wait)
  {
    WaitsAreGood(cfg, answers);
    LeasesAreAnswers(cfg, answers);
    forall c | c in Run(cfg, answers).calls && c.Waited?
      ensures PositiveWait(cfg, c.lease, c.manifest, c.wait) && IsInt64Wait(cfg, c.lease, c.manifest, c.wait)
    {
      var i :| 0 <= i < |Run(cfg, answers).calls| && Run(cfg, answers).calls[i] == c;
      assert GoodWait(cfg, c);
      WaitIsPositive(cfg, c.lease, c.manifest);
      WaitIsInt64(cfg, c.lease, c.manifest);
    }
  }

  /** The waits of a log, in order. */
  function Sleeps(calls: seq<Call>): seq<int> {
    if calls == [] then [] else
    var last := calls[|calls| - 1];
    Sleeps(calls[..|calls| - 1]) + if last.Waited? then [last.wait] else []
  }

  lemma SleepsSnoc(calls: seq<Call>, c: Call)
    ensures Sleeps(calls + [c]) == Sleeps(calls) + if c.Waited? then [c.wait] else []
  {
    assert (calls + [c])[..|calls|] == calls;
  }

  /** The lease wait that an answer leads to, if any. */
  function Due(cfg: Config, s: State, a: Answer): seq<int> {
    if a.cancelled then [] else
    match s.phase
    case Poll =>
      if a.lease.Ok? && a.lease.value.validityTerm > RenewWithin(cfg) && s.manifest.Some?
         && s.manifest.value.network == a.lease.value.network
      then [WaitTime(cfg, a.lease.value, s.manifest.value)] else []
    case Fetch(lease) =>
      if a.manifest.Ok? && a.manifest.value.Some? && a.manifest.value.value.network == lease.network
      then [WaitTime(cfg, lease, a.manifest.value.value)] else []
    case _ => []
  }

  function DueAlong(cfg: Config, answers: seq<Answer>, n: nat): seq<int>
    requires n <= |answers|
  {
    if n == 0 then [] else DueAlong(cfg, answers, n - 1) + Due(cfg, Run(cfg, answers[..n - 1]), answers[n - 1])
  }

  lemma LiveSleeps(cfg: Config, s: State, a: Answer)
    requires !s.phase.Ended? && !a.cancelled
    ensures Sleeps(StepLive(cfg, s, a).calls) == Sleeps(s.calls) + Due(cfg, s, a)
  {
    var c, waits := LiveCalls(cfg, s, a);
    SleepsSnoc(s.calls, c);
    if waits == [] {
      assert s.calls + [c] + waits == s.calls + [c];
    } else {
      assert waits == [waits[0]];
      SleepsSnoc(s.calls + [c], waits[0]);
    }
  }

  lemma StepSleeps(cfg: Config, s: State, a: Answer)
    ensures Sleeps(Step(cfg, s, a).calls) == Sleeps(s.calls) + Due(cfg, s, a)
  {
    if s.phase.Ended? {
      assert Step(cfg, s, a) == s && Due(cfg, s, a) == [];
    } else if a.cancelled {
      var c, waits := StepCalls(cfg, s, a);
      assert s.calls + [c] + waits == s.calls + [c];
      SleepsSnoc(s.calls, c);
    } else {
      LiveSleeps(cfg, s, a);
    }
  }

  lemma RunStep(cfg: Config, answers: seq<Answer>, n: nat)
    requires 0 < n <= |answers|
    ensures Run(cfg, answers[..n]) == Step(cfg, Run(cfg, answers[..n - 1]), answers[n - 1])
  {
    assert answers[..n][..n - 1] == answers[..n - 1];
  }

  /** The waits that the answers lead to are the waits the machine logs. */
  lemma {:induction false} DueIsLogged(cfg: Config, answers: seq<Answer>, n: nat)
    requires n <= |answers|
    ensures DueAlong(cfg, answers, n) == Sleeps(Run(cfg, answers[..n]).calls)
  {
    if n > 0 {
      DueIsLogged(cfg, answers, n - 1);
      RunStep(cfg, answers, n);
      StepSleeps(cfg, Run(cfg, answers[..n - 1]), answers[n - 1]);
    }
  }

  // ---- Termination ----

  /** An endless sequence of answers: never cancelled, polls answered by unexpected errors or by leases
      of strictly falling validity, and after every point a manifest or "disabled" still to come.
      (The `lease` of an answer to another call is not looked at and may be taken as an error.) */
  ghost predicate Falling(env: nat -> Answer) {
    && (forall i: nat :: !env(i).cancelled && (env(i).lease.Ok? || env(i).lease == Err(Unexpected)))
    && (forall i: nat, j: nat | i < j && env(i).lease.Ok? && env(j).lease.Ok? ::
          env(j).lease.value.validityTerm < env(i).lease.value.validityTerm)
    && (forall i: nat :: ManifestFrom(env, i))
  }

  ghost predicate ManifestFrom(env: nat -> Answer, i: nat) {
    exists j: nat :: i <= j && ReturnsManifest(env(j))
  }

  predicate ReturnsManifest(a: Answer) {
    (a.manifest.Ok? && a.manifest.value.Some?) || a.manifest == Err(Disabled)
  }

  function Follow(cfg: Config, s: State, env: nat -> Answer, from: nat, n: nat): State
    decreases n
  {
    if n == 0 then s else Follow(cfg, Step(cfg, s, env(from)), env, from + 1, n - 1)
  }

  predicate Participating(s: State) {
    s.phase.Poll? || s.phase.Fetch?
  }

  function RetriesLeft(cfg: Config, s: State): nat {
    if s.attempt > cfg.maxAttempts then 0 else cfg.maxAttempts - s.attempt + 1
  }

  /** Under such answers `tryParticipate` ends: validity, then the manifest still awaited or the
      retries left, fall lexicographically. */
  lemma {:induction false} TryParticipateEnds(
    cfg: Config, s: State, env: nat -> Answer, from: nat, validity: nat, next: nat) returns (n: nat)
    requires Falling(env)
    requires forall j: nat | from <= j && env(j).lease.Ok? :: env(j).lease.value.validityTerm < validity
    requires s.phase.Fetch? ==> from <= next && ReturnsManifest(env(next))
    ensures !Participating(Follow(cfg, s, env, from, n))
    decreases validity, if s.phase.Fetch? then 1 else 0, if s.phase.Fetch? then next - from else RetriesLeft(cfg, s)
  {
    n := 0;
    if Participating(s) {
      var a := env(from);
      var s' := Step(cfg, s, a);
      if Participating(s') {
        if s.phase.Poll? && a.lease.Ok? {
          assert ManifestFrom(env, from + 1);
          var next' :| from + 1 <= next' && ReturnsManifest(env(next'));
          n := TryParticipateEnds(cfg, s', env, from + 1, a.lease.value.validityTerm, next');
        } else {
          n := TryParticipateEnds(cfg, s', env, from + 1, validity, next);
        }
      }
      n := n + 1;
    }
  }

  /** From any poll, whatever came before. */
  lemma ParticipationTerminates(cfg: Config, s: State, env: nat -> Answer)
    requires Falling(env) && s.phase.Poll?
    ensures exists n: nat :: !Participating(Follow(cfg, s, env, 0, n))
  {
    var n: nat;
    if i: nat :| env(i).lease.Ok? {
      var highest := FirstLease(env, i);
      n := TryParticipateEnds(cfg, s, env, 0, env(highest).lease.value.validityTerm + 1, 0);
    } else {
      n := TryParticipateEnds(cfg, s, env, 0, 0, 0);
    }
  }

  /** The first lease has the highest validity. */
  lemma {:induction false} FirstLease(env: nat -> Answer, i: nat) returns (first: nat)
    requires Falling(env) && env(i).lease.Ok?
    ensures env(first).lease.Ok?
    ensures forall j: nat | env(j).lease.Ok? ::
              env(j).lease.value.validityTerm <= env(first).lease.value.validityTerm
    decreases i
  {
    first := i;
    if k: nat :| k < i && env(k).lease.Ok? {
      first := FirstLease(env, k);
    } else {
      forall j: nat | env(j).lease.Ok?
        ensures env(j).lease.value.validityTerm <= env(i).lease.value.validityTerm
      {
        assert j == i || i < j;
      }
    }
  }
}
