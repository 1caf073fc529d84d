/** Concurrent recorders and cleaners: the double-checked `latestRecordEpoch` and the cleaners' read,
    delete and write steps, interleaved in every way. The min-epoch key exists from the start. */
module Cleaners {
  import opened Chain

  /** One call of `Record` after its put, up to the end of its cleaning. */
  datatype Task =
    | ReadLatest(epoch: Epoch)
    | TakeLock(epoch: Epoch)
    | ReadMin(deadline: Epoch)
    | Deleting(from: Epoch, next: Epoch, deadline: Epoch)
    | Finished

  /** `epochs` are those with at least one record. `low` is the first watermark, `high` the highest one
      ever written, `written` all watermarks written and `started` the values of `latest` for which a
      cleaner was started, in order, and `deleted` the epochs deletes have reached. These five are
      history and steer nothing. */
  datatype State = State(
    epochs: set<Epoch>,
    minEpoch: Epoch,
    latest: Epoch,
    tasks: seq<Task>,
    low: Epoch,
    high: Epoch,
    written: seq<Epoch>,
    started: seq<Epoch>,
    deleted: set<Epoch>)

  function Init(epochs: set<Epoch>, minEpoch: Epoch, latest: Epoch): State {
    State(epochs, minEpoch, latest, [], minEpoch, minEpoch, [], [], {})
  }

  datatype Event = Put(epoch: Epoch) | Step(i: nat)

  /** A record is never put below the watermark, nor below what is about to be cleaned. */
  predicate Enabled(s: State, e: Event, expire: int) {
    match e
    case Put(epoch) => epoch >= s.high && epoch >= s.latest - expire
    case Step(i) => i < |s.tasks| && s.tasks[i] != Finished
  }

  function Go(s: State, i: nat, t: Task): State
    requires i < |s.tasks|
  {
    s.(tasks := s.tasks[i := t])
  }

  function Apply(s: State, e: Event, expire: int): State
    requires Enabled(s, e, expire)
  {
    match e
    case Put(epoch) => s.(epochs := s.epochs + {epoch}, tasks := s.tasks + [ReadLatest(epoch)])
    case Step(i) =>
      match s.tasks[i]
      case ReadLatest(epoch) => Go(s, i, if epoch > s.latest then TakeLock(epoch) else Finished)
      case TakeLock(epoch) =>
        if epoch > s.latest
        then Go(s.(latest := epoch, started := s.started + [epoch]), i, ReadMin(epoch - expire))
        else Go(s, i, Finished)
      case ReadMin(deadline) =>
        if deadline > s.minEpoch then Go(s, i, Deleting(s.minEpoch, s.minEpoch, deadline)) else Go(s, i, Finished)
      case Deleting(from, next, deadline) =>
        if next < deadline
        then Go(s.(epochs := s.epochs - {next}, deleted := s.deleted + {next}), i, Deleting(from, next + 1, deadline))
        else Go(s.(minEpoch := deadline,
                   high := if s.high < deadline then deadline else s.high,
                   written := s.written + [deadline]), i, Finished)
      case Finished => s
  }

  predicate Legal(s: State, es: seq<Event>, expire: int)
    decreases |es|
  {
    es == [] || (Enabled(s, es[0], expire) && Legal(Apply(s, es[0], expire), es[1..], expire))
  }

  function Exec(s: State, es: seq<Event>, expire: int): State
    requires Legal(s, es, expire)
    decreases |es|
  {
    if es == [] then s else Exec(Apply(s, es[0], expire), es[1..], expire)
  }

  ghost predicate Empty(s: State, from: Epoch, to: Epoch) {
    forall e | e in s.epochs :: !(from <= e < to)
  }

  /** A cleaner works inside [low, latest - expire] and has emptied everything behind it. */
  ghost predicate TaskOk(s: State, t: Task, expire: int) {
    match t
    case ReadMin(deadline) => deadline <= s.latest - expire
    case Deleting(from, next, deadline) =>
      && s.low <= from <= next <= deadline <= s.latest - expire
      && from <= s.high
      && Empty(s, s.low, next)
    case _ => true
  }

  ghost predicate Increasing(xs: seq<Epoch>) {
    forall i, j | 0 <= i < j < |xs| :: xs[i] < xs[j]
  }

  ghost predicate Inv(s: State, expire: int) {
    && s.low <= s.minEpoch <= s.high
    && Empty(s, s.low, s.high)
    && (forall t | t in s.tasks :: TaskOk(s, t, expire))
    && (forall e | e in s.deleted :: e < s.latest - expire)
    && Increasing(s.started)
    && (s.started != [] ==> s.started[|s.started| - 1] == s.latest)
  }

  lemma StepKeepsInv(s: State, e: Event, expire: int)
    requires Inv(s, expire) && Enabled(s, e, expire)
    ensures Inv(Apply(s, e, expire), expire)
  {
    var s' := Apply(s, e, expire);
    match e
    case Put(epoch) =>
      forall t | t in s'.tasks
        ensures TaskOk(s', t, expire)
      {
        assert t in s.tasks || t == ReadLatest(epoch);
      }
    case Step(i) =>
      var task := s.tasks[i];
      assert task in s.tasks && TaskOk(s, task, expire);
      forall k | 0 <= k < |s'.tasks|
        ensures TaskOk(s', s'.tasks[k], expire)
      {
        assert s.tasks[k] in s.tasks;
      }
  }

  lemma {:induction false} RunKeepsInv(s: State, es: seq<Event>, expire: int)
    requires Inv(s, expire) && Legal(s, es, expire)
    ensures Inv(Exec(s, es, expire), expire)
    ensures var end := Exec(s, es, expire);
            && end.low == s.low && s.latest <= end.latest
            && (forall e | e in s.started :: e in end.started)
            && (s.latest < end.latest ==> end.latest in end.started)
    decreases |es|
  {
    if es != [] {
      var s' := Apply(s, es[0], expire);
      StepKeepsInv(s, es[0], expire);
      RunKeepsInv(s', es[1..], expire);
      assert s.latest < s'.latest ==> s'.latest in s'.started;
    }
  }

  /** From every store with a watermark, in every interleaving, with no record put below the watermark:
      everything from the first watermark up to the highest one ever written is empty, no delete ever
      reaches the expiry window of the latest epoch, and each new value of `latest` starts exactly one
      cleaner. */
  lemma CleanersAreSafe(epochs: set<Epoch>, minEpoch: Epoch, latest: Epoch, es: seq<Event>, expire: int)
    requires Legal(Init(epochs, minEpoch, latest), es, expire)
    ensures var end := Exec(Init(epochs, minEpoch, latest), es, expire);
            && Empty(end, minEpoch, end.high)
            && minEpoch <= end.minEpoch <= end.high
            && (forall e | e in end.deleted :: e < end.latest - expire)
            && Increasing(end.started)
            && latest <= end.latest
            && (latest < end.latest ==> end.latest in end.started)
  {
    RunKeepsInv(Init(epochs, minEpoch, latest), es, expire);
  }

  lemma ExecOne(s: State, e: Event, es: seq<Event>, expire: int)
    requires Enabled(s, e, expire)
    ensures Legal(s, [e] + es, expire) <==> Legal(Apply(s, e, expire), es, expire)
    ensures Legal(s, [e] + es, expire) ==> Exec(s, [e] + es, expire) == Exec(Apply(s, e, expire), es, expire)
  {
    assert ([e] + es)[1..] == es;
  }

  // ---- Exactly what expires is cleaned ----

  /** The epochs the run puts records into. */
  function PutEpochs(es: seq<Event>): set<Epoch> {
    if es == [] then {} else (if es[0].Put? then {es[0].epoch} else {}) + PutEpochs(es[1..])
  }

  predicate Checks(t: Task, epoch: Epoch) {
    t == ReadLatest(epoch) || t == TakeLock(epoch)
  }

  predicate Cleans(t: Task, deadline: Epoch) {
    t == ReadMin(deadline) || (t.Deleting? && t.deadline == deadline)
  }

  /** The call that put the epoch has still to compare it, unless the latest epoch is as high. */
  predicate Noticed(s: State, epoch: Epoch) {
    epoch <= s.latest || exists i | 0 <= i < |s.tasks| :: Checks(s.tasks[i], epoch)
  }

  /** The watermark of the latest epoch was reached, or the cleaner that will reach it is at work. */
  predicate Attended(s: State, expire: int) {
    s.high >= s.latest - expire || exists i | 0 <= i < |s.tasks| :: Cleans(s.tasks[i], s.latest - expire)
  }

  /** `first` is the first latest epoch, `initial` and `puts` are the epochs that were there and those put. */
  ghost predicate Exact(s: State, initial: set<Epoch>, puts: set<Epoch>, first: Epoch, expire: int) {
    && s.epochs == initial + puts - s.deleted
    && (forall e | e in puts :: Noticed(s, e))
    && (s.latest == first || (s.latest in puts && s.latest > first && Attended(s, expire)))
    && (forall i | 0 <= i < |s.tasks| && (s.tasks[i].ReadLatest? || s.tasks[i].TakeLock?) :: s.tasks[i].epoch in puts)
  }

  lemma PutKeepsExact(s: State, epoch: Epoch, initial: set<Epoch>, puts: set<Epoch>, first: Epoch, expire: int)
    requires Inv(s, expire) && Enabled(s, Put(epoch), expire) && Exact(s, initial, puts, first, expire)
    ensures Exact(Apply(s, Put(epoch), expire), initial, puts + {epoch}, first, expire)
  {
    var s' := Apply(s, Put(epoch), expire);
    assert Checks(s'.tasks[|s.tasks|], epoch);
    assert forall i | 0 <= i < |s.tasks| :: s'.tasks[i] == s.tasks[i];
  }

  /** A step of one call leaves the others where they are. */
  lemma StepKeepsNoticed(s: State, i: nat, e: Epoch, expire: int)
    requires Enabled(s, Step(i), expire) && Noticed(s, e)
    ensures Noticed(Apply(s, Step(i), expire), e)
  {
    var s' := Apply(s, Step(i), expire);
    if e > s.latest {
      var k :| 0 <= k < |s.tasks| && Checks(s.tasks[k], e);
      assert e <= s'.latest || Checks(s'.tasks[k], e);
    }
  }

  lemma StepKeepsAttended(s: State, i: nat, expire: int)
    requires Inv(s, expire) && Enabled(s, Step(i), expire) && Attended(s, expire)
    ensures Attended(Apply(s, Step(i), expire), expire)
  {
    var s' := Apply(s, Step(i), expire);
    if s'.latest != s.latest {
      assert Cleans(s'.tasks[i], s'.latest - expire);
    } else if s.high < s.latest - expire {
      var k :| 0 <= k < |s.tasks| && Cleans(s.tasks[k], s.latest - expire);
      assert s'.high >= s.latest - expire || Cleans(s'.tasks[k], s.latest - expire);
    }
  }

  lemma StepKeepsExact(s: State, i: nat, initial: set<Epoch>, puts: set<Epoch>, first: Epoch, expire: int)
    requires Inv(s, expire) && Enabled(s, Step(i), expire) && Exact(s, initial, puts, first, expire)
    ensures Exact(Apply(s, Step(i), expire), initial, puts, first, expire)
  {
    var s' := Apply(s, Step(i), expire);
    forall e | e in puts
      ensures Noticed(s', e)
    {
      StepKeepsNoticed(s, i, e, expire);
    }
    if s'.latest != s.latest {
      assert Cleans(s'.tasks[i], s'.latest - expire);
    } else if s.latest != first {
      StepKeepsAttended(s, i, expire);
    }
  }

  lemma {:induction false} RunKeepsExact(
    s: State, es: seq<Event>, initial: set<Epoch>, puts: set<Epoch>, first: Epoch, expire: int)
    requires Inv(s, expire) && Legal(s, es, expire) && Exact(s, initial, puts, first, expire)
    ensures Exact(Exec(s, es, expire), initial, puts + PutEpochs(es), first, expire)
    decreases |es|
  {
    if es == [] {
      assert puts + PutEpochs(es) == puts;
    } else {
      var more := if es[0].Put? then puts + {es[0].epoch} else puts;
      StepKeepsInv(s, es[0], expire);
      match es[0] {
        case Put(epoch) => PutKeepsExact(s, epoch, initial, puts, first, expire);
        case Step(i) => StepKeepsExact(s, i, initial, puts, first, expire);
      }
      RunKeepsExact(Apply(s, es[0], expire), es[1..], initial, more, first, expire);
      assert puts + PutEpochs(es) == more + PutEpochs(es[1..]);
    }
  }

  /** In every interleaving nothing appears that was not put and nothing is lost that has not expired. Once
      all calls have ended the latest epoch is the highest one put, and if that is a new one then, from the
      first watermark on, exactly what has not expired is left. */
  lemma CleaningIsExact(epochs: set<Epoch>, minEpoch: Epoch, latest: Epoch, es: seq<Event>, expire: int)
    requires Legal(Init(epochs, minEpoch, latest), es, expire)
    ensures var end, all := Exec(Init(epochs, minEpoch, latest), es, expire), epochs + PutEpochs(es);
            && end.epochs <= all
            && (forall e | e in all && e >= end.latest - expire :: e in end.epochs)
            && ((forall t | t in end.tasks :: t == Finished) ==>
                  && (end.latest == latest || end.latest in PutEpochs(es))
                  && (forall e | e in PutEpochs(es) :: e <= end.latest)
                  && (latest < end.latest ==>
                        forall e | e >= minEpoch :: e in end.epochs <==> e in all && e >= end.latest - expire))
  {
    var s := Init(epochs, minEpoch, latest);
    var end := Exec(s, es, expire);
    RunKeepsInv(s, es, expire);
    RunKeepsExact(s, es, epochs, {}, latest, expire);
    assert {} + PutEpochs(es) == PutEpochs(es);
    assert forall i | 0 <= i < |end.tasks| :: end.tasks[i] in end.tasks;
  }

  // ---- When the watermark goes back ----

  predicate NeverFalls(s: State, es: seq<Event>, expire: int)
    requires Legal(s, es, expire)
    decreases |es|
  {
    es == [] || var s' := Apply(s, es[0], expire); s.minEpoch <= s'.minEpoch && NeverFalls(s', es[1..], expire)
  }

  /** The watermark is the highest one ever written, all along. */
  predicate StaysHighest(s: State, es: seq<Event>, expire: int)
    requires Legal(s, es, expire)
    decreases |es|
  {
    s.minEpoch == s.high && (es == [] || StaysHighest(Apply(s, es[0], expire), es[1..], expire))
  }

  ghost predicate Rising(xs: seq<Epoch>) {
    forall i, j | 0 <= i < j < |xs| :: xs[i] <= xs[j]
  }

  /** The watermarks so far, the first one included. */
  function Trail(s: State): seq<Epoch> {
    [s.low] + s.written
  }

  predicate AtTrailEnd(s: State) {
    s.minEpoch == Trail(s)[|s.written|]
  }

  lemma RisingSnoc(xs: seq<Epoch>, x: Epoch)
    requires xs != []
    ensures Rising(xs + [x]) <==> Rising(xs) && xs[|xs| - 1] <= x
  {
    var all := xs + [x];
    if Rising(all) {
      assert all[|xs| - 1] == xs[|xs| - 1] && all[|xs|] == x;
      forall i, j | 0 <= i < j < |xs|
        ensures xs[i] <= xs[j]
      {
        assert all[i] == xs[i] && all[j] == xs[j];
      }
    }
  }

  lemma StepTrail(s: State, e: Event, expire: int)
    requires Enabled(s, e, expire) && AtTrailEnd(s)
    ensures var s' := Apply(s, e, expire);
            && AtTrailEnd(s')
            && (Rising(Trail(s')) <==> Rising(Trail(s)) && s.minEpoch <= s'.minEpoch)
  {
    var s' := Apply(s, e, expire);
    if s'.written != s.written {
      assert Trail(s') == Trail(s) + [s'.minEpoch];
      RisingSnoc(Trail(s), s'.minEpoch);
    }
  }

  lemma {:induction false} RunTrail(s: State, es: seq<Event>, expire: int)
    requires Legal(s, es, expire) && AtTrailEnd(s)
    ensures Rising(Trail(Exec(s, es, expire))) <==> Rising(Trail(s)) && NeverFalls(s, es, expire)
    decreases |es|
  {
    if es != [] {
      StepTrail(s, es[0], expire);
      RunTrail(Apply(s, es[0], expire), es[1..], expire);
    }
  }

  lemma {:induction false} NeverFallsIffHighest(s: State, es: seq<Event>, expire: int)
    requires Legal(s, es, expire) && s.minEpoch == s.high
    ensures NeverFalls(s, es, expire) <==> StaysHighest(s, es, expire)
    decreases |es|
  {
    if es != [] {
      var s' := Apply(s, es[0], expire);
      assert s.minEpoch <= s'.minEpoch <==> s'.minEpoch == s'.high;
      if s'.minEpoch == s'.high {
        NeverFallsIffHighest(s', es[1..], expire);
      }
    }
  }

  /** Over every run: the persisted watermark never goes back if and only if the cleaners write their
      deadlines in rising order, and if and only if it is always the highest ever written. */
  lemma WatermarkIsMonotoneIff(epochs: set<Epoch>, minEpoch: Epoch, latest: Epoch, es: seq<Event>, expire: int)
    requires Legal(Init(epochs, minEpoch, latest), es, expire)
    ensures var s := Init(epochs, minEpoch, latest);
            && (NeverFalls(s, es, expire) <==> Rising([minEpoch] + Exec(s, es, expire).written))
            && (NeverFalls(s, es, expire) <==> StaysHighest(s, es, expire))
  {
    var s := Init(epochs, minEpoch, latest);
    RunTrail(s, es, expire);
    NeverFallsIffHighest(s, es, expire);
    RunKeepsInv(s, es, expire);
  }

  /** At most one cleaner is between its read and its write. */
  predicate OneCleaning(s: State) {
    forall i, j | 0 <= i < j < |s.tasks| :: !s.tasks[i].Deleting? || !s.tasks[j].Deleting?
  }

  predicate AlwaysOneCleaning(s: State, es: seq<Event>, expire: int)
    requires Legal(s, es, expire)
    decreases |es|
  {
    OneCleaning(s) && (es == [] || AlwaysOneCleaning(Apply(s, es[0], expire), es[1..], expire))
  }

  predicate Ahead(s: State) {
    forall i | 0 <= i < |s.tasks| && s.tasks[i].Deleting? :: s.minEpoch < s.tasks[i].deadline
  }

  lemma {:induction false} OneCleaningNeverFalls(s: State, es: seq<Event>, expire: int)
    requires Legal(s, es, expire) && AlwaysOneCleaning(s, es, expire) && Ahead(s)
    ensures NeverFalls(s, es, expire)
    decreases |es|
  {
    if es != [] {
      var s' := Apply(s, es[0], expire);
      assert Ahead(s');
      OneCleaningNeverFalls(s', es[1..], expire);
    }
  }

  /** In particular it never goes back while cleaners do not overlap. */
  lemma SerialCleanersNeverFall(epochs: set<Epoch>, minEpoch: Epoch, latest: Epoch, es: seq<Event>, expire: int)
    requires Legal(Init(epochs, minEpoch, latest), es, expire)
    requires AlwaysOneCleaning(Init(epochs, minEpoch, latest), es, expire)
    ensures NeverFalls(Init(epochs, minEpoch, latest), es, expire)
  {
    OneCleaningNeverFalls(Init(epochs, minEpoch, latest), es, expire);
  }

  ghost predicate CanFall(s: State, expire: int) {
    exists es :: Legal(s, es, expire) && !NeverFalls(s, es, expire)
  }

  lemma CanFallBefore(s: State, e: Event, expire: int)
    requires Enabled(s, e, expire)
    requires Apply(s, e, expire).minEpoch < s.minEpoch || CanFall(Apply(s, e, expire), expire)
    ensures CanFall(s, expire)
  {
    var s' := Apply(s, e, expire);
    var rest: seq<Event> := [];
    assert Legal(s', [], expire);
    if CanFall(s', expire) {
      rest :| Legal(s', rest, expire) && !NeverFalls(s', rest, expire);
    }
    ExecOne(s, e, rest, expire);
    assert ([e] + rest)[0] == e && ([e] + rest)[1..] == rest;
    assert NeverFalls(s, [e] + rest, expire) <==> s.minEpoch <= s'.minEpoch && NeverFalls(s', rest, expire);
  }

  // ---- The exact condition on states ----

  /** The deadline a call can still write. */
  function CanWrite(s: State, t: Task, expire: int): Option<Epoch> {
    match t
    case Deleting(_, _, deadline) => Some(deadline)
    case ReadMin(deadline) => if deadline > s.minEpoch then Some(deadline) else None
    case TakeLock(epoch) => if epoch > s.latest && epoch - expire > s.minEpoch then Some(epoch - expire) else None
    case ReadLatest(epoch) => if epoch > s.latest && epoch - expire > s.minEpoch then Some(epoch - expire) else None
    case Finished => None
  }

  /** No cleaner at work has been overtaken. */
  predicate NoneOvertaken(s: State) {
    forall i | 0 <= i < |s.tasks| && s.tasks[i].Deleting? :: s.minEpoch <= s.tasks[i].deadline
  }

  /** All deadlines that can still be written are the same. */
  predicate OneDeadline(s: State, expire: int) {
    forall i, j | 0 <= i < j < |s.tasks|
                  && CanWrite(s, s.tasks[i], expire).Some? && CanWrite(s, s.tasks[j], expire).Some? ::
      CanWrite(s, s.tasks[i], expire) == CanWrite(s, s.tasks[j], expire)
  }

  predicate Settled(s: State, expire: int) {
    NoneOvertaken(s) && OneDeadline(s, expire)
  }

  predicate NoPut(es: seq<Event>) {
    forall e | e in es :: e.Step?
  }

  /** Some continuation without a further record lowers the watermark. */
  ghost predicate CanFallAlone(s: State, expire: int) {
    exists es :: NoPut(es) && Legal(s, es, expire) && !NeverFalls(s, es, expire)
  }

  lemma CanFallAloneBefore(s: State, i: nat, expire: int)
    requires Enabled(s, Step(i), expire)
    requires Apply(s, Step(i), expire).minEpoch < s.minEpoch || CanFallAlone(Apply(s, Step(i), expire), expire)
    ensures CanFallAlone(s, expire)
  {
    var s', rest := Apply(s, Step(i), expire), [];
    assert Legal(s', [], expire) && NoPut(rest);
    if CanFallAlone(s', expire) {
      rest :| NoPut(rest) && Legal(s', rest, expire) && !NeverFalls(s', rest, expire);
    }
    ExecOne(s, Step(i), rest, expire);
    assert ([Step(i)] + rest)[0] == Step(i) && ([Step(i)] + rest)[1..] == rest;
    assert NeverFalls(s, [Step(i)] + rest, expire)
      <==> s.minEpoch <= s'.minEpoch && NeverFalls(s', rest, expire);
    assert NoPut([Step(i)] + rest);
  }

  /** A cleaner whose deadline has been overtaken. */
  lemma {:induction false} OvertakenFalls(s: State, i: nat, expire: int)
    requires i < |s.tasks| && s.tasks[i].Deleting? && s.tasks[i].deadline < s.minEpoch
    ensures CanFallAlone(s, expire)
    decreases s.tasks[i].deadline - s.tasks[i].next
  {
    if s.tasks[i].next < s.tasks[i].deadline {
      OvertakenFalls(Apply(s, Step(i), expire), i, expire);
    }
    CanFallAloneBefore(s, i, expire);
  }

  /** Two cleaners at work: the one with the higher deadline may finish first. */
  lemma {:induction false} TwoCleanersFall(s: State, i: nat, j: nat, expire: int)
    requires i < |s.tasks| && j < |s.tasks| && i != j && s.tasks[i].Deleting? && s.tasks[j].Deleting?
    requires s.tasks[i].deadline < s.tasks[j].deadline
    ensures CanFallAlone(s, expire)
    decreases s.tasks[j].deadline - s.tasks[j].next
  {
    var s' := Apply(s, Step(j), expire);
    if s.tasks[j].next < s.tasks[j].deadline {
      TwoCleanersFall(s', i, j, expire);
    } else {
      OvertakenFalls(s', i, expire);
    }
    CanFallAloneBefore(s, j, expire);
  }

  /** How far a call is from its deletes. */
  function StepsToDelete(t: Task): nat {
    match t
    case ReadLatest(_) => 3
    case TakeLock(_) => 2
    case ReadMin(_) => 1
    case _ => 0
  }

  /** Of two calls that can still write different deadlines first the one with the lower deadline and then
      the other can go on to its deletes. */
  lemma {:induction false} TwoDeadlinesFall(s: State, i: nat, j: nat, expire: int)
    requires i < |s.tasks| && j < |s.tasks|
    requires var a, b := CanWrite(s, s.tasks[i], expire), CanWrite(s, s.tasks[j], expire);
             a.Some? && b.Some? && a.value < b.value
    ensures CanFallAlone(s, expire)
    decreases StepsToDelete(s.tasks[i]) + StepsToDelete(s.tasks[j])
  {
    if !s.tasks[i].Deleting? {
      TwoDeadlinesFall(Apply(s, Step(i), expire), i, j, expire);
      CanFallAloneBefore(s, i, expire);
    } else if !s.tasks[j].Deleting? {
      TwoDeadlinesFall(Apply(s, Step(j), expire), i, j, expire);
      CanFallAloneBefore(s, j, expire);
    } else {
      TwoCleanersFall(s, i, j, expire);
    }
  }

  /** In a settled state no step lowers the watermark, and what can be written only gets less. */
  lemma StepKeepsSettled(s: State, i: nat, expire: int)
    requires Settled(s, expire) && Enabled(s, Step(i), expire)
    ensures s.minEpoch <= Apply(s, Step(i), expire).minEpoch && Settled(Apply(s, Step(i), expire), expire)
  {
    var s' := Apply(s, Step(i), expire);
    assert |s'.tasks| == |s.tasks|;
    forall k | 0 <= k < |s'.tasks|
      ensures CanWrite(s', s'.tasks[k], expire) in {None, CanWrite(s, s.tasks[k], expire)}
    {
    }
    forall k | 0 <= k < |s'.tasks| && s'.tasks[k].Deleting?
      ensures s'.minEpoch <= s'.tasks[k].deadline
    {
      if s'.minEpoch != s.minEpoch {
        assert CanWrite(s, s.tasks[i], expire) == Some(s'.minEpoch);
        assert k < i || i < k;
      }
    }
  }

  lemma {:induction false} SettledNeverFalls(s: State, es: seq<Event>, expire: int)
    requires Settled(s, expire) && NoPut(es) && Legal(s, es, expire)
    ensures NeverFalls(s, es, expire) && Settled(Exec(s, es, expire), expire)
    decreases |es|
  {
    if es != [] {
      assert es[0] in es && forall e | e in es[1..] :: e in es;
      StepKeepsSettled(s, es[0].i, expire);
      SettledNeverFalls(Apply(s, es[0], expire), es[1..], expire);
    }
  }

  /** In every state: without a further record some interleaving of the calls under way lowers the
      watermark if and only if a cleaner at work has been overtaken, or two calls can still write
      different deadlines. */
  lemma WatermarkCanFallIff(s: State, expire: int)
    ensures CanFallAlone(s, expire) <==> !Settled(s, expire)
  {
    if Settled(s, expire) {
      forall es | NoPut(es) && Legal(s, es, expire)
        ensures NeverFalls(s, es, expire)
      {
        SettledNeverFalls(s, es, expire);
      }
    } else if !NoneOvertaken(s) {
      var i :| 0 <= i < |s.tasks| && s.tasks[i].Deleting? && s.tasks[i].deadline < s.minEpoch;
      OvertakenFalls(s, i, expire);
    } else {
      var i, j :| 0 <= i < j < |s.tasks|
                  && CanWrite(s, s.tasks[i], expire).Some? && CanWrite(s, s.tasks[j], expire).Some?
                  && CanWrite(s, s.tasks[i], expire) != CanWrite(s, s.tasks[j], expire);
      if CanWrite(s, s.tasks[i], expire).value < CanWrite(s, s.tasks[j], expire).value {
        TwoDeadlinesFall(s, i, j, expire);
      } else {
        TwoDeadlinesFall(s, j, i, expire);
      }
    }
  }

  /** Every record is put when no earlier call can still write. */
  predicate PutsWhenIdle(s: State, es: seq<Event>, expire: int)
    requires Legal(s, es, expire)
    decreases |es|
  {
    es != [] ==>
      && (es[0].Put? ==> forall i | 0 <= i < |s.tasks| :: CanWrite(s, s.tasks[i], expire).None?)
      && PutsWhenIdle(Apply(s, es[0], expire), es[1..], expire)
  }

  lemma {:induction false} IdlePutsNeverFall(s: State, es: seq<Event>, expire: int)
    requires Settled(s, expire) && Legal(s, es, expire) && PutsWhenIdle(s, es, expire)
    ensures NeverFalls(s, es, expire) && Settled(Exec(s, es, expire), expire)
    decreases |es|
  {
    if es != [] {
      if es[0].Step? {
        StepKeepsSettled(s, es[0].i, expire);
      }
      IdlePutsNeverFall(Apply(s, es[0], expire), es[1..], expire);
    }
  }

  /** So from every store the watermark never goes back as long as no record is put while another call
      can still write: every state of such a run is settled. */
  lemma SerialRecordsNeverFall(epochs: set<Epoch>, minEpoch: Epoch, latest: Epoch, es: seq<Event>, expire: int)
    requires Legal(Init(epochs, minEpoch, latest), es, expire)
    requires PutsWhenIdle(Init(epochs, minEpoch, latest), es, expire)
    ensures NeverFalls(Init(epochs, minEpoch, latest), es, expire)
    ensures !CanFallAlone(Exec(Init(epochs, minEpoch, latest), es, expire), expire)
  {
    IdlePutsNeverFall(Init(epochs, minEpoch, latest), es, expire);
    WatermarkCanFallIff(Exec(Init(epochs, minEpoch, latest), es, expire), expire);
  }

  /** And two records of new epochs `a < b` put one after the other, both old enough to move the
      watermark, can make it go back. */
  lemma WatermarkMayFall(epochs: set<Epoch>, minEpoch: Epoch, latest: Epoch, a: Epoch, b: Epoch, expire: nat)
    requires latest < a < b && minEpoch < a - expire
    ensures CanFall(Init(epochs, minEpoch, latest), expire)
  {
    var s0 := Init(epochs, minEpoch, latest);
    var s1 := Apply(s0, Put(a), expire);
    var s2 := Apply(s1, Put(b), expire);
    assert CanWrite(s2, s2.tasks[0], expire) == Some(a - expire);
    assert CanWrite(s2, s2.tasks[1], expire) == Some(b - expire);
    WatermarkCanFallIff(s2, expire);
    CanFallBefore(s1, Put(b), expire);
    CanFallBefore(s0, Put(a), expire);
  }
}
