/** The mine recorder: an epoch-indexed store with right-biased merging and a persisted watermark. */
module Recorder {
  import opened Chain
  import RecorderKeys

  type Records = map<string, string>

  const MAX_RECORD_PER_QUERY: nat := 288
  const EXPIRE_EPOCH: int := 7 * 2880

  /** `contents` and `minEpoch` are persisted; `latest` is forgotten by a restart. */
  datatype Store = Store(contents: map<(Epoch, Address), Records>, minEpoch: Option<Epoch>, latest: Epoch)

  const EMPTY := Store(map[], None, 0)

  /** Where a datastore error ends a call of `Record`: before its put, or in its cleaning, after the
      records in `gone` were deleted. */
  datatype Fault = NoFault | BeforePut | InClean(gone: set<(Epoch, Address)>)

  datatype Op = Record(miner: Address, epoch: Epoch, r: Records, fault: Fault) | Restart

  function Max(a: int, b: int): int {
    if a < b then b else a
  }

  // ---- What the operations do ----

  function Lookup(s: Store, epoch: Epoch, miner: Address): Records {
    if (epoch, miner) in s.contents then s.contents[(epoch, miner)] else map[]
  }

  function DeleteRange(c: map<(Epoch, Address), Records>, from: Epoch, to: Epoch): map<(Epoch, Address), Records> {
    map k | k in c && !(from <= k.0 < to) :: c[k]
  }

  function DeleteSome(
    c: map<(Epoch, Address), Records>, from: Epoch, to: Epoch, gone: set<(Epoch, Address)>)
    : map<(Epoch, Address), Records>
  {
    map k | k in c && !(from <= k.0 < to && k in gone) :: c[k]
  }

  function CleanBefore(s: Store, deadline: Epoch, fault: Fault): Store {
    if s.minEpoch.None? then (if fault.InClean? then s else s.(minEpoch := Some(deadline)))
    else if deadline <= s.minEpoch.value then s
    else if fault.InClean? then s.(contents := DeleteSome(s.contents, s.minEpoch.value, deadline, fault.gone))
    else s.(contents := DeleteRange(s.contents, s.minEpoch.value, deadline), minEpoch := Some(deadline))
  }

  function CleanExpire(s: Store, epoch: Epoch, fault: Fault): Store {
    if epoch > s.latest then CleanBefore(s.(latest := epoch), epoch - EXPIRE_EPOCH, fault) else s
  }

  function Stored(s: Store, miner: Address, epoch: Epoch, r: Records): Store {
    s.(contents := s.contents[(epoch, miner) := Lookup(s, epoch, miner) + r])
  }

  function Apply(s: Store, op: Op): Store {
    match op
    case Record(m, e, r, fault) => if fault == BeforePut then s else CleanExpire(Stored(s, m, e, r), e, fault)
    case Restart => s.(latest := 0)
  }

  function Run(s: Store, ops: seq<Op>): Store {
    if ops == [] then s else Apply(Run(s, ops[..|ops| - 1]), ops[|ops| - 1])
  }

  lemma RunSnoc(s: Store, ops: seq<Op>, op: Op)
    ensures Run(s, ops + [op]) == Apply(Run(s, ops), op)
  {
    assert (ops + [op])[..|ops|] == ops;
  }

  // ---- What a history means ----

  /** The operation put a record. */
  predicate Puts(op: Op) {
    op.Record? && op.fault != BeforePut
  }

  predicate PutsAt(op: Op, epoch: Epoch, miner: Address) {
    Puts(op) && op.epoch == epoch && op.miner == miner
  }

  /** The highest positive epoch recorded, 0 if there is none. */
  function MaxEpoch(ops: seq<Op>): Epoch {
    if ops == [] then 0 else
    var last := ops[|ops| - 1];
    if Puts(last) then Max(MaxEpoch(ops[..|ops| - 1]), last.epoch) else MaxEpoch(ops[..|ops| - 1])
  }

  /** The lowest epoch that has not expired. */
  function Expiry(ops: seq<Op>): Epoch {
    MaxEpoch(ops) - EXPIRE_EPOCH
  }

  predicate Recorded(ops: seq<Op>, epoch: Epoch, miner: Address) {
    exists i | 0 <= i < |ops| :: PutsAt(ops[i], epoch, miner)
  }

  /** All records ever made for (epoch, miner), later ones over earlier ones. */
  function Merged(ops: seq<Op>, epoch: Epoch, miner: Address): Records {
    if ops == [] then map[] else
    var last := ops[|ops| - 1];
    var before := Merged(ops[..|ops| - 1], epoch, miner);
    if PutsAt(last, epoch, miner) then before + last.r else before
  }

  /** No record is older than the highest epoch so far minus the expiry, and none is at epoch 0 or below. */
  predicate Timely(ops: seq<Op>) {
    forall i | 0 <= i < |ops| && ops[i].Record? :: ops[i].epoch > 0 && ops[i].epoch >= Expiry(ops[..i])
  }

  /** No cleaning was cut off by an error. */
  predicate CleansEnd(ops: seq<Op>) {
    forall op | op in ops && op.Record? :: !op.fault.InClean?
  }

  // ---- Refinement over every history, with restarts and errors ----

  /** The watermark never passes the expiry, whatever the order of records, errors and restarts. */
  predicate WatermarkOk(s: Store, ops: seq<Op>) {
    && 0 <= s.latest <= MaxEpoch(ops)
    && (s.minEpoch.Some? ==> MaxEpoch(ops) > 0 && s.minEpoch.value <= Expiry(ops))
  }

  lemma {:induction false} WatermarkIsBounded(ops: seq<Op>)
    ensures WatermarkOk(Run(EMPTY, ops), ops)
  {
    if ops != [] {
      WatermarkIsBounded(ops[..|ops| - 1]);
    }
  }

  /** As long as every cleaning ends it is the highest positive epoch minus the expiry. */
  lemma {:induction false} WatermarkIsMax(ops: seq<Op>)
    requires CleansEnd(ops)
    ensures Run(EMPTY, ops).minEpoch == if MaxEpoch(ops) > 0 then Some(MaxEpoch(ops) - 7 * 2880) else None
  {
    if ops != [] {
      var n := |ops| - 1;
      assert ops[n] in ops && forall op | op in ops[..n] :: op in ops;
      WatermarkIsMax(ops[..n]);
      WatermarkIsBounded(ops[..n]);
    }
  }

  predicate Holds(s: Store, ops: seq<Op>, e: Epoch, m: Address) {
    && ((e, m) in s.contents <==> Recorded(ops, e, m))
    && ((e, m) in s.contents ==> s.contents[(e, m)] == Merged(ops, e, m))
  }

  /** What has not expired, and everything while there is no watermark, is the merge of all records. */
  ghost predicate RetainsAll(s: Store, ops: seq<Op>) {
    forall e, m | s.minEpoch.None? || e >= Expiry(ops) :: Holds(s, ops, e, m)
  }

  lemma RecordedSnoc(ops: seq<Op>, e: Epoch, m: Address)
    requires ops != []
    ensures Recorded(ops, e, m) <==> Recorded(ops[..|ops| - 1], e, m) || PutsAt(ops[|ops| - 1], e, m)
  {
    var n := |ops| - 1;
    if Recorded(ops[..n], e, m) {
      var i :| 0 <= i < n && PutsAt(ops[..n][i], e, m);
      assert PutsAt(ops[i], e, m);
    }
    if Recorded(ops, e, m) {
      var i :| 0 <= i < |ops| && PutsAt(ops[i], e, m);
      if i < n {
        assert PutsAt(ops[..n][i], e, m);
      }
    }
  }

  lemma {:induction false} UnrecordedMergesToNothing(ops: seq<Op>, e: Epoch, m: Address)
    requires !Recorded(ops, e, m)
    ensures Merged(ops, e, m) == map[]
  {
    if ops != [] {
      RecordedSnoc(ops, e, m);
      UnrecordedMergesToNothing(ops[..|ops| - 1], e, m);
    }
  }

  lemma StoredHolds(s: Store, ops: seq<Op>, e: Epoch, m: Address)
    requires ops != [] && Puts(ops[|ops| - 1]) && Holds(s, ops[..|ops| - 1], e, m)
    ensures var op := ops[|ops| - 1]; Holds(Stored(s, op.miner, op.epoch, op.r), ops, e, m)
  {
    RecordedSnoc(ops, e, m);
    if !Recorded(ops[..|ops| - 1], e, m) {
      UnrecordedMergesToNothing(ops[..|ops| - 1], e, m);
    }
  }

  lemma StepHolds(s: Store, ops: seq<Op>, e: Epoch, m: Address)
    requires ops != [] && Holds(s, ops[..|ops| - 1], e, m) && WatermarkOk(s, ops[..|ops| - 1])
    requires var s' := Apply(s, ops[|ops| - 1]); s'.minEpoch.None? || e >= Expiry(ops)
    ensures Holds(Apply(s, ops[|ops| - 1]), ops, e, m)
  {
    if Puts(ops[|ops| - 1]) {
      StoredHolds(s, ops, e, m);
    } else {
      RecordedSnoc(ops, e, m);
    }
  }

  lemma {:induction false} RetainedIsExact(ops: seq<Op>)
    ensures RetainsAll(Run(EMPTY, ops), ops)
  {
    if ops != [] {
      var n := |ops| - 1;
      RetainedIsExact(ops[..n]);
      WatermarkIsBounded(ops[..n]);
      var before, after := Run(EMPTY, ops[..n]), Run(EMPTY, ops);
      forall e, m | after.minEpoch.None? || e >= Expiry(ops)
        ensures Holds(after, ops, e, m)
      {
        assert Holds(before, ops[..n], e, m);
        StepHolds(before, ops, e, m);
      }
    }
  }

  // ---- What is left below the watermark ----

  /** No record below the watermark, where there is one. */
  predicate AllAbove(s: Store) {
    s.minEpoch.Some? ==> forall k | k in s.contents :: k.0 >= s.minEpoch.value
  }

  /** Operation `i` is the one that writes the first watermark. */
  predicate SetsWatermark(ops: seq<Op>, i: nat)
    requires i < |ops|
  {
    var s := Run(EMPTY, ops[..i]);
    ops[i].Record? && ops[i].fault == NoFault && s.minEpoch.None? && ops[i].epoch > s.latest
  }

  /** The first watermark is not above any record put before it. */
  predicate FirstCleaningReachesAll(ops: seq<Op>) {
    forall i, j | 0 <= j < i < |ops| && SetsWatermark(ops, i) && Puts(ops[j]) ::
      ops[j].epoch >= ops[i].epoch - EXPIRE_EPOCH
  }

  /** The new last operation alone decides. */
  lemma ReachesAllSnoc(ops: seq<Op>)
    requires ops != []
    ensures var n := |ops| - 1;
            FirstCleaningReachesAll(ops) <==>
            && FirstCleaningReachesAll(ops[..n])
            && (SetsWatermark(ops, n) ==>
                  forall j | 0 <= j < n && Puts(ops[j]) :: ops[j].epoch >= ops[n].epoch - EXPIRE_EPOCH)
  {
    var n := |ops| - 1;
    forall i | 0 <= i < n
      ensures SetsWatermark(ops[..n], i) <==> SetsWatermark(ops, i)
    {
      assert ops[..n][..i] == ops[..i];
    }
    if FirstCleaningReachesAll(ops[..n]) {
      forall i, j | 0 <= j < i < n && SetsWatermark(ops, i) && Puts(ops[j])
        ensures ops[j].epoch >= ops[i].epoch - EXPIRE_EPOCH
      {
        assert ops[..n][j] == ops[j] && ops[..n][i] == ops[i];
      }
    }
    if FirstCleaningReachesAll(ops) {
      forall i, j | 0 <= j < i < n && SetsWatermark(ops[..n], i) && Puts(ops[..n][j])
        ensures ops[..n][j].epoch >= ops[..n][i].epoch - EXPIRE_EPOCH
      {
        assert SetsWatermark(ops, i) && ops[..n][j] == ops[j];
      }
    }
  }

  /** Once there is a watermark, a timely step leaves nothing below it and picks nothing up there. */
  lemma StepKeepsAbove(s: Store, op: Op)
    requires s.minEpoch.Some? && (op.Record? ==> op.epoch >= s.minEpoch.value)
    ensures AllAbove(Apply(s, op)) <==> AllAbove(s)
  {
    if Puts(op) {
      var t := Stored(s, op.miner, op.epoch, op.r);
      assert AllAbove(t) <==> AllAbove(s) by {
        assert forall k | k in s.contents :: k in t.contents;
      }
      CleanKeepsAbove(t, op.epoch, op.fault);
    }
  }

  lemma CleanKeepsAbove(s: Store, epoch: Epoch, fault: Fault)
    requires s.minEpoch.Some?
    ensures AllAbove(CleanExpire(s, epoch, fault)) <==> AllAbove(s)
  {
    var s' := CleanExpire(s, epoch, fault);
    assert forall k | k in s.contents && k.0 < s.minEpoch.value :: k in s'.contents;
  }

  /** Writing the first watermark leaves nothing below it exactly when no record lies there. */
  lemma FirstWatermark(ops: seq<Op>)
    requires ops != [] && SetsWatermark(ops, |ops| - 1)
    ensures var n := |ops| - 1;
            AllAbove(Run(EMPTY, ops)) <==>
            forall j | 0 <= j < n && Puts(ops[j]) :: ops[j].epoch >= ops[n].epoch - EXPIRE_EPOCH
  {
    var n := |ops| - 1;
    var before, after := Run(EMPTY, ops[..n]), Run(EMPTY, ops);
    RetainedIsExact(ops[..n]);
    assert after.minEpoch == Some(ops[n].epoch - EXPIRE_EPOCH);
    forall j | 0 <= j < n && Puts(ops[j])
      ensures (ops[j].epoch, ops[j].miner) in after.contents
    {
      assert PutsAt(ops[..n][j], ops[j].epoch, ops[j].miner);
      assert Holds(before, ops[..n], ops[j].epoch, ops[j].miner);
    }
    forall k | k in after.contents && k != (ops[n].epoch, ops[n].miner)
      ensures exists j | 0 <= j < n :: PutsAt(ops[j], k.0, k.1)
    {
      assert Holds(before, ops[..n], k.0, k.1);
      var j :| 0 <= j < n && PutsAt(ops[..n][j], k.0, k.1);
      assert PutsAt(ops[j], k.0, k.1);
    }
  }

  /** Over every timely history, with errors and restarts: nothing is left below the watermark if and
      only if the Record that wrote the first watermark found nothing below its own deadline. */
  lemma {:induction false} NothingBelowWatermarkIff(ops: seq<Op>)
    requires Timely(ops)
    ensures AllAbove(Run(EMPTY, ops)) <==> FirstCleaningReachesAll(ops)
  {
    if ops != [] {
      var n := |ops| - 1;
      var before := Run(EMPTY, ops[..n]);
      assert forall i | 0 <= i < n :: ops[..n][i] == ops[i] && ops[..n][..i] == ops[..i];
      NothingBelowWatermarkIff(ops[..n]);
      ReachesAllSnoc(ops);
      if SetsWatermark(ops, n) {
        FirstWatermark(ops);
      } else if before.minEpoch.Some? {
        WatermarkIsBounded(ops[..n]);
        StepKeepsAbove(before, ops[n]);
      }
    }
  }

  lemma {:induction false} PositiveMax(ops: seq<Op>, e: Epoch, m: Address)
    requires Recorded(ops, e, m)
    ensures MaxEpoch(ops) >= e
  {
    RecordedSnoc(ops, e, m);
    if Recorded(ops[..|ops| - 1], e, m) {
      PositiveMax(ops[..|ops| - 1], e, m);
    }
  }

  lemma CleansEndReachesAll(ops: seq<Op>)
    requires Timely(ops) && CleansEnd(ops)
    ensures FirstCleaningReachesAll(ops)
  {
    forall i, j | 0 <= j < i < |ops| && Puts(ops[j])
      ensures !SetsWatermark(ops, i)
    {
      assert PutsAt(ops[..i][j], ops[j].epoch, ops[j].miner);
      PositiveMax(ops[..i], ops[j].epoch, ops[j].miner);
      WatermarkIsMax(ops[..i]);
    }
  }

  /** So nothing is, and there is a watermark from the first record on, as long as every cleaning ends. */
  lemma NothingBelowWatermark(ops: seq<Op>)
    requires Timely(ops) && CleansEnd(ops)
    ensures AllAbove(Run(EMPTY, ops))
    ensures Run(EMPTY, ops).minEpoch.None? ==> Run(EMPTY, ops).contents == map[]
  {
    var s := Run(EMPTY, ops);
    CleansEndReachesAll(ops);
    NothingBelowWatermarkIff(ops);
    RetainedIsExact(ops);
    WatermarkIsMax(ops);
    forall k | k in s.contents
      ensures s.minEpoch.Some?
    {
      if s.minEpoch.None? {
        assert Holds(s, ops, k.0, k.1);
      }
      if Recorded(ops, k.0, k.1) {
        var i :| 0 <= i < |ops| && PutsAt(ops[i], k.0, k.1);
        PositiveMax(ops, k.0, k.1);
      }
    }
  }

  /** And what is left below it is left there for good. */
  lemma {:induction false} LeftForGood(ops: seq<Op>, more: seq<Op>)
    requires Timely(ops + more) && !AllAbove(Run(EMPTY, ops))
    ensures !AllAbove(Run(EMPTY, ops + more))
  {
    var all := ops + more;
    forall i | 0 <= i < |ops|
      ensures all[i] == ops[i] && all[..i] == ops[..i]
    {
    }
    NothingBelowWatermarkIff(ops);
    NothingBelowWatermarkIff(all);
    var i, j :| 0 <= j < i < |ops| && SetsWatermark(ops, i) && Puts(ops[j])
                && ops[j].epoch < ops[i].epoch - EXPIRE_EPOCH;
    assert SetsWatermark(all, i) && Puts(all[j]);
  }

  /** A first cleaning that an error cut off can leave a record behind that way. */
  lemma ExpiredRecordIsLeft(m: Address, e: Epoch, r: Records, later: Epoch, r': Records)
    requires e > 0 && later - EXPIRE_EPOCH > e
    ensures var s := Run(EMPTY, [Record(m, e, r, InClean({}))] + [Record(m, later, r', NoFault)]);
            (e, m) in s.contents && s.minEpoch == Some(later - EXPIRE_EPOCH) && !AllAbove(s)
  {
    var first := Record(m, e, r, InClean({}));
    assert [] + [first] == [first];
    RunSnoc(EMPTY, [], first);
    RunSnoc(EMPTY, [first], Record(m, later, r', NoFault));
  }

  // ---- Query ----

  /** `Failed` is an error of the datastore. */
  datatype QueryResult = Found(records: seq<Records>) | ErrorExceedMaxRecordPerQuery | Failed

  function EpochText(e: Epoch): string {
    RecorderKeys.Decimal(e)
  }

  function Overlay(r: Records, miner: Address, epoch: Epoch): Records {
    r + map["miner" := miner, "epoch" := EpochText(epoch)]
  }

  /** What the store holds for one epoch, if anything. */
  function Entry(s: Store, miner: Address, epoch: Epoch): seq<Records> {
    if (epoch, miner) in s.contents then [Overlay(s.contents[(epoch, miner)], miner, epoch)] else []
  }

  /** The entries of the `n` epochs from `from` on, in ascending order. */
  function Scan(s: Store, miner: Address, from: Epoch, n: nat): seq<Records> {
    if n == 0 then [] else
    Scan(s, miner, from, n - 1) + Entry(s, miner, from + n - 1)
  }

  /** The same list read off the history instead of the store. */
  ghost function Expected(ops: seq<Op>, miner: Address, from: Epoch, n: nat): seq<Records> {
    if n == 0 then [] else
    Expected(ops, miner, from, n - 1)
    + if Recorded(ops, from + n - 1, miner) && from + n - 1 >= Expiry(ops)
      then [Overlay(Merged(ops, from + n - 1, miner), miner, from + n - 1)] else []
  }

  /** After every history, over errors and restarts too, a query from an epoch that has not expired
      answers exactly the merged records of each epoch in its range, in ascending order. */
  lemma {:induction false} QueryAnswersWindow(ops: seq<Op>, miner: Address, from: Epoch, n: nat)
    requires from >= Expiry(ops)
    ensures Scan(Run(EMPTY, ops), miner, from, n) == Expected(ops, miner, from, n)
  {
    if n > 0 {
      QueryAnswersWindow(ops, miner, from, n - 1);
      RetainedIsExact(ops);
      assert Holds(Run(EMPTY, ops), ops, from + n - 1, miner);
    }
  }

  /** And from any epoch, as long as records are timely and cleanings end: of the expired epochs
      nothing is answered. */
  lemma {:induction false} QueryAnswersHistory(ops: seq<Op>, miner: Address, from: Epoch, n: nat)
    requires Timely(ops) && CleansEnd(ops)
    ensures Scan(Run(EMPTY, ops), miner, from, n) == Expected(ops, miner, from, n)
  {
    if n > 0 {
      var s, e := Run(EMPTY, ops), from + n - 1;
      QueryAnswersHistory(ops, miner, from, n - 1);
      WatermarkIsMax(ops);
      RetainedIsExact(ops);
      NothingBelowWatermark(ops);
      assert AllAbove(s);
      if s.minEpoch.None? || e >= Expiry(ops) {
        assert Holds(s, ops, e, miner);
      }
      if s.minEpoch.None? && Recorded(ops, e, miner) {
        PositiveMax(ops, e, miner);
      }
    }
  }

  // ---- What an answer holds ----

  /** A queried record names its miner and epoch, and is the merged record otherwise. */
  ghost predicate IsRecordOf(r: Records, ops: seq<Op>, miner: Address, epoch: Epoch) {
    && "miner" in r && r["miner"] == miner
    && "epoch" in r && r["epoch"] == RecorderKeys.Decimal(epoch)
    && (forall k | k != "miner" && k != "epoch" ::
          && (k in r <==> k in Merged(ops, epoch, miner))
          && (k in r ==> r[k] == Merged(ops, epoch, miner)[k]))
  }

  /** The epochs of the range for which the miner has a record that has not expired, in ascending order. */
  ghost predicate AreEpochsOf(epochs: seq<Epoch>, ops: seq<Op>, miner: Address, from: Epoch, n: nat) {
    && (forall i, j | 0 <= i < j < |epochs| :: epochs[i] < epochs[j])
    && (forall e :: e in epochs <==> from <= e < from + n && Recorded(ops, e, miner) && e >= Expiry(ops))
  }

  /** One record for each of these epochs. */
  ghost predicate Answers(
    records: seq<Records>, epochs: seq<Epoch>, ops: seq<Op>, miner: Address, from: Epoch, n: nat)
  {
    && AreEpochsOf(epochs, ops, miner, from, n)
    && |records| == |epochs|
    && forall i | 0 <= i < |records| :: IsRecordOf(records[i], ops, miner, epochs[i])
  }

  ghost predicate IsAnswer(records: seq<Records>, ops: seq<Op>, miner: Address, from: Epoch, n: nat) {
    exists epochs :: Answers(records, epochs, ops, miner, from, n)
  }

  lemma OverlayIsRecordOf(ops: seq<Op>, miner: Address, epoch: Epoch)
    ensures IsRecordOf(Overlay(Merged(ops, epoch, miner), miner, epoch), ops, miner, epoch)
  {
  }

  lemma AnswersNext(
    records: seq<Records>, epochs: seq<Epoch>, ops: seq<Op>, miner: Address, from: Epoch, n: nat)
    requires Answers(records, epochs, ops, miner, from, n)
    requires Recorded(ops, from + n, miner) && from + n >= Expiry(ops)
    ensures Answers(records + [Overlay(Merged(ops, from + n, miner), miner, from + n)], epochs + [from + n],
                    ops, miner, from, n + 1)
  {
    OverlayIsRecordOf(ops, miner, from + n);
    forall i | 0 <= i < |epochs|
      ensures epochs[i] < from + n
    {
      assert epochs[i] in epochs;
    }
  }

  lemma AnswersSkip(
    records: seq<Records>, epochs: seq<Epoch>, ops: seq<Op>, miner: Address, from: Epoch, n: nat)
    requires Answers(records, epochs, ops, miner, from, n)
    requires !Recorded(ops, from + n, miner) || from + n < Expiry(ops)
    ensures Answers(records, epochs, ops, miner, from, n + 1)
  {
  }

  /** One more epoch, with its entry read off the history. */
  lemma AnswersMore(
    records: seq<Records>, epochs: seq<Epoch>, more: seq<Records>, ops: seq<Op>, miner: Address, from: Epoch, n: nat)
    returns (epochs': seq<Epoch>)
    requires Answers(records, epochs, ops, miner, from, n)
    requires more == if Recorded(ops, from + n, miner) && from + n >= Expiry(ops)
                     then [Overlay(Merged(ops, from + n, miner), miner, from + n)] else []
    ensures Answers(records + more, epochs', ops, miner, from, n + 1)
  {
    if Recorded(ops, from + n, miner) && from + n >= Expiry(ops) {
      epochs' := epochs + [from + n];
      AnswersNext(records, epochs, ops, miner, from, n);
    } else {
      epochs' := epochs;
      assert records + [] == records;
      AnswersSkip(records, epochs, ops, miner, from, n);
    }
  }

  lemma {:induction false} ExpectedAnswers(ops: seq<Op>, miner: Address, from: Epoch, n: nat)
    returns (epochs: seq<Epoch>)
    ensures Answers(Expected(ops, miner, from, n), epochs, ops, miner, from, n)
  {
    epochs := [];
    if n > 0 {
      epochs := ExpectedAnswers(ops, miner, from, n - 1);
      var more := if Recorded(ops, from + n - 1, miner) && from + n - 1 >= Expiry(ops)
                  then [Overlay(Merged(ops, from + n - 1, miner), miner, from + n - 1)] else [];
      epochs := AnswersMore(Expected(ops, miner, from, n - 1), epochs, more, ops, miner, from, n - 1);
    }
  }

  /** The answer read off the history is one record per retained epoch in range, in ascending order, each
      with its miner, its epoch in decimal and the merge of all that was recorded. */
  lemma ExpectedIsAnswer(ops: seq<Op>, miner: Address, from: Epoch, n: nat)
    ensures IsAnswer(Expected(ops, miner, from, n), ops, miner, from, n)
  {
    var epochs := ExpectedAnswers(ops, miner, from, n);
  }

  /** A record of this epoch and miner that has the key. */
  predicate PutsKey(op: Op, epoch: Epoch, miner: Address, k: string) {
    PutsAt(op, epoch, miner) && k in op.r
  }

  /** The merge has the keys of all records made, each with the value recorded last. */
  lemma {:induction false} MergedIsLatest(ops: seq<Op>, epoch: Epoch, miner: Address, k: string)
    ensures k in Merged(ops, epoch, miner) <==> exists i | 0 <= i < |ops| :: PutsKey(ops[i], epoch, miner, k)
    ensures forall i | 0 <= i < |ops| && PutsKey(ops[i], epoch, miner, k)
                       && (forall j | i < j < |ops| :: !PutsKey(ops[j], epoch, miner, k)) ::
              k in Merged(ops, epoch, miner) && Merged(ops, epoch, miner)[k] == ops[i].r[k]
  {
    if ops != [] {
      var n := |ops| - 1;
      MergedIsLatest(ops[..n], epoch, miner, k);
      assert forall i | 0 <= i < n :: ops[..n][i] == ops[i];
      if PutsKey(ops[n], epoch, miner, k) {
        assert k in Merged(ops, epoch, miner);
      } else {
        forall i | 0 <= i < n && PutsKey(ops[i], epoch, miner, k)
          ensures PutsKey(ops[..n][i], epoch, miner, k)
        {
        }
      }
    }
  }

  // ---- Merging ----

  method CoverMap(before: Records, after: Records) returns (m: Records)
    ensures m == before + after
  {
    m := map[];
    var todo := before.Keys;
    while todo != {}
      invariant todo <= before.Keys
      invariant m == map k | k in before && k !in todo :: before[k]
      decreases todo
    {
      var k :| k in todo;
      m := m[k := before[k]];
      todo := todo - {k};
    }
    assert m == before;
    todo := after.Keys;
    while todo != {}
      invariant todo <= after.Keys
      invariant m == before + map k | k in after && k !in todo :: after[k]
      decreases todo
    {
      var k :| k in todo;
      m := m[k := after[k]];
      todo := todo - {k};
    }
    assert (map k | k in after && k !in todo :: after[k]) == after;
  }
}
