/** The recorder object over a datastore of string keys that may fail at any call. What the datastore
    holds is, at all times, the abstract store that the history of records, errors and restarts makes. */
module RecorderObject {
  import opened Chain
  import opened Recorder
  import opened RecorderDatastore
  import opened RecorderKeys

  datatype Reply<T> = Got(value: T) | NotFound | Error

  class DefaultRecorder {
    var ds: Datastore
    var latestRecordEpoch: Epoch
    ghost var history: seq<Op>
    /** The calls of the datastore that failed. */
    ghost var failures: nat

    /** A new process over what an older one left. */
    constructor (ds: Datastore, ghost before: seq<Op>)
      requires Represents(ds, Run(EMPTY, before))
      ensures Valid() && history == before + [Restart]
      ensures this.ds == ds && latestRecordEpoch == 0
    {
      this.ds, latestRecordEpoch, history, failures := ds, 0, before + [Restart], 0;
      new;
      RunSnoc(EMPTY, before, Restart);
    }

    /** The datastore holds what the history makes. */
    ghost predicate Valid()
      reads this
    {
      Represents(ds, Run(EMPTY, history)) && latestRecordEpoch == Run(EMPTY, history).latest
    }

    // ---- The datastore's own calls ----

    method Get(k: string) returns (reply: Reply<Value>)
      modifies this`failures
      ensures reply == Error || reply == if k in ds then Got(ds[k]) else NotFound
      ensures failures == old(failures) + if reply == Error then 1 else 0
    {
      var fails: bool := *;
      if fails {
        failures := failures + 1;
        return Error;
      }
      reply := if k in ds then Got(ds[k]) else NotFound;
    }

    method Put(k: string, v: Value) returns (ok: bool)
      modifies this`ds, this`failures
      ensures ds == if ok then old(ds)[k := v] else old(ds)
      ensures failures == old(failures) + if ok then 0 else 1
    {
      ok := *;
      if ok {
        ds := ds[k := v];
      } else {
        failures := failures + 1;
      }
    }

    method Delete(k: string) returns (ok: bool)
      modifies this`ds, this`failures
      ensures ds == if ok then old(ds) - {k} else old(ds)
      ensures failures == old(failures) + if ok then 0 else 1
    {
      ok := *;
      if ok {
        ds := ds - {k};
      } else {
        failures := failures + 1;
      }
    }

    /** The keys below the prefix. */
    method QueryKeys(prefix: string) returns (found: Option<set<string>>)
      modifies this`failures
      ensures found in {None, Some(set k | k in ds.Keys && Below(prefix, k))}
      ensures failures == old(failures) + if found.None? then 1 else 0
    {
      var fails: bool := *;
      if fails {
        failures := failures + 1;
        return None;
      }
      found := Some(set k | k in ds.Keys && Below(prefix, k));
    }

    // ---- The recorder ----

    /** A value that does not decode is an error. */
    method GetRecords(miner: Address, epoch: Epoch, ghost s: Store) returns (reply: Reply<Records>)
      requires Represents(ds, s)
      modifies this`failures
      ensures reply == Error
           || reply == if (epoch, miner) in s.contents then Got(s.contents[(epoch, miner)]) else NotFound
      ensures failures == old(failures) + if reply == Error then 1 else 0
    {
      var found := Get(Key(miner, epoch));
      match found
      case Error => reply := Error;
      case NotFound => reply := NotFound;
      case Got(v) => reply := if v.OfRecords? then Got(v.r) else Error;
    }

    /** Merges over what is stored. An error changes nothing. */
    method PutMerged(miner: Address, epoch: Epoch, r: Records, ghost s: Store) returns (ok: bool)
      requires Represents(ds, s)
      modifies this`ds, this`failures
      ensures Represents(ds, if ok then Stored(s, miner, epoch, r) else s)
      ensures failures == old(failures) + if ok then 0 else 1
    {
      var found := GetRecords(miner, epoch, s);
      if found == Error {
        return false;
      }
      var before := if found.Got? then found.value else map[];
      assert before == Lookup(s, epoch, miner);
      var covered := CoverMap(before, r);
      ok := Put(Key(miner, epoch), OfRecords(covered));
      PutRefines(old(ds), s, miner, epoch, covered);
    }

    /** Merges over what is stored, then cleans. An error at any call ends it. */
    method Record(miner: Address, epoch: Epoch, r: Records) returns (ok: bool, ghost fault: Fault)
      requires Valid() && Int64(epoch)
      modifies this
      ensures Valid() && history == old(history) + [Op.Record(miner, epoch, r, fault)]
      ensures ok <==> fault == NoFault
      ensures ok <==> failures == old(failures)
    {
      ghost var s := Run(EMPTY, history);
      WatermarkIsBounded(history);
      ok := PutMerged(miner, epoch, r, s);
      fault := BeforePut;
      if ok {
        ok, fault := CleanExpireNow(epoch, Stored(s, miner, epoch, r));
      }
      RunSnoc(EMPTY, history, Op.Record(miner, epoch, r, fault));
      history := history + [Op.Record(miner, epoch, r, fault)];
    }

    method CleanExpireNow(epoch: Epoch, ghost s: Store) returns (ok: bool, ghost fault: Fault)
      requires Represents(ds, s) && latestRecordEpoch == s.latest >= 0 && Int64(epoch)
      modifies this`ds, this`latestRecordEpoch, this`failures
      ensures fault != BeforePut && (ok <==> fault == NoFault) && (ok <==> failures == old(failures))
      ensures Represents(ds, CleanExpire(s, epoch, fault))
      ensures latestRecordEpoch == CleanExpire(s, epoch, fault).latest
    {
      ok, fault := true, NoFault;
      if epoch > latestRecordEpoch {
        latestRecordEpoch := epoch;
        ok, fault := CleanBeforeNow(epoch - EXPIRE_EPOCH, s.(latest := epoch));
      }
    }

    /** Deletes the epochs from the watermark to the deadline and then moves the watermark, or sets it
        when there is none. */
    method CleanBeforeNow(deadline: Epoch, ghost s: Store) returns (ok: bool, ghost fault: Fault)
      requires Represents(ds, s) && Int64(deadline)
      modifies this`ds, this`failures
      ensures fault != BeforePut && (ok <==> fault == NoFault) && (ok <==> failures == old(failures))
      ensures Represents(ds, CleanBefore(s, deadline, fault))
    {
      ok, fault := false, InClean({});
      var found := Get(META_MIN_EPOCH_KEY);
      if found.NotFound? {
        ok := Put(META_MIN_EPOCH_KEY, OfBytes(IntoBytes(deadline)));
        WatermarkRefines(old(ds), s, deadline);
        fault := if ok then NoFault else InClean({});
        return;
      }
      if found == Error {
        NothingGone(s.contents);
        return;
      }
      WatermarkRoundTrip(s.minEpoch.value, IntoBytes(s.minEpoch.value));
      var low := FromBytes(found.value.b);
      if deadline <= low {
        return true, NoFault;
      }
      ok, fault := DeleteAndMove(low, deadline, s);
    }

    /** Every epoch from `low` on, and then the watermark. */
    method DeleteAndMove(low: Epoch, deadline: Epoch, ghost s: Store) returns (ok: bool, ghost fault: Fault)
      requires Represents(ds, s) && Int64(deadline) && s.minEpoch == Some(low) && low < deadline
      modifies this`ds, this`failures
      ensures fault != BeforePut && (ok <==> fault == NoFault) && (ok <==> failures == old(failures))
      ensures Represents(ds, CleanBefore(s, deadline, fault))
    {
      ghost var gone := {};
      ok, gone := DeleteEpochs(low, deadline, s);
      fault := InClean(gone);
      if ok {
        ghost var cleaned := ds;
        ok := Put(META_MIN_EPOCH_KEY, OfBytes(IntoBytes(deadline)));
        if ok {
          fault := NoFault;
          WatermarkRefines(cleaned, s.(contents := DeleteRange(s.contents, low, deadline)), deadline);
        }
      }
    }

    method DeleteEpochs(low: Epoch, deadline: Epoch, ghost s: Store)
      returns (ok: bool, ghost gone: set<(Epoch, Address)>)
      requires Represents(ds, s) && low < deadline
      modifies this`ds, this`failures
      ensures ok <==> failures == old(failures)
      ensures Represents(ds, s.(contents := DeleteSome(s.contents, low, deadline, gone)))
      ensures ok ==> DeleteSome(s.contents, low, deadline, gone) == DeleteRange(s.contents, low, deadline)
    {
      gone := {};
      ghost var c := s.contents;
      NothingGone(c);
      for i := low to deadline
        invariant Represents(ds, s.(contents := c))
        invariant c == DeleteSome(s.contents, low, deadline, gone) == DeleteRange(s.contents, low, i)
        invariant failures == old(failures)
      {
        ghost var more;
        ok, more := DeleteEpoch(i, s.(contents := c));
        MoreGone(s.contents, low, deadline, gone, i, more);
        gone, c := gone + more, c - more;
        if !ok {
          return;
        }
      }
      ok := true;
    }

    /** Queries the keys below the epoch's prefix and deletes them one by one. */
    method DeleteEpoch(i: Epoch, ghost s: Store) returns (ok: bool, ghost gone: set<(Epoch, Address)>)
      requires Represents(ds, s)
      modifies this`ds, this`failures
      ensures ok <==> failures == old(failures)
      ensures Represents(ds, s.(contents := s.contents - gone))
      ensures forall k | k in gone :: k.0 == i
      ensures ok ==> forall k | k in s.contents && k.0 == i :: k in gone
    {
      gone := {};
      ghost var t := s;
      assert s.contents - {} == s.contents;
      var prefix := "/" + Decimal(i);
      var answer := QueryKeys(prefix);
      if answer.None? {
        return false, gone;
      }
      var found := answer.value;
      while found != {}
        invariant failures == old(failures)
        invariant Represents(ds, t) && t == s.(contents := s.contents - gone)
        invariant forall k | k in gone :: k.0 == i
        invariant forall k | k in ds && Below(prefix, k) :: k in found
        invariant found <= ds.Keys && forall k | k in found :: Below(prefix, k)
        decreases found
      {
        var k :| k in found;
        ghost var miner := FoundIsRecord(ds, t, i, k);
        DeleteRefines(ds, t, miner, i);
        ok := Delete(k);
        if !ok {
          return;
        }
        assert t.contents - {(i, miner)} == s.contents - (gone + {(i, miner)});
        gone := gone + {(i, miner)};
        t := s.(contents := s.contents - gone);
        found := found - {k};
      }
      NothingFound(ds, t, i);
      ok := true;
    }

    /** The turn of a query for one epoch; `None` is an error. */
    method QueryEpoch(miner: Address, epoch: Epoch, ghost s: Store) returns (entry: Option<seq<Records>>)
      requires Represents(ds, s)
      modifies this`failures
      ensures entry in {None, Some(Entry(s, miner, epoch))}
      ensures failures == old(failures) + if entry.None? then 1 else 0
    {
      var found := GetRecords(miner, epoch, s);
      match found
      case Error => entry := None;
      case NotFound => entry := Some([]);
      case Got(r) =>
        var covered := CoverMap(r, map["miner" := miner, "epoch" := EpochText(epoch)]);
        entry := Some([covered]);
    }

    method QueryRange(miner: Address, from: Epoch, count: nat, ghost s: Store) returns (ret: Option<seq<Records>>)
      requires Represents(ds, s)
      modifies this`failures
      ensures ret in {None, Some(Scan(s, miner, from, count))}
      ensures failures == old(failures) + if ret.None? then 1 else 0
    {
      var records := [];
      for i := 0 to count
        invariant records == Scan(s, miner, from, i)
        invariant failures == old(failures)
      {
        var entry := QueryEpoch(miner, from + i, s);
        if entry.None? {
          return None;
        }
        records := records + entry.value;
      }
      ret := Some(records);
    }

    method QueryNow(miner: Address, from: Epoch, limit: nat, ghost s: Store) returns (q: QueryResult)
      requires Represents(ds, s)
      modifies this`failures
      ensures limit > 288 <==> q == ErrorExceedMaxRecordPerQuery
      ensures failures == old(failures) + if q == Failed then 1 else 0
      ensures limit <= 288 ==> q == Failed || q == Found(Scan(s, miner, from, if limit == 0 then 1 else limit))
    {
      if limit > MAX_RECORD_PER_QUERY {
        return ErrorExceedMaxRecordPerQuery;
      }
      var ret := QueryRange(miner, from, if limit == 0 then 1 else limit, s);
      q := if ret.None? then Failed else Found(ret.value);
    }

    /** Whatever was recorded, lost to errors or cleaned before: for epochs that have not expired, and for
        any as long as records are timely and cleanings end, the answer is one record per retained epoch
        of the range, in ascending order, with miner, epoch and all that was recorded. */
    method Query(miner: Address, from: Epoch, limit: nat) returns (q: QueryResult)
      requires Valid()
      modifies this`failures
      ensures Valid() && history == old(history)
      ensures limit > 288 <==> q == ErrorExceedMaxRecordPerQuery
      ensures failures == old(failures) + if q == Failed then 1 else 0
      ensures var n := if limit == 0 then 1 else limit;
              limit <= 288 ==> q == Failed || q == Found(Scan(Run(EMPTY, history), miner, from, n))
      ensures var n := if limit == 0 then 1 else limit;
              limit <= 288 && (from >= Expiry(history) || (Timely(history) && CleansEnd(history))) ==>
                q == Failed || (q.Found? && IsAnswer(q.records, history, miner, from, n))
    {
      q := QueryNow(miner, from, limit, Run(EMPTY, history));
      QueryIsExpected(history, miner, from, if limit == 0 then 1 else limit);
      ExpectedIsAnswer(history, miner, from, if limit == 0 then 1 else limit);
    }
  }

  lemma QueryIsExpected(history: seq<Op>, miner: Address, from: Epoch, n: nat)
    ensures from >= Expiry(history) || (Timely(history) && CleansEnd(history)) ==>
              Scan(Run(EMPTY, history), miner, from, n) == Expected(history, miner, from, n)
  {
    if from >= Expiry(history) {
      QueryAnswersWindow(history, miner, from, n);
    } else if Timely(history) && CleansEnd(history) {
      QueryAnswersHistory(history, miner, from, n);
    }
  }

  /** Epoch by epoch, what is gone is what is deleted. */
  lemma MoreGone(
    c: map<(Epoch, Address), Records>, low: Epoch, deadline: Epoch, gone: set<(Epoch, Address)>,
    i: Epoch, more: set<(Epoch, Address)>)
    requires low <= i < deadline && DeleteSome(c, low, deadline, gone) == DeleteRange(c, low, i)
    requires forall k | k in more :: k.0 == i
    ensures DeleteSome(c, low, deadline, gone) - more == DeleteSome(c, low, deadline, gone + more)
    ensures (forall k | k in DeleteRange(c, low, i) && k.0 == i :: k in more) ==>
              DeleteSome(c, low, deadline, gone + more) == DeleteRange(c, low, i + 1)
  {
    var left, right := DeleteSome(c, low, deadline, gone) - more, DeleteSome(c, low, deadline, gone + more);
    assert forall k :: k in left <==> k in right;
    assert left == right;
    if forall k | k in DeleteRange(c, low, i) && k.0 == i :: k in more {
      assert forall k :: k in left <==> k in DeleteRange(c, low, i + 1);
      assert left == DeleteRange(c, low, i + 1);
    }
  }

  lemma NothingGone(c: map<(Epoch, Address), Records>)
    ensures forall from, to :: DeleteSome(c, from, to, {}) == c
    ensures forall from :: DeleteRange(c, from, from) == c
  {
  }
}
