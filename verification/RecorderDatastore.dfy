/** The abstract recorder store as string keys and values of one datastore. */
module RecorderDatastore {
  import opened Chain
  import opened Recorder
  import opened RecorderKeys

  datatype Value = OfRecords(r: Records) | OfBytes(b: seq<Byte>)

  type Datastore = map<string, Value>

  ghost predicate RecordsStored(ds: Datastore, contents: map<(Epoch, Address), Records>) {
    && (forall e, m :: (e, m) in contents <==> Key(m, e) in ds)
    && (forall e, m | (e, m) in contents :: ds[Key(m, e)] == OfRecords(contents[(e, m)]))
    && (forall k | k in ds && k != META_MIN_EPOCH_KEY :: exists e, m :: k == Key(m, e))
  }

  predicate WatermarkStored(ds: Datastore, minEpoch: Option<Epoch>) {
    if minEpoch.None? then META_MIN_EPOCH_KEY !in ds
    else Int64(minEpoch.value)
         && META_MIN_EPOCH_KEY in ds
         && ds[META_MIN_EPOCH_KEY] == OfBytes(IntoBytes(minEpoch.value))
  }

  ghost predicate Represents(ds: Datastore, s: Store) {
    RecordsStored(ds, s.contents) && WatermarkStored(ds, s.minEpoch)
  }

  /** Writing one record's key changes one record. */
  lemma PutRefines(ds: Datastore, s: Store, miner: Address, epoch: Epoch, r: Records)
    requires Represents(ds, s)
    ensures Represents(ds[Key(miner, epoch) := OfRecords(r)], s.(contents := s.contents[(epoch, miner) := r]))
  {
    forall e, m
      ensures Key(m, e) == Key(miner, epoch) <==> m == miner && e == epoch
      ensures Key(m, e) != META_MIN_EPOCH_KEY
    {
      KeysAreDistinct(m, e, miner, epoch);
    }
  }

  function DeleteBelow(ds: Datastore, prefix: string): Datastore {
    map k | k in ds && !Below(prefix, k) :: ds[k]
  }

  /** Deleting what the prefix query for epoch `i` finds deletes exactly that epoch's records. */
  lemma PrefixDeleteRefines(ds: Datastore, s: Store, i: Epoch)
    requires Represents(ds, s)
    ensures Represents(DeleteBelow(ds, "/" + Decimal(i)), s.(contents := DeleteRange(s.contents, i, i + 1)))
  {
    forall e, m
      ensures Below("/" + Decimal(i), Key(m, e)) <==> i == e
      ensures !Below("/" + Decimal(i), META_MIN_EPOCH_KEY)
    {
      PrefixMatchesOneEpoch(i, e, m);
    }
    PrefixMatchesOneEpoch(i, 0, "");
  }

  /** Deleting one record's key deletes one record. */
  lemma DeleteRefines(ds: Datastore, s: Store, miner: Address, epoch: Epoch)
    requires Represents(ds, s)
    ensures Represents(ds - {Key(miner, epoch)}, s.(contents := s.contents - {(epoch, miner)}))
  {
    forall e, m
      ensures Key(m, e) == Key(miner, epoch) <==> m == miner && e == epoch
      ensures Key(m, e) != META_MIN_EPOCH_KEY
    {
      KeysAreDistinct(m, e, miner, epoch);
    }
  }

  /** What the prefix query for epoch `i` finds are records of that epoch. */
  lemma FoundIsRecord(ds: Datastore, s: Store, i: Epoch, k: string) returns (miner: Address)
    requires Represents(ds, s) && k in ds && Below("/" + Decimal(i), k)
    ensures k == Key(miner, i) && (i, miner) in s.contents
  {
    PrefixMatchesOneEpoch(i, i, "");
    var e, m :| k == Key(m, e);
    PrefixMatchesOneEpoch(i, e, m);
    miner := m;
  }

  /** Once it finds nothing there are none. */
  lemma NothingFound(ds: Datastore, s: Store, i: Epoch)
    requires Represents(ds, s) && forall k | k in ds :: !Below("/" + Decimal(i), k)
    ensures forall k | k in s.contents :: k.0 != i
  {
    forall k | k in s.contents
      ensures k.0 != i
    {
      PrefixMatchesOneEpoch(i, k.0, k.1);
      assert Key(k.1, k.0) in ds;
    }
  }

  /** Writing the watermark moves the watermark only, and reading it back gives the same epoch. */
  lemma WatermarkRefines(ds: Datastore, s: Store, deadline: Epoch)
    requires Represents(ds, s) && Int64(deadline)
    ensures Represents(ds[META_MIN_EPOCH_KEY := OfBytes(IntoBytes(deadline))], s.(minEpoch := Some(deadline)))
    ensures FromBytes(IntoBytes(deadline)) == deadline
  {
    forall e, m
      ensures Key(m, e) != META_MIN_EPOCH_KEY
    {
      KeysAreDistinct(m, e, m, e);
    }
    WatermarkRoundTrip(deadline, IntoBytes(deadline));
  }
}
