/** The key-value slash filter: an index by (miner, epoch) and an index by (miner, parents). */
module LocalFilter {
  import opened Chain
  import opened Faults

  datatype LocalStore = LocalStore(
    byEpoch: map<(Address, Epoch), Cid>,
    byParents: map<(Address, TipSetKey), Cid>)

  const EMPTY := LocalStore(map[], map[])

  predicate Has(s: LocalStore, bh: Header) {
    (bh.miner, bh.height) in s.byEpoch
  }

  /** Only a successful block is recorded locally. */
  function Put(s: LocalStore, bh: Header, state: StateMining): LocalStore {
    if state != Success then s else
    LocalStore(
      s.byEpoch[(bh.miner, bh.height) := CidOf(bh)],
      s.byParents[(bh.miner, bh.parents) := CidOf(bh)])
  }

  function CheckFault(s: LocalStore, bh: Header): Verdict {
    if (bh.miner, bh.parents) in s.byParents && s.byParents[(bh.miner, bh.parents)] != CidOf(bh)
    then OffsetFault(s.byParents[(bh.miner, bh.parents)])
    else Clear
  }

  function CheckGrinding(s: LocalStore, bh: Header, parentEpoch: Epoch): Verdict {
    if (bh.miner, parentEpoch) in s.byEpoch && s.byEpoch[(bh.miner, parentEpoch)] !in bh.parents
    then GrindingFault(s.byEpoch[(bh.miner, parentEpoch)])
    else Clear
  }

  function Mined(s: LocalStore, bh: Header, parentEpoch: Epoch): Verdict {
    if CheckFault(s, bh) != Clear then CheckFault(s, bh) else CheckGrinding(s, bh, parentEpoch)
  }

  /** With failing datastores the call ends at the first error. */
  function MinedWith(s: LocalStore, bh: Header, parentEpoch: Epoch, bad: set<Access>): (v: Verdict)
    ensures v == Clear <==> bad == {} && Mined(s, bh, parentEpoch) == Clear
    ensures bad == {} ==> v == Mined(s, bh, parentEpoch)
  {
    if ByParents in bad then StoreError
    else if CheckFault(s, bh) != Clear then CheckFault(s, bh)
    else if ByEpoch in bad then StoreError
    else AllAccessesWork(bad); CheckGrinding(s, bh, parentEpoch)
  }

  /** A put may stop between its two writes. */
  function PutWith(s: LocalStore, bh: Header, state: StateMining, bad: set<Access>): (s': LocalStore)
    ensures state != Success || bad == {} ==> s' == Put(s, bh, state)
    ensures s'.byEpoch == if bad == {} then Put(s, bh, state).byEpoch else s.byEpoch
    ensures s'.byParents == if ByParents in bad then s.byParents else Put(s, bh, state).byParents
  {
    if state != Success || ByParents in bad then s
    else if ByEpoch in bad then s.(byParents := Put(s, bh, state).byParents)
    else AllAccessesWork(bad); Put(s, bh, state)
  }

  /** `localSlashFilter`: the two datastores are updated in place. */
  class LocalSlashFilter {
    var byEpoch: map<(Address, Epoch), Cid>
    var byParents: map<(Address, TipSetKey), Cid>

    constructor ()
      ensures View() == EMPTY
    {
      byEpoch, byParents := map[], map[];
    }

    function View(): LocalStore
      reads this
    {
      LocalStore(byEpoch, byParents)
    }

    /** `None` is an error. */
    method HasBlock(bh: Header, bad: set<Access>) returns (found: Option<bool>)
      ensures found == if ByEpoch in bad then None else Some(Has(View(), bh))
    {
      if ByEpoch in bad {
        return None;
      }
      found := Some((bh.miner, bh.height) in byEpoch);
    }

    method PutBlock(bh: Header, parentEpoch: Epoch, state: StateMining, bad: set<Access>) returns (ok: bool)
      modifies this
      ensures View() == PutWith(old(View()), bh, state, bad)
      ensures ok <==> state != Success || bad == {}
      ensures byParents == if state == Success && ByParents !in bad
                           then old(byParents)[(bh.miner, bh.parents) := CidOf(bh)] else old(byParents)
      ensures byEpoch == if state == Success && bad == {}
                         then old(byEpoch)[(bh.miner, bh.height) := CidOf(bh)] else old(byEpoch)
    {
      if state != Success {
        return true;
      }
      if ByParents in bad {
        return false;
      }
      byParents := byParents[(bh.miner, bh.parents) := CidOf(bh)];
      if ByEpoch in bad {
        return false;
      }
      byEpoch := byEpoch[(bh.miner, bh.height) := CidOf(bh)];
      AllAccessesWork(bad);
      ok := true;
    }

    method MinedBlock(bh: Header, parentEpoch: Epoch, bad: set<Access>) returns (v: Verdict)
      ensures v == MinedWith(View(), bh, parentEpoch, bad)
      ensures v == Clear <==>
              && bad == {}
              && ((bh.miner, bh.parents) in byParents ==> byParents[(bh.miner, bh.parents)] == CidOf(bh))
              && ((bh.miner, parentEpoch) in byEpoch ==> byEpoch[(bh.miner, parentEpoch)] in bh.parents)
      ensures ByParents !in bad ==>
                (v.OffsetFault? <==>
                 (bh.miner, bh.parents) in byParents && byParents[(bh.miner, bh.parents)] != CidOf(bh))
      ensures v.OffsetFault? ==> (bh.miner, bh.parents) in byParents && v.other == byParents[(bh.miner, bh.parents)]
      ensures v.GrindingFault? ==>
                && (bh.miner, parentEpoch) in byEpoch
                && v.expected == byEpoch[(bh.miner, parentEpoch)] && v.expected !in bh.parents
    {
      if ByParents in bad {
        return StoreError;
      }
      if (bh.miner, bh.parents) in byParents {
        var other := byParents[(bh.miner, bh.parents)];
        if other != CidOf(bh) {
          return OffsetFault(other);
        }
      }
      if ByEpoch in bad {
        return StoreError;
      }
      AllAccessesWork(bad);
      if (bh.miner, parentEpoch) in byEpoch {
        var parent := byEpoch[(bh.miner, parentEpoch)];
        var found := false;
        for i := 0 to |bh.parents|
          invariant found <==> parent in bh.parents[..i]
        {
          if bh.parents[i] == parent {
            found := true;
          }
        }
        assert bh.parents[..|bh.parents|] == bh.parents;
        if !found {
          return GrindingFault(parent);
        }
      }
      v := Clear;
    }
  }
}
