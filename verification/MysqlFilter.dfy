/** The relational slash filter: one row per (miner, epoch), updated column by column. */
module MysqlFilter {
  import opened Chain
  import opened Faults

  /** A row of `miner_blocks`; an empty `cid` column is `None`. */
  datatype Row = Row(
    parentEpoch: Epoch, parentKey: TipSetKey, cid: Option<Cid>, winningAt: Option<int>, state: StateMining)

  type Rows = map<(Address, Epoch), Row>

  function RowCid(rows: Rows, m: Address, e: Epoch): Option<Cid> {
    if (m, e) in rows then rows[(m, e)].cid else None
  }

  predicate Has(rows: Rows, bh: Header) {
    RowCid(rows, bh.miner, bh.height).Some?
  }

  /** A put fails, and changes nothing, only for a timeout without a row. */
  predicate PutFails(rows: Rows, bh: Header, state: StateMining) {
    (bh.miner, bh.height) !in rows && state == Timeout
  }

  function TicketCid(bh: Header): Option<Cid> {
    if bh.ticket.Some? then Some(CidOf(bh)) else None
  }

  function Put(rows: Rows, bh: Header, parentEpoch: Epoch, at: Option<int>, state: StateMining): Rows {
    if PutFails(rows, bh, state) then rows else
    rows[(bh.miner, bh.height) :=
      if (bh.miner, bh.height) !in rows then
        Row(parentEpoch, bh.parents, TicketCid(bh), at, state)
      else
        var row := rows[(bh.miner, bh.height)];
        Row(parentEpoch,
            if bh.parents == [] then row.parentKey else bh.parents,
            if bh.ticket.Some? then Some(CidOf(bh)) else row.cid,
            row.winningAt,
            state)]
  }

  /** The row at epoch `e` answers the query for the parents of `bh`. */
  predicate SharesParents(rows: Rows, bh: Header, e: Epoch) {
    (bh.miner, e) in rows && rows[(bh.miner, e)].parentKey == bh.parents
  }

  /** `Take` without an order may answer any matching row; `pick` is the epoch of the row it answered. */
  ghost predicate ValidPick(rows: Rows, bh: Header, pick: Epoch) {
    (exists e :: SharesParents(rows, bh, e)) ==> SharesParents(rows, bh, pick)
  }

  predicate ForeignRow(rows: Rows, bh: Header, e: Epoch) {
    SharesParents(rows, bh, e) && rows[(bh.miner, e)].cid.Some? && rows[(bh.miner, e)].cid != Some(CidOf(bh))
  }

  function CheckSameParent(rows: Rows, bh: Header, pick: Epoch): Verdict {
    if ForeignRow(rows, bh, pick) then OffsetFault(rows[(bh.miner, pick)].cid.value) else Clear
  }

  function CheckGrinding(rows: Rows, bh: Header, parentEpoch: Epoch): Verdict {
    var parent := RowCid(rows, bh.miner, parentEpoch);
    if parent.Some? && parent.value !in bh.parents then GrindingFault(parent.value) else Clear
  }

  function Mined(rows: Rows, bh: Header, parentEpoch: Epoch, pick: Epoch): Verdict {
    if CheckSameParent(rows, bh, pick) != Clear
    then CheckSameParent(rows, bh, pick)
    else CheckGrinding(rows, bh, parentEpoch)
  }

  /** With failing queries the call ends at the first error. */
  function MinedWith(rows: Rows, bh: Header, parentEpoch: Epoch, pick: Epoch, bad: set<Access>): (v: Verdict)
    ensures v == Clear <==> bad == {} && Mined(rows, bh, parentEpoch, pick) == Clear
    ensures bad == {} ==> v == Mined(rows, bh, parentEpoch, pick)
  {
    if ByParents in bad then StoreError
    else if CheckSameParent(rows, bh, pick) != Clear then CheckSameParent(rows, bh, pick)
    else if ByEpoch in bad then StoreError
    else AllAccessesWork(bad); CheckGrinding(rows, bh, parentEpoch)
  }

  /** A put whose query or write fails changes nothing. */
  function PutWith(
    rows: Rows, bh: Header, parentEpoch: Epoch, at: Option<int>, state: StateMining, bad: set<Access>): Rows
  {
    if ByEpoch in bad then rows else Put(rows, bh, parentEpoch, at, state)
  }

  /** `mysqlSlashFilter` over its table. */
  class MysqlSlashFilter {
    var rows: Rows

    constructor ()
      ensures rows == map[]
    {
      rows := map[];
    }

    /** `None` is an error other than "not found". */
    method HasBlock(bh: Header, bad: set<Access>) returns (found: Option<bool>)
      ensures found == if ByEpoch in bad then None else Some(Has(rows, bh))
    {
      if ByEpoch in bad {
        return None;
      }
      if (bh.miner, bh.height) !in rows {
        return Some(false);
      }
      found := Some(rows[(bh.miner, bh.height)].cid.Some?);
    }

    method PutBlock(bh: Header, parentEpoch: Epoch, at: Option<int>, state: StateMining, bad: set<Access>)
      returns (ok: bool)
      modifies this
      ensures rows == PutWith(old(rows), bh, parentEpoch, at, state, bad)
      ensures ok <==> ByEpoch !in bad && !PutFails(old(rows), bh, state)
    {
      if ByEpoch in bad {
        return false;
      }
      if (bh.miner, bh.height) !in rows {
        if state == Timeout {
          return false;
        }
        var created := Row(parentEpoch, bh.parents, None, at, state);
        if bh.ticket.Some? {
          created := created.(cid := Some(CidOf(bh)));
        }
        rows := rows[(bh.miner, bh.height) := created];
        return true;
      }
      var row := rows[(bh.miner, bh.height)].(parentEpoch := parentEpoch);
      if |bh.parents| > 0 {
        row := row.(parentKey := bh.parents);
      }
      row := row.(state := state);
      if bh.ticket.Some? {
        row := row.(cid := Some(CidOf(bh)));
      }
      rows := rows[(bh.miner, bh.height) := row];
      ok := true;
    }

    /** `pick` is the epoch of the row the unordered query answered, if it answered one. */
    method MinedBlock(bh: Header, parentEpoch: Epoch, bad: set<Access>) returns (v: Verdict, pick: Epoch)
      ensures ByParents !in bad ==> ValidPick(rows, bh, pick)
      ensures v == MinedWith(rows, bh, parentEpoch, pick, bad)
      ensures v == Clear ==>
              && bad == {}
              && var parent := RowCid(rows, bh.miner, parentEpoch);
              parent.Some? ==> parent.value in bh.parents
      ensures ByParents !in bad ==>
                (v.OffsetFault? <==>
                 && SharesParents(rows, bh, pick)
                 && rows[(bh.miner, pick)].cid.Some? && rows[(bh.miner, pick)].cid.value != CidOf(bh))
      ensures v.OffsetFault? ==>
                && v.other != CidOf(bh)
                && exists e :: SharesParents(rows, bh, e) && rows[(bh.miner, e)].cid == Some(v.other)
      ensures v.GrindingFault? ==>
                && (bh.miner, parentEpoch) in rows
                && rows[(bh.miner, parentEpoch)].cid == Some(v.expected)
                && v.expected !in bh.parents
    {
      if ByParents in bad {
        return StoreError, 0;
      }
      var matching := set k | k in rows && k.0 == bh.miner && rows[k].parentKey == bh.parents;
      pick := 0;
      if matching != {} {
        var k :| k in matching;
        pick := k.1;
        var row := rows[k];
        assert SharesParents(rows, bh, pick) && rows[(bh.miner, pick)] == row;
        if row.cid.Some? && row.cid.value != CidOf(bh) {
          return OffsetFault(row.cid.value), pick;
        }
      } else {
        assert forall e :: SharesParents(rows, bh, e) ==> (bh.miner, e) in matching;
      }
      if ByEpoch in bad {
        return StoreError, pick;
      }
      AllAccessesWork(bad);
      if (bh.miner, parentEpoch) in rows && rows[(bh.miner, parentEpoch)].cid.Some? {
        var parent := rows[(bh.miner, parentEpoch)].cid.value;
        var found := false;
        for i := 0 to |bh.parents|
          invariant found <==> parent in bh.parents[..i]
        {
          if bh.parents[i] == parent {
            found := true;
          }
        }
        assert bh.parents[..|bh.parents|] == bh.parents;
        if !found {
          return GrindingFault(parent), pick;
        }
      }
      v := Clear;
    }
  }
}
