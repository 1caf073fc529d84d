/** What the columns of a row say of all the puts that were made for it. */
module MysqlHistory {
  import opened Chain
  import opened Faults
  import opened MysqlFilter

  datatype PutCall = PutCall(bh: Header, parentEpoch: Epoch, at: Option<int>, state: StateMining)

  function Table(calls: seq<PutCall>): Rows {
    if calls == [] then map[] else
    var n := |calls| - 1;
    Put(Table(calls[..n]), calls[n].bh, calls[n].parentEpoch, calls[n].at, calls[n].state)
  }

  predicate Concerns(c: PutCall, m: Address, h: Epoch) {
    c.bh.miner == m && c.bh.height == h
  }

  /** The put that creates the row: the first one for it that is no timeout. */
  predicate Creates(calls: seq<PutCall>, f: nat, m: Address, h: Epoch) {
    && f < |calls| && Concerns(calls[f], m, h) && calls[f].state != Timeout
    && forall i | 0 <= i < f && Concerns(calls[i], m, h) :: calls[i].state == Timeout
  }

  /** The last put for the row. */
  function LastPut(calls: seq<PutCall>, m: Address, h: Epoch): Option<PutCall> {
    if calls == [] then None else
    var n := |calls| - 1;
    if Concerns(calls[n], m, h) then Some(calls[n]) else LastPut(calls[..n], m, h)
  }

  /** The parents last named by a put for it, from put `f` on. */
  function LastParents(calls: seq<PutCall>, f: nat, m: Address, h: Epoch): TipSetKey {
    if |calls| <= f then [] else
    var n := |calls| - 1;
    if Concerns(calls[n], m, h) && calls[n].bh.parents != [] then calls[n].bh.parents
    else LastParents(calls[..n], f, m, h)
  }

  /** The block last named by a put for it, from put `f` on. */
  function LastBlock(calls: seq<PutCall>, f: nat, m: Address, h: Epoch): Option<Cid> {
    if |calls| <= f then None else
    var n := |calls| - 1;
    if Concerns(calls[n], m, h) && calls[n].bh.ticket.Some? then Some(CidOf(calls[n].bh))
    else LastBlock(calls[..n], f, m, h)
  }

  predicate Remembers(row: Row, calls: seq<PutCall>, f: nat, m: Address, h: Epoch)
    requires f < |calls|
  {
    && LastPut(calls, m, h).Some?
    && row.state == LastPut(calls, m, h).value.state
    && row.parentEpoch == LastPut(calls, m, h).value.parentEpoch
    && row.winningAt == calls[f].at
    && row.parentKey == LastParents(calls, f, m, h)
    && row.cid == LastBlock(calls, f, m, h)
  }

  /** Over every sequence of puts: a row is there if and only if some put for it was no timeout; it keeps
      the time of the first such put, the parents and the block that were last named since, and the state
      and parent epoch of the last put. */
  lemma {:induction false} RowRemembers(calls: seq<PutCall>, m: Address, h: Epoch) returns (f: nat)
    ensures (m, h) in Table(calls) ==> Creates(calls, f, m, h) && Remembers(Table(calls)[(m, h)], calls, f, m, h)
    ensures (m, h) !in Table(calls) ==>
              forall i | 0 <= i < |calls| && Concerns(calls[i], m, h) :: calls[i].state == Timeout
  {
    f := 0;
    if calls != [] {
      var n := |calls| - 1;
      f := RowRemembers(calls[..n], m, h);
      forall i | 0 <= i < n
        ensures calls[..n][i] == calls[i]
      {
      }
      if (m, h) !in Table(calls[..n]) && Concerns(calls[n], m, h) {
        f := n;
        assert LastParents(calls[..n], f, m, h) == [] && LastBlock(calls[..n], f, m, h) == None;
      }
    }
  }
}
