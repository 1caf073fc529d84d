/** Time-offset mining over the row store: prevented as long as the mining loop's own puts name no
    parents, and with them exactly when no row on the same parents has an empty CID. */
module GateOffset {
  import opened Chain
  import opened Faults
  import opened PublishGate
  import opened GateSafety
  import opened GateLimits
  import MysqlFilter

  /** The query for a row with the same parents refuses the header for every row it may answer
      exactly when some row has these parents and every row that has them holds a foreign CID. */
  lemma OffsetCheckCatchesIff(rows: MysqlFilter.Rows, bh: Header)
    ensures (forall pick | MysqlFilter.ValidPick(rows, bh, pick) ::
               MysqlFilter.CheckSameParent(rows, bh, pick) != Clear)
            <==>
            && (exists e :: MysqlFilter.SharesParents(rows, bh, e))
            && (forall e | MysqlFilter.SharesParents(rows, bh, e) :: MysqlFilter.ForeignRow(rows, bh, e))
  {
    assert (exists e :: MysqlFilter.SharesParents(rows, bh, e))
        || (MysqlFilter.ValidPick(rows, bh, 0) && MysqlFilter.CheckSameParent(rows, bh, 0) == Clear);
    if forall pick | MysqlFilter.ValidPick(rows, bh, pick) ::
        MysqlFilter.CheckSameParent(rows, bh, pick) != Clear
    {
      forall e | MysqlFilter.SharesParents(rows, bh, e)
        ensures MysqlFilter.ForeignRow(rows, bh, e)
      {
        assert MysqlFilter.ValidPick(rows, bh, e);
      }
    }
  }

  // ---- What every run keeps ----

  /** A row holds the CID of a block of its own miner and height. */
  ghost predicate InPlace(rows: MysqlFilter.Rows) {
    forall k | k in rows && rows[k].cid.Some? :: SameSlot(rows[k].cid.value.header, k.0, k.1)
  }

  ghost predicate RowsInv(g: Gate) {
    g.filter.Mysql? && InPlace(g.filter.rows)
  }

  lemma StepKeepsRows(g: Gate, e: Event)
    requires Inv(g) && RowsInv(g) && Enabled(g, e)
    ensures RowsInv(Apply(g, e))
  {
  }

  lemma {:induction false} RunKeepsRows(g: Gate, es: seq<Event>)
    requires Inv(g) && RowsInv(g) && Legal(g, es)
    ensures Inv(Exec(g, es)) && RowsInv(Exec(g, es))
    decreases |es|
  {
    if es != [] {
      StepKeepsInv(g, es[0]);
      StepKeepsRows(g, es[0]);
      RunKeepsRows(Apply(g, es[0]), es[1..]);
    }
  }

  /** Some row on these parents has no CID. */
  ghost predicate EmptyRow(rows: MysqlFilter.Rows, bh: Header) {
    exists e :: MysqlFilter.SharesParents(rows, bh, e) && rows[(bh.miner, e)].cid.None?
  }

  ghost predicate SomeRow(rows: MysqlFilter.Rows, bh: Header) {
    exists e :: MysqlFilter.SharesParents(rows, bh, e)
  }

  ghost predicate AlwaysRefused(rows: MysqlFilter.Rows, bh: Header) {
    forall pick | MysqlFilter.ValidPick(rows, bh, pick) :: MysqlFilter.CheckSameParent(rows, bh, pick) != Clear
  }

  /** A row on the parents of a block that got past HasBlock is foreign exactly when it has a CID. */
  lemma ForeignIffFilled(rows: MysqlFilter.Rows, bh: Header)
    requires InPlace(rows) && MysqlFilter.RowCid(rows, bh.miner, bh.height) == None
    ensures forall e | MysqlFilter.SharesParents(rows, bh, e) ::
              MysqlFilter.ForeignRow(rows, bh, e) <==> rows[(bh.miner, e)].cid.Some?
  {
    forall e | MysqlFilter.SharesParents(rows, bh, e) && rows[(bh.miner, e)].cid.Some?
      ensures MysqlFilter.ForeignRow(rows, bh, e)
    {
      assert (bh.miner, e) in rows;
      assert SameSlot(rows[(bh.miner, e)].cid.value.header, bh.miner, e);
    }
  }

  /** In every reachable state, for every block at its MinedBlock: the query for its parents refuses it
      for every row it may answer exactly when there is such a row and none of them has an empty CID. */
  lemma OffsetCheckIsExact(es: seq<Event>, m: Address)
    requires Legal(Init(EMPTY_MYSQL), es)
    requires var g := Exec(Init(EMPTY_MYSQL), es); m in g.live && g.live[m].stage.AtMined?
    ensures var g := Exec(Init(EMPTY_MYSQL), es);
            && g.filter.Mysql?
            && (AlwaysRefused(g.filter.rows, g.live[m].bh)
                <==> SomeRow(g.filter.rows, g.live[m].bh) && !EmptyRow(g.filter.rows, g.live[m].bh))
  {
    var g := Exec(Init(EMPTY_MYSQL), es);
    RunKeepsRows(Init(EMPTY_MYSQL), es);
    ForeignIffFilled(g.filter.rows, g.live[m].bh);
    OffsetCheckCatchesIff(g.filter.rows, g.live[m].bh);
  }

  /** The block at its MinedBlock is on the parents of a block published before. */
  predicate OnUsedParents(g: Gate, m: Address)
    requires m in g.live
  {
    exists s | s in g.submitted :: s.bh.miner == m && s.bh.parents == g.live[m].bh.parents
  }

  /** And the query for its parents may answer a row without a CID, or none at all. */
  ghost predicate Exposed(g: Gate, m: Address)
    requires m in g.live
  {
    && OnUsedParents(g, m)
    && g.filter.Mysql?
    && (SomeRow(g.filter.rows, g.live[m].bh) ==> EmptyRow(g.filter.rows, g.live[m].bh))
  }

  /** The next two steps, with some answer of the query, publish a time-offset block. */
  ghost predicate CanOffset(g: Gate, m: Address) {
    exists pick :: && Legal(g, [CheckMined(m, false, pick), Submit(m, true)])
                   && !NoOffsets(Exec(g, [CheckMined(m, false, pick), Submit(m, true)]).submitted)
  }

  lemma CheckAndSubmit(g: Gate, m: Address, pick: Epoch)
    requires Enabled(g, CheckMined(m, false, pick))
    ensures var es := [CheckMined(m, false, pick), Submit(m, true)];
            var clear := Mined(g.filter, g.live[m].bh, g.live[m].baseHeight, pick) == Clear;
            && (Legal(g, es) <==> clear)
            && (clear ==>
                  Exec(g, es).submitted == g.submitted + [Submission(g.live[m].bh, g.live[m].baseHeight)])
  {
    var checked := Apply(g, CheckMined(m, false, pick));
    if Enabled(checked, Submit(m, true)) {
      assert Legal(Apply(checked, Submit(m, true)), []);
      ExecOne(checked, Submit(m, true), []);
      assert [Submit(m, true)] + [] == [Submit(m, true)];
    }
    ExecOne(g, CheckMined(m, false, pick), [Submit(m, true)]);
    assert [CheckMined(m, false, pick)] + [Submit(m, true)] == [CheckMined(m, false, pick), Submit(m, true)];
  }

  /** Publishing the block is a time-offset exactly when its parents are used. */
  lemma UsedParentsOffset(g: Gate, m: Address)
    requires Inv(g) && NoOffsets(g.submitted) && m in g.live && g.live[m].stage.AtMined?
    ensures !NoOffsets(g.submitted + [Submission(g.live[m].bh, g.live[m].baseHeight)]) <==> OnUsedParents(g, m)
  {
    var last := Submission(g.live[m].bh, g.live[m].baseHeight);
    var all := g.submitted + [last];
    assert forall s | s in g.submitted && s.bh.miner == m :: s.bh != last.bh by {
      assert forall s | s in g.submitted && s.bh.miner == m :: Recorded(g.filter, m, s.bh.height).Some?;
    }
    if OnUsedParents(g, m) {
      var s :| s in g.submitted && s.bh.miner == m && s.bh.parents == g.live[m].bh.parents;
      var i :| 0 <= i < |g.submitted| && g.submitted[i] == s;
      assert all[i] == s && all[|g.submitted|] == last;
      assert TimeOffset(s, last);
    } else {
      forall i, j | 0 <= i < |all| && 0 <= j < |all| && i != j
        ensures !TimeOffset(all[i], all[j])
      {
        assert i < |g.submitted| ==> all[i] in g.submitted;
        assert j < |g.submitted| ==> all[j] in g.submitted;
      }
    }
  }

  /** So in every reachable state a block at its MinedBlock can be published as a time-offset block
      exactly when it is exposed and no own block at its base height is missing from its parents. */
  lemma OffsetIsPublishedIff(es: seq<Event>, m: Address)
    requires Legal(Init(EMPTY_MYSQL), es)
    requires var g := Exec(Init(EMPTY_MYSQL), es);
             m in g.live && g.live[m].stage.AtMined? && NoOffsets(g.submitted)
    ensures var g := Exec(Init(EMPTY_MYSQL), es);
            var job := g.live[m];
            && g.filter.Mysql?
            && (CanOffset(g, m) <==>
                && Exposed(g, m)
                && MysqlFilter.CheckGrinding(g.filter.rows, job.bh, job.baseHeight) == Clear)
  {
    var g := Exec(Init(EMPTY_MYSQL), es);
    var job := g.live[m];
    RunKeepsRows(Init(EMPTY_MYSQL), es);
    OffsetCheckIsExact(es, m);
    UsedParentsOffset(g, m);
    forall pick
      ensures Legal(g, [CheckMined(m, false, pick), Submit(m, true)]) <==>
              MysqlFilter.ValidPick(g.filter.rows, job.bh, pick)
              && MysqlFilter.Mined(g.filter.rows, job.bh, job.baseHeight, pick) == Clear
      ensures Legal(g, [CheckMined(m, false, pick), Submit(m, true)]) ==>
                (!NoOffsets(Exec(g, [CheckMined(m, false, pick), Submit(m, true)]).submitted) <==> OnUsedParents(g, m))
    {
      if Enabled(g, CheckMined(m, false, pick)) {
        CheckAndSubmit(g, m, pick);
      }
    }
    if !AlwaysRefused(g.filter.rows, job.bh) {
      var pick :| MysqlFilter.ValidPick(g.filter.rows, job.bh, pick)
                  && MysqlFilter.CheckSameParent(g.filter.rows, job.bh, pick) == Clear;
      assert Legal(g, [CheckMined(m, false, pick), Submit(m, true)]) <==>
             MysqlFilter.Mined(g.filter.rows, job.bh, job.baseHeight, pick) == Clear;
    }
  }

  // ---- Runs that check no exposed block ----

  ghost predicate ChecksExposed(g: Gate, e: Event)
    requires Enabled(g, e)
  {
    e.CheckMined? && !e.failed && Exposed(g, e.miner)
  }

  ghost predicate SomeChecksExposed(g: Gate, es: seq<Event>)
    requires Legal(g, es)
    decreases |es|
  {
    es != [] && (ChecksExposed(g, es[0]) || SomeChecksExposed(Apply(g, es[0]), es[1..]))
  }

  /** A block that MinedBlock cleared is not on used parents. */
  ghost predicate Unused(g: Gate) {
    forall m | m in g.live && g.live[m].stage.AtSubmit? :: !OnUsedParents(g, m)
  }

  lemma SubmitKeepsUnused(g: Gate, m: Address)
    requires Inv(g) && Unused(g) && Enabled(g, Submit(m, true)) && NoOffsets(g.submitted)
    ensures Unused(Apply(g, Submit(m, true))) && NoOffsets(Apply(g, Submit(m, true)).submitted)
  {
    var g' := Apply(g, Submit(m, true));
    assert !OnUsedParents(g, m);
    forall n | n in g'.live && g'.live[n].stage.AtSubmit?
      ensures !OnUsedParents(g', n)
    {
      assert !OnUsedParents(g, n) && n != m;
    }
    forall i, j | 0 <= i < |g'.submitted| && 0 <= j < |g'.submitted| && i != j
      ensures !TimeOffset(g'.submitted[i], g'.submitted[j])
    {
      assert i < |g.submitted| ==> g'.submitted[i] in g.submitted;
      assert j < |g.submitted| ==> g'.submitted[j] in g.submitted;
    }
  }

  lemma StepKeepsUnused(g: Gate, e: Event)
    requires Inv(g) && RowsInv(g) && Unused(g) && Enabled(g, e) && !ChecksExposed(g, e) && NoOffsets(g.submitted)
    ensures Unused(Apply(g, e)) && NoOffsets(Apply(g, e).submitted)
  {
    var g' := Apply(g, e);
    match e
    case Submit(m, accepted) =>
      if accepted {
        SubmitKeepsUnused(g, m);
      }
    case CheckMined(m, failed, pick) =>
      var bh := g.live[m].bh;
      ForeignIffFilled(g.filter.rows, bh);
      OffsetCheckCatchesIff(g.filter.rows, bh);
      assert OnUsedParents(g', m) <==> OnUsedParents(g, m);
      assert forall n | n in g'.live && n != m :: OnUsedParents(g', n) <==> OnUsedParents(g, n);
    case _ =>
      assert forall n | n in g.live && n in g'.live && g.live[n] == g'.live[n] ::
               OnUsedParents(g', n) <==> OnUsedParents(g, n);
  }

  lemma {:induction false} RunKeepsUnused(g: Gate, es: seq<Event>)
    requires Inv(g) && RowsInv(g) && Unused(g) && Legal(g, es) && NoOffsets(g.submitted)
    requires !SomeChecksExposed(g, es)
    ensures NoOffsets(Exec(g, es).submitted)
    decreases |es|
  {
    if es != [] {
      StepKeepsInv(g, es[0]);
      StepKeepsRows(g, es[0]);
      StepKeepsUnused(g, es[0]);
      RunKeepsUnused(Apply(g, es[0]), es[1..]);
    }
  }

  /** Over every run of the row store in which MinedBlock checks no exposed block, no two published
      blocks of a miner are on the same parents; `OffsetIsPublishedIff` says that an exposed one can be
      published. */
  lemma UnexposedRunIsOffsetFree(es: seq<Event>)
    requires Legal(Init(EMPTY_MYSQL), es) && !SomeChecksExposed(Init(EMPTY_MYSQL), es)
    ensures NoOffsets(Exec(Init(EMPTY_MYSQL), es).submitted)
  {
    RunKeepsUnused(Init(EMPTY_MYSQL), es);
  }

  // ---- Runs whose own puts name no parents ----

  /** The mining loop's own puts leave the parents open. */
  ghost predicate Quiet(es: seq<Event>) {
    forall e | e in es :: e.Note? ==> e.bh.parents == []
  }

  /** No row is on the parents of a block that MinedBlock has cleared. */
  ghost predicate Alone(g: Gate, m: Address)
    requires g.filter.Mysql? && m in g.live
  {
    g.live[m].stage.AtSubmit? && g.live[m].bh.parents != [] ==> !SomeRow(g.filter.rows, g.live[m].bh)
  }

  /** A row on parents holds a CID, and a published block's row is on its parents. */
  ghost predicate QuietInv(g: Gate) {
    && RowsInv(g)
    && (forall k | k in g.filter.rows && g.filter.rows[k].parentKey != [] :: g.filter.rows[k].cid.Some?)
    && (forall s | s in g.submitted ::
          InFlight(g, s.bh) || MysqlFilter.SharesParents(g.filter.rows, s.bh, s.bh.height))
    && (forall m | m in g.live :: Alone(g, m))
  }

  /** No two published blocks of a miner are on the same parents, unless these are none at all. */
  ghost predicate OffsetFree(subs: seq<Submission>) {
    forall i, j | 0 <= i < j < |subs| && subs[i].bh.parents != [] :: !TimeOffset(subs[i], subs[j])
  }

  lemma CheckKeepsQuiet(g: Gate, m: Address, failed: bool, pick: Epoch)
    requires Inv(g) && QuietInv(g) && Enabled(g, CheckMined(m, failed, pick))
    ensures QuietInv(Apply(g, CheckMined(m, failed, pick)))
  {
    var g' := Apply(g, CheckMined(m, failed, pick));
    ForeignIffFilled(g.filter.rows, g.live[m].bh);
    forall n | n in g'.live
      ensures Alone(g', n)
    {
      assert Alone(g, n);
    }
  }

  lemma RecordKeepsQuiet(g: Gate, m: Address, failed: bool)
    requires Inv(g) && QuietInv(g) && Enabled(g, Record(m, failed))
    ensures QuietInv(Apply(g, Record(m, failed)))
  {
    var g' := Apply(g, Record(m, failed));
    StepKeepsRows(g, Record(m, failed));
    forall n | n in g'.live
      ensures Alone(g', n)
    {
      assert Alone(g, n);
      assert forall e :: MysqlFilter.SharesParents(g'.filter.rows, g'.live[n].bh, e)
                     ==> MysqlFilter.SharesParents(g.filter.rows, g'.live[n].bh, e);
    }
    forall s | s in g'.submitted
      ensures InFlight(g', s.bh) || MysqlFilter.SharesParents(g'.filter.rows, s.bh, s.bh.height)
    {
      assert InFlight(g, s.bh) || MysqlFilter.SharesParents(g.filter.rows, s.bh, s.bh.height);
      assert InFlight(g, s.bh) || Recorded(g.filter, s.bh.miner, s.bh.height).Some?;
    }
  }

  lemma NoteKeepsQuiet(g: Gate, e: Event)
    requires Inv(g) && QuietInv(g) && Enabled(g, e) && e.Note? && e.bh.parents == []
    ensures QuietInv(Apply(g, e))
  {
    var g' := Apply(g, e);
    forall n | n in g'.live
      ensures Alone(g', n)
    {
      assert Alone(g, n);
      assert g'.live[n].bh.parents != [] ==>
               forall h :: MysqlFilter.SharesParents(g'.filter.rows, g'.live[n].bh, h)
                       ==> MysqlFilter.SharesParents(g.filter.rows, g'.live[n].bh, h);
    }
    forall s | s in g'.submitted
      ensures InFlight(g', s.bh) || MysqlFilter.SharesParents(g'.filter.rows, s.bh, s.bh.height)
    {
      assert InFlight(g, s.bh) || MysqlFilter.SharesParents(g.filter.rows, s.bh, s.bh.height);
    }
  }

  lemma StepKeepsQuiet(g: Gate, e: Event)
    requires Inv(g) && QuietInv(g) && Enabled(g, e) && (e.Note? ==> e.bh.parents == [])
    ensures QuietInv(Apply(g, e))
  {
    match e
    case CheckMined(m, failed, pick) => CheckKeepsQuiet(g, m, failed, pick);
    case Record(m, failed) => RecordKeepsQuiet(g, m, failed);
    case Note(_, _, _, _) => NoteKeepsQuiet(g, e);
    case CheckHas(m, _) =>
      assert forall n | n in g.live :: Alone(g, n);
    case _ =>
      assert forall n | n in g.live :: Alone(g, n);
  }

  lemma SubmitKeepsOffsetFree(g: Gate, m: Address)
    requires Inv(g) && QuietInv(g) && Enabled(g, Submit(m, true)) && OffsetFree(g.submitted)
    ensures OffsetFree(Apply(g, Submit(m, true)).submitted)
  {
    var job := g.live[m];
    assert Alone(g, m);
    forall s | s in g.submitted && s.bh.miner == m && s.bh.parents != []
      ensures s.bh.parents != job.bh.parents
    {
      assert !InFlight(g, s.bh);
      assert s.bh.parents == job.bh.parents ==> MysqlFilter.SharesParents(g.filter.rows, job.bh, s.bh.height);
    }
  }

  lemma {:induction false} RunKeepsOffsetFree(g: Gate, es: seq<Event>)
    requires Inv(g) && QuietInv(g) && OffsetFree(g.submitted) && Legal(g, es) && Quiet(es)
    ensures OffsetFree(Exec(g, es).submitted)
    decreases |es|
  {
    if es != [] {
      assert es[0] in es && forall e | e in es[1..] :: e in es;
      StepKeepsInv(g, es[0]);
      StepKeepsQuiet(g, es[0]);
      if es[0].Submit? && es[0].accepted {
        SubmitKeepsOffsetFree(g, es[0].miner);
      }
      RunKeepsOffsetFree(Apply(g, es[0]), es[1..]);
    }
  }

  /** Over every run of the row store in which the mining loop's own puts name no parents, no two
      blocks of a miner on the same non-empty parents are published. */
  lemma QuietRunIsOffsetFree(es: seq<Event>)
    requires Legal(Init(EMPTY_MYSQL), es) && Quiet(es)
    ensures OffsetFree(Exec(Init(EMPTY_MYSQL), es).submitted)
  {
    RunKeepsOffsetFree(Init(EMPTY_MYSQL), es);
  }

  // ---- Runs with the mining loop's own puts ----

  /** The row the mining loop writes for a winner before its block exists. */
  function MiningNote(bh: Header): Header {
    Header(bh.miner, bh.height, bh.parents, None, "")
  }

  /** That row always lets the later block of the same round through: whatever blocks on the same
      parents the table holds, the query may answer the round's own row, whose CID is empty. */
  lemma MiningRowDefeatsOffsetCheck(rows: MysqlFilter.Rows, bh: Header, parentEpoch: Epoch, at: Option<int>)
    requires bh.parents != [] && !MysqlFilter.Has(rows, bh)
    ensures var rows' := MysqlFilter.Put(rows, MiningNote(bh), parentEpoch, at, Mining);
            && MysqlFilter.ValidPick(rows', bh, bh.height)
            && MysqlFilter.CheckSameParent(rows', bh, bh.height) == Clear
  {
    var rows' := MysqlFilter.Put(rows, MiningNote(bh), parentEpoch, at, Mining);
    assert MysqlFilter.SharesParents(rows', bh, bh.height);
  }

  /** A round that the mining loop noted is published over whatever blocks on its parents are recorded. */
  lemma NotedRoundIsAccepted(g: Gate, bh: Header, baseHeight: Epoch, at: Option<int>)
    requires g.filter.Mysql? && bh.miner !in g.live && bh.ticket.Some? && bh.parents != []
    requires baseHeight < bh.height && !Has(g.filter, bh)
    requires Recorded(g.filter, bh.miner, baseHeight) == None
    ensures var es := [Note(MiningNote(bh), bh.height - 1, at, Mining)]
                      + AcceptedBroadcast(bh, baseHeight, bh.height - baseHeight - 1, bh.height);
            && Legal(g, es)
            && Exec(g, es).submitted == g.submitted + [Submission(bh, baseHeight)]
  {
    var note := Note(MiningNote(bh), bh.height - 1, at, Mining);
    var g' := Apply(g, note);
    PutRecords(g.filter, MiningNote(bh), bh.height - 1, at, Mining);
    assert Recorded(g'.filter, bh.miner, baseHeight) == None;
    MiningRowDefeatsOffsetCheck(g.filter.rows, bh, bh.height - 1, at);
    BroadcastIsAccepted(g', bh, baseHeight, bh.height - baseHeight - 1, bh.height);
    ExecOne(g, note, AcceptedBroadcast(bh, baseHeight, bh.height - baseHeight - 1, bh.height));
  }

  /** So for every two blocks of a miner on the same parents there is a run of the row store,
      with the mining loop's own put in it, that publishes both. */
  lemma OffsetFaultPassesMysql(a: Header, b: Header, baseHeight: Epoch, at: Option<int>)
    requires a.miner == b.miner && a.ticket.Some? && b.ticket.Some?
    requires a.parents == b.parents && a.parents != []
    requires baseHeight < a.height < b.height
    ensures var es := AcceptedBroadcast(a, baseHeight, a.height - baseHeight - 1, 0)
                      + ([Note(MiningNote(b), b.height - 1, at, Mining)]
                         + AcceptedBroadcast(b, baseHeight, b.height - baseHeight - 1, b.height));
            && Legal(Init(EMPTY_MYSQL), es)
            && var subs := Exec(Init(EMPTY_MYSQL), es).submitted;
            && subs == [Submission(a, baseHeight), Submission(b, baseHeight)]
            && TimeOffset(subs[0], subs[1])
  {
    var g := Init(EMPTY_MYSQL);
    var first := AcceptedBroadcast(a, baseHeight, a.height - baseHeight - 1, 0);
    var second := [Note(MiningNote(b), b.height - 1, at, Mining)]
                  + AcceptedBroadcast(b, baseHeight, b.height - baseHeight - 1, b.height);
    BroadcastIsAccepted(g, a, baseHeight, a.height - baseHeight - 1, 0);
    PutRecords(g.filter, a, a.height - 1, None, Success);
    NotedRoundIsAccepted(Exec(g, first), b, baseHeight, at);
    ExecSplit(g, first, second);
  }
}
