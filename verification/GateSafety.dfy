/** Safety of the publish gate over whole runs, for every interleaving of broadcasts of different miners. */
module GateSafety {
  import opened Chain
  import opened Faults
  import opened PublishGate
  import LocalFilter
  import MysqlFilter

  /** The block was accepted but its record is still to be written. */
  predicate InFlight(g: Gate, bh: Header) {
    && bh.miner in g.live
    && g.live[bh.miner].bh == bh
    && g.live[bh.miner].stage.AtRecord?
    && g.live[bh.miner].stage.state == Success
  }

  /** The block got past HasBlock and its broadcast has not ended. */
  predicate Pending(g: Gate, bh: Header) {
    bh.miner in g.live && g.live[bh.miner].bh == bh && !g.live[bh.miner].stage.AtHas?
  }

  ghost predicate JobsInv(g: Gate) {
    forall m | m in g.live ::
      var job := g.live[m];
      && job.bh.miner == m
      && job.bh.ticket.Some?
      && (!job.stage.AtHas? ==> Recorded(g.filter, m, job.bh.height) == None)
      && (job.stage.AtSubmit? ==>
            var own := Recorded(g.filter, m, job.baseHeight);
            own.Some? ==> own.value in job.bh.parents)
      && (job.stage.AtRecord? ==> job.stage.state in {Success, Error})
  }

  ghost predicate HistoryInv(g: Gate) {
    forall s | s in g.submitted ::
      Recorded(g.filter, s.bh.miner, s.bh.height) == Some(CidOf(s.bh)) || InFlight(g, s.bh)
  }

  /** For every two accepted blocks of a miner: different heights, and the later one does not
      leave the earlier one out of the parents when it was built on its height. */
  ghost predicate Ordered(subs: seq<Submission>) {
    forall i, j | 0 <= i < j < |subs| && SameMiner(subs[i], subs[j]) ::
      && subs[i].bh.height != subs[j].bh.height
      && !ParentGrinding(subs[i], subs[j])
  }

  ghost predicate Inv(g: Gate) {
    JobsInv(g) && HistoryInv(g) && Ordered(g.submitted)
  }

  /** What both stores do to the recorded CIDs. */
  lemma PutRecords(f: Filter, bh: Header, parentEpoch: Epoch, at: Option<int>, state: StateMining)
    ensures forall m, e | (m, e) != (bh.miner, bh.height) ::
              Recorded(Put(f, bh, parentEpoch, at, state), m, e) == Recorded(f, m, e)
    ensures bh.ticket.Some? && state == Success ==>
              Recorded(Put(f, bh, parentEpoch, at, state), bh.miner, bh.height) == Some(CidOf(bh))
    ensures bh.ticket.None? && state != Success ==>
              Recorded(Put(f, bh, parentEpoch, at, state), bh.miner, bh.height) == Recorded(f, bh.miner, bh.height)
    ensures f.Mysql? && bh.ticket.Some? && state != Timeout ==>
              Recorded(Put(f, bh, parentEpoch, at, state), bh.miner, bh.height) == Some(CidOf(bh))
  {
  }

  lemma StepKeepsJobs(g: Gate, e: Event)
    requires JobsInv(g) && Enabled(g, e)
    ensures JobsInv(Apply(g, e))
  {
    match e
    case Record(m, _) =>
      var job := g.live[m];
      PutRecords(g.filter, job.bh, job.stage.parentEpoch, None, job.stage.state);
    case Note(bh, parentEpoch, at, state) =>
      PutRecords(g.filter, bh, parentEpoch, at, state);
    case _ =>
  }

  lemma StepKeepsHistory(g: Gate, e: Event)
    requires JobsInv(g) && HistoryInv(g) && Enabled(g, e)
    ensures HistoryInv(Apply(g, e))
  {
    match e
    case Record(m, _) =>
      var job := g.live[m];
      PutRecords(g.filter, job.bh, job.stage.parentEpoch, None, job.stage.state);
    case Note(bh, parentEpoch, at, state) =>
      PutRecords(g.filter, bh, parentEpoch, at, state);
    case _ =>
  }

  lemma SubmitKeepsOrder(g: Gate, m: Address)
    requires Inv(g) && m in g.live && g.live[m].stage.AtSubmit?
    ensures Ordered(g.submitted + [Submission(g.live[m].bh, g.live[m].baseHeight)])
  {
    var last := Submission(g.live[m].bh, g.live[m].baseHeight);
    forall i | 0 <= i < |g.submitted| && SameMiner(g.submitted[i], last)
      ensures g.submitted[i].bh.height != last.bh.height && !ParentGrinding(g.submitted[i], last)
    {
      assert g.submitted[i] in g.submitted;
    }
  }

  lemma StepKeepsInv(g: Gate, e: Event)
    requires Inv(g) && Enabled(g, e)
    ensures Inv(Apply(g, e))
  {
    StepKeepsJobs(g, e);
    StepKeepsHistory(g, e);
    if e.Submit? && e.accepted {
      SubmitKeepsOrder(g, e.miner);
    }
  }

  lemma {:induction false} RunKeepsInv(g: Gate, es: seq<Event>)
    requires Inv(g) && Legal(g, es)
    ensures Inv(Exec(g, es))
    decreases |es|
  {
    if es != [] {
      StepKeepsInv(g, es[0]);
      RunKeepsInv(Apply(g, es[0]), es[1..]);
    }
  }

  /** Over every run of either store, no double fork and no parent grinding of an earlier block. */
  lemma NoDoubleForkNoGrinding(f: Filter, es: seq<Event>)
    requires f == EMPTY_LOCAL || f == EMPTY_MYSQL
    requires Legal(Init(f), es)
    ensures var subs := Exec(Init(f), es).submitted;
            forall i, j | 0 <= i < j < |subs| ::
              && !DoubleFork(subs[i], subs[j])
              && !ParentGrinding(subs[i], subs[j])
              && (SameMiner(subs[i], subs[j]) ==> subs[i].bh != subs[j].bh)
  {
    RunKeepsInv(Init(f), es);
  }

  /** Once a CID stands against (miner, epoch) no step clears or changes it. */
  lemma StepWritesOnce(g: Gate, e: Event, m: Address, h: Epoch)
    requires Inv(g) && Enabled(g, e)
    requires Recorded(g.filter, m, h).Some?
    ensures Recorded(Apply(g, e).filter, m, h) == Recorded(g.filter, m, h)
  {
    match e
    case Record(n, _) =>
      var job := g.live[n];
      PutRecords(g.filter, job.bh, job.stage.parentEpoch, None, job.stage.state);
    case Note(bh, parentEpoch, at, state) =>
      PutRecords(g.filter, bh, parentEpoch, at, state);
    case _ =>
  }

  lemma {:induction false} SuffixWritesOnce(g: Gate, es: seq<Event>, m: Address, h: Epoch)
    requires Inv(g) && Legal(g, es)
    requires Recorded(g.filter, m, h).Some?
    ensures Recorded(Exec(g, es).filter, m, h) == Recorded(g.filter, m, h)
    decreases |es|
  {
    if es != [] {
      StepKeepsInv(g, es[0]);
      StepWritesOnce(g, es[0], m, h);
      SuffixWritesOnce(Apply(g, es[0]), es[1..], m, h);
    }
  }

  /** A run splits at every point. */
  lemma {:induction false} ExecSplit(g: Gate, pre: seq<Event>, post: seq<Event>)
    ensures Legal(g, pre + post) <==> Legal(g, pre) && Legal(Exec(g, pre), post)
    ensures Legal(g, pre + post) ==> Exec(g, pre + post) == Exec(Exec(g, pre), post)
    decreases |pre|
  {
    if pre == [] {
      assert pre + post == post;
    } else {
      assert (pre + post)[0] == pre[0] && (pre + post)[1..] == pre[1..] + post;
      if Enabled(g, pre[0]) {
        ExecSplit(Apply(g, pre[0]), pre[1..], post);
      }
    }
  }

  /** A CID found at any point of a run of either store is still there at its end. */
  lemma RunWritesOnce(f: Filter, pre: seq<Event>, post: seq<Event>, m: Address, h: Epoch)
    requires f == EMPTY_LOCAL || f == EMPTY_MYSQL
    requires Legal(Init(f), pre + post)
    ensures Legal(Init(f), pre)
    ensures Recorded(Exec(Init(f), pre).filter, m, h).Some? ==>
              Recorded(Exec(Init(f), pre + post).filter, m, h) == Recorded(Exec(Init(f), pre).filter, m, h)
  {
    ExecSplit(Init(f), pre, post);
    RunKeepsInv(Init(f), pre);
    if Recorded(Exec(Init(f), pre).filter, m, h).Some? {
      SuffixWritesOnce(Exec(Init(f), pre), post, m, h);
    }
  }

  // ---- One pass per (miner, epoch) with the row store ----

  /** A block is known by its miner and height. */
  predicate SameSlot(bh: Header, m: Address, h: Epoch) {
    bh.miner == m && bh.height == h
  }

  ghost predicate Listed(bhs: seq<Header>, m: Address, h: Epoch) {
    exists p | p in bhs :: SameSlot(p, m, h)
  }

  /** A block got past HasBlock here before, its put was lost, and HasBlock still finds nothing. */
  ghost predicate Forgotten(g: Gate, m: Address, h: Epoch) {
    Recorded(g.filter, m, h) == None && Listed(g.lost, m, h)
  }

  ghost predicate PassInv(g: Gate) {
    && g.filter.Mysql?
    && (forall p | p in g.passed ::
          Recorded(g.filter, p.miner, p.height).Some? || Pending(g, p) || p in g.lost)
    && (forall p | p in g.lost :: p in g.passed)
    && (forall m | m in g.live && !g.live[m].stage.AtHas? :: g.live[m].bh in g.passed)
  }

  ghost predicate OnePass(passed: seq<Header>) {
    forall i, j | 0 <= i < j < |passed| ::
      passed[i].miner == passed[j].miner ==> passed[i].height != passed[j].height
  }

  lemma RecordKeepsPassInv(g: Gate, m: Address, failed: bool)
    requires Inv(g) && PassInv(g) && Enabled(g, Record(m, failed))
    ensures PassInv(Apply(g, Record(m, failed)))
  {
    var g' := Apply(g, Record(m, failed));
    var job := g.live[m];
    if !failed {
      PutRecords(g.filter, job.bh, job.stage.parentEpoch, None, job.stage.state);
    }
    forall p | p in g'.passed
      ensures Recorded(g'.filter, p.miner, p.height).Some? || Pending(g', p) || p in g'.lost
    {
      assert Pending(g, p) ==> p.miner != m || p == job.bh;
    }
  }

  lemma StepKeepsPassInv(g: Gate, e: Event)
    requires Inv(g) && PassInv(g) && Enabled(g, e)
    ensures PassInv(Apply(g, e))
  {
    match e
    case Record(m, failed) =>
      RecordKeepsPassInv(g, m, failed);
    case Note(bh, parentEpoch, at, state) =>
      PutRecords(g.filter, bh, parentEpoch, at, state);
    case _ =>
  }

  /** A block gets past HasBlock in this step although an earlier put for its height was lost. */
  ghost predicate PassesForgotten(g: Gate, e: Event)
    requires Enabled(g, e)
  {
    e.CheckHas? && !e.failed && Forgotten(g, e.miner, g.live[e.miner].bh.height)
  }

  ghost predicate SomePassesForgotten(g: Gate, es: seq<Event>)
    requires Legal(g, es)
    decreases |es|
  {
    es != [] && (PassesForgotten(g, es[0]) || SomePassesForgotten(Apply(g, es[0]), es[1..]))
  }

  lemma OnePassSnoc(passed: seq<Header>, bh: Header)
    ensures OnePass(passed + [bh]) <==> OnePass(passed) && !Listed(passed, bh.miner, bh.height)
  {
    var all := passed + [bh];
    if OnePass(all) {
      forall i, j | 0 <= i < j < |passed| && passed[i].miner == passed[j].miner
        ensures passed[i].height != passed[j].height
      {
        assert all[i] == passed[i] && all[j] == passed[j];
      }
      forall p | p in passed
        ensures !SameSlot(p, bh.miner, bh.height)
      {
        var i :| 0 <= i < |passed| && passed[i] == p;
        assert all[i] == p && all[|passed|] == bh;
      }
    } else {
      var i, j :| 0 <= i < j < |all| && all[i].miner == all[j].miner && all[i].height == all[j].height;
      assert all[i] == passed[i];
      if j == |passed| {
        assert SameSlot(passed[i], bh.miner, bh.height);
      } else {
        assert all[j] == passed[j];
      }
    }
  }

  /** Before a block's own HasBlock, its (miner, epoch) was passed and is not recorded exactly when
      the put of every block that passed there was lost. */
  lemma ForgottenIffPassed(g: Gate, m: Address)
    requires PassInv(g) && m in g.live && g.live[m].stage.AtHas?
    requires Recorded(g.filter, m, g.live[m].bh.height) == None
    ensures Listed(g.passed, m, g.live[m].bh.height) <==> Forgotten(g, m, g.live[m].bh.height)
  {
    var h := g.live[m].bh.height;
    if Listed(g.passed, m, h) {
      var p :| p in g.passed && SameSlot(p, m, h);
      assert !Pending(g, p);
    }
    if Listed(g.lost, m, h) {
      var p :| p in g.lost && SameSlot(p, m, h);
      assert p in g.passed;
    }
  }

  lemma StepOnePassIff(g: Gate, e: Event)
    requires Inv(g) && PassInv(g) && Enabled(g, e)
    ensures OnePass(Apply(g, e).passed) <==> OnePass(g.passed) && !PassesForgotten(g, e)
  {
    if e.CheckHas? && !e.failed && !Has(g.filter, g.live[e.miner].bh) {
      ForgottenIffPassed(g, e.miner);
      OnePassSnoc(g.passed, g.live[e.miner].bh);
    }
  }

  lemma {:induction false} RunOnePassIff(g: Gate, es: seq<Event>)
    requires Inv(g) && PassInv(g) && Legal(g, es)
    ensures PassInv(Exec(g, es))
    ensures OnePass(Exec(g, es).passed) <==> OnePass(g.passed) && !SomePassesForgotten(g, es)
    decreases |es|
  {
    if es != [] {
      StepKeepsInv(g, es[0]);
      StepKeepsPassInv(g, es[0]);
      StepOnePassIff(g, es[0]);
      RunOnePassIff(Apply(g, es[0]), es[1..]);
    }
  }

  /** Over every run of the row store at most one block per (miner, epoch) gets past HasBlock if and
      only if HasBlock never lets a block through whose (miner, epoch) already lost a put. */
  lemma OnePassPerEpochIff(es: seq<Event>)
    requires Legal(Init(EMPTY_MYSQL), es)
    ensures OnePass(Exec(Init(EMPTY_MYSQL), es).passed) <==> !SomePassesForgotten(Init(EMPTY_MYSQL), es)
  {
    RunOnePassIff(Init(EMPTY_MYSQL), es);
  }

  ghost predicate NoPutFails(es: seq<Event>) {
    forall e | e in es :: e.Record? ==> !e.failed
  }

  lemma {:induction false} NothingIsForgotten(g: Gate, es: seq<Event>)
    requires Legal(g, es) && NoPutFails(es) && g.lost == []
    ensures !SomePassesForgotten(g, es)
    decreases |es|
  {
    if es != [] {
      assert es[0] in es && forall e | e in es[1..] :: e in es;
      NothingIsForgotten(Apply(g, es[0]), es[1..]);
    }
  }

  /** So as long as no put fails at most one block per (miner, epoch) ever gets past HasBlock, whatever
      became of its submission and whatever the mining loop puts in between. */
  lemma OnePassPerEpoch(es: seq<Event>)
    requires Legal(Init(EMPTY_MYSQL), es) && NoPutFails(es)
    ensures OnePass(Exec(Init(EMPTY_MYSQL), es).passed)
  {
    NothingIsForgotten(Init(EMPTY_MYSQL), es);
    OnePassPerEpochIff(es);
  }

  /** A refused block whose put is lost makes room for any other block at its height. */
  lemma LostPutAllowsSecondPass(a: Header, b: Header, baseHeight: Epoch)
    requires a.miner == b.miner && a.height == b.height && a.ticket.Some? && b.ticket.Some?
    ensures var first := [Launch(a, baseHeight, 0), CheckHas(a.miner, false), CheckMined(a.miner, true, 0),
                          Record(a.miner, true)];
            var second := [Launch(b, baseHeight, 0), CheckHas(b.miner, false)];
            && Legal(Init(EMPTY_MYSQL), first + second)
            && Exec(Init(EMPTY_MYSQL), first + second).passed == [a, b]
  {
    var m := a.miner;
    var g0 := Init(EMPTY_MYSQL);
    var g1 := Apply(g0, Launch(a, baseHeight, 0));
    var g2 := Apply(g1, CheckHas(m, false));
    var g3 := Apply(g2, CheckMined(m, true, 0));
    var g4 := Apply(g3, Record(m, true));
    var g5 := Apply(g4, Launch(b, baseHeight, 0));
    var g6 := Apply(g5, CheckHas(m, false));
    assert g6.passed == [a, b] && Legal(g6, []);
    ExecOne(g5, CheckHas(m, false), []);
    ExecOne(g4, Launch(b, baseHeight, 0), [CheckHas(m, false)] + []);
    var second := [Launch(b, baseHeight, 0)] + ([CheckHas(m, false)] + []);
    ExecOne(g3, Record(m, true), second);
    ExecOne(g2, CheckMined(m, true, 0), [Record(m, true)] + second);
    ExecOne(g1, CheckHas(m, false), [CheckMined(m, true, 0)] + ([Record(m, true)] + second));
    ExecOne(g0, Launch(a, baseHeight, 0),
            [CheckHas(m, false)] + ([CheckMined(m, true, 0)] + ([Record(m, true)] + second)));
    assert [Launch(a, baseHeight, 0), CheckHas(m, false), CheckMined(m, true, 0), Record(m, true)]
           + [Launch(b, baseHeight, 0), CheckHas(m, false)]
        == [Launch(a, baseHeight, 0)]
           + ([CheckHas(m, false)] + ([CheckMined(m, true, 0)] + ([Record(m, true)] + second)));
  }

  // ---- The local store mirrored behind the row store ----

  ghost predicate MirrorInv(g: Gate) {
    forall k | k in g.mirror.byEpoch :: Recorded(g.filter, k.0, k.1) == Some(g.mirror.byEpoch[k])
  }

  lemma {:induction false} RunKeepsMirror(g: Gate, es: seq<Event>)
    requires Inv(g) && MirrorInv(g) && Legal(g, es)
    ensures MirrorInv(Exec(g, es))
    decreases |es|
  {
    if es != [] {
      StepKeepsInv(g, es[0]);
      StepKeepsMirror(g, es[0]);
      RunKeepsMirror(Apply(g, es[0]), es[1..]);
    }
  }

  lemma StepKeepsMirror(g: Gate, e: Event)
    requires Inv(g) && MirrorInv(g) && Enabled(g, e)
    ensures MirrorInv(Apply(g, e))
  {
    match e
    case Record(m, _) =>
      var job := g.live[m];
      PutRecords(g.filter, job.bh, job.stage.parentEpoch, None, job.stage.state);
    case Note(bh, parentEpoch, at, state) =>
      PutRecords(g.filter, bh, parentEpoch, at, state);
    case _ =>
  }

  /** Whatever the mirrored local store would refuse for height or parent grinding,
      the row store that gated the run refuses as well, for every answer of its query. */
  lemma LocalRefusalImpliesMysqlRefusal(es: seq<Event>, bh: Header, parentEpoch: Epoch, pick: Epoch)
    requires Legal(Init(EMPTY_MYSQL), es)
    ensures var g := Exec(Init(EMPTY_MYSQL), es);
            && (LocalFilter.Has(g.mirror, bh) ==> Has(g.filter, bh))
            && (LocalFilter.CheckGrinding(g.mirror, bh, parentEpoch).GrindingFault? ==>
                  && g.filter.Mysql?
                  && MysqlFilter.CheckGrinding(g.filter.rows, bh, parentEpoch)
                     == LocalFilter.CheckGrinding(g.mirror, bh, parentEpoch)
                  && Mined(g.filter, bh, parentEpoch, pick) != Clear)
  {
    RunKeepsMirror(Init(EMPTY_MYSQL), es);
    RunOnePassIff(Init(EMPTY_MYSQL), es);
  }

  // ---- Time-offset mining with the local store ----

  predicate Indexed(s: LocalFilter.LocalStore, bh: Header) {
    (bh.miner, bh.parents) in s.byParents && s.byParents[(bh.miner, bh.parents)] == CidOf(bh)
  }

  /** Every entry of the parents index has its height in the epoch index. */
  predicate Backed(s: LocalFilter.LocalStore) {
    forall k | k in s.byParents :: (k.0, s.byParents[k].header.height) in s.byEpoch
  }

  /** A block about to be submitted or recorded has parents the index does not hold yet. */
  predicate Unindexed(g: Gate, m: Address)
    requires g.filter.Local? && m in g.live
  {
    g.live[m].stage.AtSubmit? || (g.live[m].stage.AtRecord? && g.live[m].stage.state == Success) ==>
      (m, g.live[m].bh.parents) !in g.filter.store.byParents
  }

  ghost predicate DistinctParents(subs: seq<Submission>) {
    forall i, j | 0 <= i < j < |subs| && SameMiner(subs[i], subs[j]) ::
      subs[i].bh.parents != subs[j].bh.parents
  }

  ghost predicate ParentsInv(g: Gate) {
    && g.filter.Local?
    && (forall s | s in g.submitted :: InFlight(g, s.bh) || Indexed(g.filter.store, s.bh))
    && Backed(g.filter.store)
    && (forall m | m in g.live :: Unindexed(g, m))
    && DistinctParents(g.submitted)
  }

  lemma SubmitKeepsParentsInv(g: Gate, m: Address)
    requires Inv(g) && ParentsInv(g) && Enabled(g, Submit(m, true))
    ensures ParentsInv(Apply(g, Submit(m, true)))
  {
    var job := g.live[m];
    assert Unindexed(g, m);
    forall i | 0 <= i < |g.submitted| && g.submitted[i].bh.miner == m
      ensures g.submitted[i].bh.parents != job.bh.parents
    {
      assert g.submitted[i] in g.submitted;
    }
  }

  lemma RecordKeepsParentsInv(g: Gate, m: Address, failed: bool)
    requires Inv(g) && ParentsInv(g) && Enabled(g, Record(m, failed))
    ensures ParentsInv(Apply(g, Record(m, failed)))
  {
    var job := g.live[m];
    var g' := Apply(g, Record(m, failed));
    assert Unindexed(g, m);
    forall s | s in g'.submitted
      ensures InFlight(g', s.bh) || Indexed(g'.filter.store, s.bh)
    {
      assert InFlight(g, s.bh) || Indexed(g.filter.store, s.bh);
    }
    forall n | n in g'.live
      ensures Unindexed(g', n)
    {
      assert Unindexed(g, n);
    }
  }

  lemma StepKeepsParentsInv(g: Gate, e: Event)
    requires Inv(g) && ParentsInv(g) && Enabled(g, e)
    ensures ParentsInv(Apply(g, e))
  {
    var g' := Apply(g, e);
    match e
    case Submit(m, accepted) =>
      if accepted {
        SubmitKeepsParentsInv(g, m);
      }
    case Record(m, failed) =>
      RecordKeepsParentsInv(g, m, failed);
    case CheckMined(m, failed, pick) =>
      var job := g.live[m];
      assert !Indexed(g.filter.store, job.bh);
      assert forall n | n in g'.live && n != m :: Unindexed(g, n);
    case CheckHas(m, _) =>
      assert forall n | n in g'.live && n != m :: Unindexed(g, n);
    case _ =>
  }

  lemma {:induction false} RunKeepsParentsInv(g: Gate, es: seq<Event>)
    requires Inv(g) && ParentsInv(g) && Legal(g, es)
    ensures ParentsInv(Exec(g, es))
    decreases |es|
  {
    if es != [] {
      StepKeepsInv(g, es[0]);
      StepKeepsParentsInv(g, es[0]);
      RunKeepsParentsInv(Apply(g, es[0]), es[1..]);
    }
  }

  /** Over every run of the local store none of the three faults is committed by a later block. */
  lemma LocalRunIsFaultFree(es: seq<Event>)
    requires Legal(Init(EMPTY_LOCAL), es)
    ensures var subs := Exec(Init(EMPTY_LOCAL), es).submitted;
            forall i, j | 0 <= i < j < |subs| ::
              && !DoubleFork(subs[i], subs[j])
              && !TimeOffset(subs[i], subs[j])
              && !ParentGrinding(subs[i], subs[j])
  {
    RunKeepsInv(Init(EMPTY_LOCAL), es);
    RunKeepsParentsInv(Init(EMPTY_LOCAL), es);
  }
}
