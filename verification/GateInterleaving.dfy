/** Broadcasts of different miners do not interfere: what a run does for one miner depends only on
    that miner's own steps, so every interleaving is equivalent to every serial order. */
module GateInterleaving {
  import opened Chain
  import opened Faults
  import opened PublishGate
  import opened GateSafety
  import LocalFilter
  import MysqlFilter

  // ---- The part of the state that belongs to one miner ----

  function LocalOf(s: LocalFilter.LocalStore, m: Address): LocalFilter.LocalStore {
    LocalFilter.LocalStore(
      map k | k in s.byEpoch && k.0 == m :: s.byEpoch[k],
      map k | k in s.byParents && k.0 == m :: s.byParents[k])
  }

  function RowsOf(rows: MysqlFilter.Rows, m: Address): MysqlFilter.Rows {
    map k | k in rows && k.0 == m :: rows[k]
  }

  function FilterOf(f: Filter, m: Address): Filter {
    match f
    case Local(s) => Local(LocalOf(s, m))
    case Mysql(rows) => Mysql(RowsOf(rows, m))
  }

  function SubmittedBy(subs: seq<Submission>, m: Address): seq<Submission> {
    if subs == [] then [] else
    var n := |subs| - 1;
    SubmittedBy(subs[..n], m) + (if subs[n].bh.miner == m then [subs[n]] else [])
  }

  function PassedBy(passed: seq<Header>, m: Address): seq<Header> {
    if passed == [] then [] else
    var n := |passed| - 1;
    PassedBy(passed[..n], m) + (if passed[n].miner == m then [passed[n]] else [])
  }

  function LiveOf(live: map<Address, Job>, m: Address): map<Address, Job> {
    map k | k in live && k == m :: live[k]
  }

  function Project(g: Gate, m: Address): Gate {
    Gate(FilterOf(g.filter, m),
         LiveOf(g.live, m),
         SubmittedBy(g.submitted, m),
         PassedBy(g.passed, m),
         PassedBy(g.lost, m),
         LocalOf(g.mirror, m))
  }

  function EventsOf(es: seq<Event>, m: Address): seq<Event> {
    if es == [] then [] else
    (if MinerOf(es[0]) == m then [es[0]] else []) + EventsOf(es[1..], m)
  }

  // ---- Each operation of the filter is local to a miner ----

  lemma RowsPutIsLocal(
    rows: MysqlFilter.Rows, bh: Header, parentEpoch: Epoch, at: Option<int>, state: StateMining, m: Address)
    ensures RowsOf(MysqlFilter.Put(rows, bh, parentEpoch, at, state), m)
            == if bh.miner == m then MysqlFilter.Put(RowsOf(rows, m), bh, parentEpoch, at, state) else RowsOf(rows, m)
  {
    var k := (bh.miner, bh.height);
    assert bh.miner == m ==> (k in RowsOf(rows, m) <==> k in rows);
    if !MysqlFilter.PutFails(rows, bh, state) {
      var row := MysqlFilter.Put(rows, bh, parentEpoch, at, state)[k];
      RowsUpdateIsLocal(rows, k, row, m);
    }
  }

  lemma RowsUpdateIsLocal(rows: MysqlFilter.Rows, k: (Address, Epoch), row: MysqlFilter.Row, m: Address)
    ensures RowsOf(rows[k := row], m) == if k.0 == m then RowsOf(rows, m)[k := row] else RowsOf(rows, m)
  {
  }

  lemma PutIsLocal(f: Filter, bh: Header, parentEpoch: Epoch, at: Option<int>, state: StateMining, m: Address)
    ensures FilterOf(Put(f, bh, parentEpoch, at, state), m)
            == if bh.miner == m then Put(FilterOf(f, m), bh, parentEpoch, at, state) else FilterOf(f, m)
  {
    match f
    case Local(s) => LocalPutIsLocal(s, bh, state, m);
    case Mysql(rows) => RowsPutIsLocal(rows, bh, parentEpoch, at, state, m);
  }

  lemma LocalPutIsLocal(s: LocalFilter.LocalStore, bh: Header, state: StateMining, m: Address)
    ensures LocalOf(LocalFilter.Put(s, bh, state), m)
            == if bh.miner == m then LocalFilter.Put(LocalOf(s, m), bh, state) else LocalOf(s, m)
  {
    var left := LocalOf(LocalFilter.Put(s, bh, state), m);
    var right := if bh.miner == m then LocalFilter.Put(LocalOf(s, m), bh, state) else LocalOf(s, m);
    assert left.byEpoch == right.byEpoch;
    assert left.byParents == right.byParents;
  }

  lemma ChecksAreLocal(f: Filter, bh: Header, parentEpoch: Epoch, pick: Epoch)
    ensures Has(f, bh) == Has(FilterOf(f, bh.miner), bh)
    ensures ValidPick(f, bh, pick) == ValidPick(FilterOf(f, bh.miner), bh, pick)
    ensures Mined(f, bh, parentEpoch, pick) == Mined(FilterOf(f, bh.miner), bh, parentEpoch, pick)
  {
    if f.Mysql? {
      var own := FilterOf(f, bh.miner).rows;
      assert forall e :: MysqlFilter.SharesParents(f.rows, bh, e) == MysqlFilter.SharesParents(own, bh, e);
    }
  }

  // ---- One step ----

  lemma LiveUpdate(live: map<Address, Job>, n: Address, job: Job, m: Address)
    ensures LiveOf(live[n := job], m) == if n == m then LiveOf(live, m)[m := job] else LiveOf(live, m)
    ensures LiveOf(live - {n}, m) == if n == m then LiveOf(live, m) - {m} else LiveOf(live, m)
  {
  }

  lemma SubmittedSnoc(subs: seq<Submission>, s: Submission, m: Address)
    ensures SubmittedBy(subs + [s], m) == SubmittedBy(subs, m) + (if s.bh.miner == m then [s] else [])
  {
    assert (subs + [s])[..|subs|] == subs;
  }

  lemma PassedSnoc(passed: seq<Header>, bh: Header, m: Address)
    ensures PassedBy(passed + [bh], m) == PassedBy(passed, m) + (if bh.miner == m then [bh] else [])
  {
    assert (passed + [bh])[..|passed|] == passed;
  }

  lemma StoredIsLocal(g: Gate, bh: Header, parentEpoch: Epoch, at: Option<int>, state: StateMining, m: Address)
    ensures Project(Stored(g, bh, parentEpoch, at, state), m)
            == if bh.miner == m then Stored(Project(g, m), bh, parentEpoch, at, state) else Project(g, m)
  {
    PutIsLocal(g.filter, bh, parentEpoch, at, state, m);
    LocalPutIsLocal(g.mirror, bh, state, m);
  }

  /** The step that ends a broadcast and its put. */
  lemma RecordIsLocal(g: Gate, n: Address, failed: bool, m: Address)
    requires JobsInv(g) && Enabled(g, Record(n, failed))
    ensures Project(Apply(g, Record(n, failed)), m)
            == if n != m then Project(g, m)
               else if failed
               then Project(g, m).(live := LiveOf(g.live, m) - {m}, lost := PassedBy(g.lost, m) + [g.live[m].bh])
               else Stored(Project(g, m), g.live[m].bh, g.live[m].stage.parentEpoch, None, g.live[m].stage.state)
                    .(live := LiveOf(g.live, m) - {m})
  {
    var job := g.live[n];
    LiveUpdate(g.live, n, job, m);
    if failed {
      PassedSnoc(g.lost, job.bh, m);
    } else {
      StoredIsLocal(g, job.bh, job.stage.parentEpoch, None, job.stage.state, m);
    }
  }

  /** A step of another miner leaves this miner's part alone. */
  lemma ForeignStep(g: Gate, e: Event, m: Address)
    requires JobsInv(g) && Enabled(g, e) && MinerOf(e) != m
    ensures Project(Apply(g, e), m) == Project(g, m)
  {
    var n := MinerOf(e);
    if e.Note? {
      StoredIsLocal(g, e.bh, e.parentEpoch, e.at, e.state, m);
    } else if e.Record? {
      RecordIsLocal(g, n, e.failed, m);
    } else {
      ForeignMove(g, e, m);
    }
  }

  /** A step that leaves the stores alone changes the live broadcasts and the histories. */
  lemma ProjectMove(g: Gate, live: map<Address, Job>, subs: seq<Submission>, passed: seq<Header>, m: Address)
    ensures Project(g.(live := live, submitted := subs, passed := passed), m)
            == Project(g, m).(live := LiveOf(live, m), submitted := SubmittedBy(subs, m), passed := PassedBy(passed, m))
  {
  }

  /** What such a step of miner `n` does to the live broadcast of `n` and the histories. */
  lemma MoveShape(g: Gate, e: Event)
    requires JobsInv(g) && Enabled(g, e) && !e.Note? && !e.Record?
    ensures var n, g' := MinerOf(e), Apply(g, e);
            && g' == g.(live := g'.live, submitted := g'.submitted, passed := g'.passed)
            && (g'.live == g.live - {n} || exists job: Job :: job.bh.miner == n && g'.live == g.live[n := job])
            && (g'.submitted == g.submitted
                || (n in g.live
                    && g'.submitted == g.submitted + [Submission(g.live[n].bh, g.live[n].baseHeight)]))
            && (g'.passed == g.passed || (n in g.live && g'.passed == g.passed + [g.live[n].bh]))
  {
    var n, g' := MinerOf(e), Apply(g, e);
    if n in g'.live {
      assert g'.live[n].bh.miner == n && g'.live == g.live[n := g'.live[n]];
    }
  }

  lemma ForeignMove(g: Gate, e: Event, m: Address)
    requires JobsInv(g) && Enabled(g, e) && MinerOf(e) != m && !e.Note? && !e.Record?
    ensures Project(Apply(g, e), m) == Project(g, m)
  {
    var n, g' := MinerOf(e), Apply(g, e);
    MoveShape(g, e);
    ProjectMove(g, g'.live, g'.submitted, g'.passed, m);
    if n in g.live {
      PassedSnoc(g.passed, g.live[n].bh, m);
      SubmittedSnoc(g.submitted, Submission(g.live[n].bh, g.live[n].baseHeight), m);
      LiveUpdate(g.live, n, g.live[n], m);
    }
    if n in g'.live {
      LiveUpdate(g.live, n, g'.live[n], m);
    }
  }

  /** A step of this miner is allowed, and does the same, in this miner's part alone. */
  lemma OwnStep(g: Gate, e: Event)
    requires JobsInv(g)
    ensures Enabled(g, e) <==> Enabled(Project(g, MinerOf(e)), e)
    ensures Enabled(g, e) ==> Project(Apply(g, e), MinerOf(e)) == Apply(Project(g, MinerOf(e)), e)
  {
    var m := MinerOf(e);
    if m in g.live {
      var job := g.live[m];
      ChecksAreLocal(g.filter, job.bh, job.baseHeight, if e.CheckMined? then e.pick else 0);
    }
    if Enabled(g, e) {
      if e.Note? {
        StoredIsLocal(g, e.bh, e.parentEpoch, e.at, e.state, m);
      } else if e.Record? {
        RecordIsLocal(g, m, e.failed, m);
      } else {
        OwnMove(g, e);
      }
    }
  }

  lemma OwnMove(g: Gate, e: Event)
    requires JobsInv(g) && !e.Note? && !e.Record?
    requires Enabled(g, e) && Enabled(Project(g, MinerOf(e)), e)
    ensures Project(Apply(g, e), MinerOf(e)) == Apply(Project(g, MinerOf(e)), e)
  {
    var m := MinerOf(e);
    var g' := Apply(g, e);
    ProjectMove(g, g'.live, g'.submitted, g'.passed, m);
    MoveShape(g, e);
    if e.Launch? {
      LiveUpdate(g.live, m, g'.live[m], m);
    } else if e.CheckHas? {
      OwnCheckHas(g, e);
    } else if e.CheckMined? {
      OwnCheckMined(g, e);
    } else {
      OwnSubmit(g, e);
    }
  }

  /** The miner's part with its live broadcast and histories as the step leaves them. */
  ghost function Moved(g: Gate, e: Event): Gate
    requires Enabled(g, e)
  {
    var m, g' := MinerOf(e), Apply(g, e);
    Project(g, m).(live := LiveOf(g'.live, m),
                   submitted := SubmittedBy(g'.submitted, m),
                   passed := PassedBy(g'.passed, m))
  }

  lemma OwnCheckHas(g: Gate, e: Event)
    requires JobsInv(g) && e.CheckHas?
    requires Enabled(g, e) && Enabled(Project(g, MinerOf(e)), e)
    ensures Apply(Project(g, MinerOf(e)), e) == Moved(g, e)
  {
    var job := g.live[e.miner];
    ChecksAreLocal(g.filter, job.bh, job.baseHeight, 0);
    LiveUpdate(g.live, e.miner, job.(stage := AtMined), e.miner);
    PassedSnoc(g.passed, job.bh, e.miner);
  }

  lemma OwnCheckMined(g: Gate, e: Event)
    requires JobsInv(g) && e.CheckMined?
    requires Enabled(g, e) && Enabled(Project(g, MinerOf(e)), e)
    ensures Apply(Project(g, MinerOf(e)), e) == Moved(g, e)
  {
    var job := g.live[e.miner];
    ChecksAreLocal(g.filter, job.bh, job.baseHeight, e.pick);
    LiveUpdate(g.live, e.miner, Apply(g, e).live[e.miner], e.miner);
  }

  lemma OwnSubmit(g: Gate, e: Event)
    requires JobsInv(g) && e.Submit?
    requires Enabled(g, e) && Enabled(Project(g, MinerOf(e)), e)
    ensures Apply(Project(g, MinerOf(e)), e) == Moved(g, e)
  {
    var m, job := e.miner, g.live[e.miner];
    var p, after := Project(g, m), Apply(g, e).live[m];
    LiveUpdate(g.live, m, after, m);
    SubmittedSnoc(g.submitted, Submission(job.bh, job.baseHeight), m);
    assert p.live[m] == job;
    assert Apply(p, e).live == p.live[m := after] == Moved(g, e).live;
    assert Apply(p, e).submitted == Moved(g, e).submitted;
    assert Apply(p, e).passed == Moved(g, e).passed;
  }

  // ---- Whole runs ----

  /** Projecting a run onto a miner gives the run of that miner's own steps. */
  lemma {:induction false} ProjectedRun(g: Gate, es: seq<Event>, m: Address)
    requires Inv(g) && Legal(g, es)
    ensures Legal(Project(g, m), EventsOf(es, m))
    ensures Project(Exec(g, es), m) == Exec(Project(g, m), EventsOf(es, m))
    decreases |es|
  {
    if es != [] {
      StepKeepsInv(g, es[0]);
      var g' := Apply(g, es[0]);
      ProjectedRun(g', es[1..], m);
      if MinerOf(es[0]) == m {
        OwnStep(g, es[0]);
        assert EventsOf(es, m)[1..] == EventsOf(es[1..], m);
      } else {
        ForeignStep(g, es[0], m);
        assert EventsOf(es, m) == EventsOf(es[1..], m);
      }
    }
  }

  /** Every interleaving of per-miner runs is a run. */
  lemma {:induction false} MergedRunIsLegal(g: Gate, es: seq<Event>)
    requires Inv(g)
    requires forall m :: Legal(Project(g, m), EventsOf(es, m))
    ensures Legal(g, es)
    decreases |es|
  {
    if es != [] {
      var m0 := MinerOf(es[0]);
      assert Legal(Project(g, m0), EventsOf(es, m0));
      assert EventsOf(es, m0)[0] == es[0];
      OwnStep(g, es[0]);
      StepKeepsInv(g, es[0]);
      var g' := Apply(g, es[0]);
      forall m
        ensures Legal(Project(g', m), EventsOf(es[1..], m))
      {
        assert Legal(Project(g, m), EventsOf(es, m));
        if m == m0 {
          assert EventsOf(es, m)[1..] == EventsOf(es[1..], m);
        } else {
          ForeignStep(g, es[0], m);
          assert EventsOf(es, m) == EventsOf(es[1..], m);
        }
      }
      MergedRunIsLegal(g', es[1..]);
    }
  }

  lemma SameParts(f: Filter, f': Filter)
    requires forall m :: FilterOf(f, m) == FilterOf(f', m)
    ensures f == f'
  {
    assert FilterOf(f, "") == FilterOf(f', "");
    match f
    case Local(s) =>
      forall k: (Address, Epoch)
        ensures k in s.byEpoch <==> k in f'.store.byEpoch
        ensures k in s.byEpoch ==> s.byEpoch[k] == f'.store.byEpoch[k]
      {
        var own, own' := FilterOf(f, k.0).store.byEpoch, FilterOf(f', k.0).store.byEpoch;
        assert own == own';
        assert k in s.byEpoch <==> k in own;
        assert k in f'.store.byEpoch <==> k in own';
      }
      forall k: (Address, TipSetKey)
        ensures k in s.byParents <==> k in f'.store.byParents
        ensures k in s.byParents ==> s.byParents[k] == f'.store.byParents[k]
      {
        var own, own' := FilterOf(f, k.0).store.byParents, FilterOf(f', k.0).store.byParents;
        assert own == own';
        assert k in s.byParents <==> k in own;
        assert k in f'.store.byParents <==> k in own';
      }
      assert s.byEpoch == f'.store.byEpoch;
      assert s.byParents == f'.store.byParents;
    case Mysql(rows) =>
      forall k: (Address, Epoch)
        ensures k in rows <==> k in f'.rows
        ensures k in rows ==> rows[k] == f'.rows[k]
      {
        var own, own' := FilterOf(f, k.0).rows, FilterOf(f', k.0).rows;
        assert own == own';
        assert k in rows <==> k in own;
        assert k in f'.rows <==> k in own';
      }
      assert rows == f'.rows;
  }

  /** Miner by miner the same blocks were submitted, passed and lost, in the same order. */
  ghost predicate SameHistories(g: Gate, g': Gate) {
    forall m :: && SubmittedBy(g.submitted, m) == SubmittedBy(g'.submitted, m)
                && PassedBy(g.passed, m) == PassedBy(g'.passed, m)
                && PassedBy(g.lost, m) == PassedBy(g'.lost, m)
  }

  lemma SameProjections(g: Gate, g': Gate)
    requires forall m :: Project(g, m) == Project(g', m)
    ensures g.filter == g'.filter && g.live == g'.live && SameHistories(g, g')
  {
    forall m
      ensures FilterOf(g.filter, m) == FilterOf(g'.filter, m)
      ensures (m in g.live <==> m in g'.live) && (m in g.live ==> g.live[m] == g'.live[m])
      ensures SubmittedBy(g.submitted, m) == SubmittedBy(g'.submitted, m)
      ensures PassedBy(g.passed, m) == PassedBy(g'.passed, m) && PassedBy(g.lost, m) == PassedBy(g'.lost, m)
    {
      assert Project(g, m) == Project(g', m);
      assert m in g.live <==> m in Project(g, m).live;
      assert m in g'.live <==> m in Project(g', m).live;
    }
    SameParts(g.filter, g'.filter);
    assert g.live == g'.live;
  }

  /** Two schedules that give each miner the same steps in the same order are both runs if one is,
      and end with the same store, the same broadcasts under way and the same decisions per miner. */
  lemma InterleavingsAgree(g: Gate, es: seq<Event>, es': seq<Event>)
    requires Inv(g) && Legal(g, es)
    requires forall m :: EventsOf(es, m) == EventsOf(es', m)
    ensures Legal(g, es')
    ensures Exec(g, es').filter == Exec(g, es).filter
    ensures Exec(g, es').live == Exec(g, es).live
    ensures SameHistories(Exec(g, es'), Exec(g, es))
  {
    forall m
      ensures Legal(Project(g, m), EventsOf(es', m))
    {
      assert EventsOf(es, m) == EventsOf(es', m);
      ProjectedRun(g, es, m);
    }
    MergedRunIsLegal(g, es');
    forall m
      ensures Project(Exec(g, es'), m) == Project(Exec(g, es), m)
    {
      assert EventsOf(es, m) == EventsOf(es', m);
      ProjectedRun(g, es, m);
      ProjectedRun(g, es', m);
    }
    SameProjections(Exec(g, es'), Exec(g, es));
  }

  // ---- Serial orders ----

  /** The steps of the miners one after the other. */
  function Serial(es: seq<Event>, order: seq<Address>): seq<Event> {
    if order == [] then [] else EventsOf(es, order[0]) + Serial(es, order[1..])
  }

  lemma EventsOfCons(e: Event, rest: seq<Event>, m: Address)
    ensures EventsOf([e] + rest, m) == (if MinerOf(e) == m then [e] else []) + EventsOf(rest, m)
  {
    assert ([e] + rest)[1..] == rest;
  }

  lemma {:induction false} EventsOfConcat(a: seq<Event>, b: seq<Event>, m: Address)
    ensures EventsOf(a + b, m) == EventsOf(a, m) + EventsOf(b, m)
    decreases |a|
  {
    if a == [] {
      assert a + b == b;
    } else {
      EventsOfConcat(a[1..], b, m);
      EventsOfCons(a[0], a[1..], m);
      EventsOfCons(a[0], a[1..] + b, m);
      assert a == [a[0]] + a[1..] && a + b == [a[0]] + (a[1..] + b);
    }
  }

  lemma {:induction false} EventsOfEvents(es: seq<Event>, n: Address, m: Address)
    ensures EventsOf(EventsOf(es, n), m) == if n == m then EventsOf(es, m) else []
  {
    if es != [] {
      EventsOfEvents(es[1..], n, m);
      if MinerOf(es[0]) == n {
        assert EventsOf(es, n)[1..] == EventsOf(es[1..], n);
      } else {
        assert EventsOf(es, n) == EventsOf(es[1..], n);
      }
    }
  }

  lemma {:induction false} SerialKeepsEvents(es: seq<Event>, order: seq<Address>, m: Address)
    requires forall i, j | 0 <= i < j < |order| :: order[i] != order[j]
    ensures EventsOf(Serial(es, order), m) == if m in order then EventsOf(es, m) else []
  {
    if order != [] {
      SerialKeepsEvents(es, order[1..], m);
      EventsOfConcat(EventsOf(es, order[0]), Serial(es, order[1..]), m);
      EventsOfEvents(es, order[0], m);
    }
  }

  lemma {:induction false} NoEventsOfStranger(es: seq<Event>, m: Address)
    requires forall e | e in es :: MinerOf(e) != m
    ensures EventsOf(es, m) == []
  {
    if es != [] {
      assert es[0] in es;
      NoEventsOfStranger(es[1..], m);
    }
  }

  /** Every interleaving of a round's broadcasts ends as any serial order of them does. */
  lemma InterleavingIsSerial(g: Gate, es: seq<Event>, order: seq<Address>)
    requires Inv(g) && Legal(g, es)
    requires forall i, j | 0 <= i < j < |order| :: order[i] != order[j]
    requires forall e | e in es :: MinerOf(e) in order
    ensures Legal(g, Serial(es, order))
    ensures Exec(g, Serial(es, order)).filter == Exec(g, es).filter
    ensures Exec(g, Serial(es, order)).live == Exec(g, es).live
    ensures SameHistories(Exec(g, Serial(es, order)), Exec(g, es))
  {
    forall m
      ensures EventsOf(es, m) == EventsOf(Serial(es, order), m)
    {
      SerialKeepsEvents(es, order, m);
      if m !in order {
        NoEventsOfStranger(es, m);
      }
    }
    InterleavingsAgree(g, es, Serial(es, order));
  }
}
