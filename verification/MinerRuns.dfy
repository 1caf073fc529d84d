/** The miner as a whole: the passes of the mining loop, their puts and the broadcasts of their blocks make
    one run of the publish gate, in every schedule that keeps each miner's own order. */
module MinerRuns {
  import opened Chain
  import opened Faults
  import opened PublishGate
  import opened GateSafety
  import opened GateLimits
  import opened GateInterleaving
  import opened MiningLoop
  import opened MinerObject
  import opened Broadcast
  import MysqlFilter

  /** What the stores and nodes answer one broadcast, and the row its unordered query answers. */
  datatype Service = Service(answers: Answers, pick: Epoch)

  /** One pass: what the loop is answered, its winners and the order in which the attempts finished, and
      what the broadcasts of its blocks are answered. */
  datatype Turn = Turn(env: Env, wins: seq<WinPoSt>, order: seq<Address>, services: seq<Service>)

  /** Steps of the gate, what they leave in the filter and what they submit. */
  datatype Trace = Trace(events: seq<Event>, filter: Filter, submitted: seq<Submission>)

  // ---- The steps of one broadcast, one pass and one run ----

  function CourseFor(f: Filter, b: Block, base: Base, v: Service): Course {
    CourseOf(f, b.header, base.tipset.height, v.answers, v.pick)
  }

  /** The answered row exists, and the put after an accepted submit does not fail. */
  ghost predicate Fits(f: Filter, b: Block, base: Base, v: Service) {
    && (v.answers.minedBad == {} ==> PublishGate.ValidPick(f, b.header, v.pick))
    && (CourseFor(f, b, base, v) == Sent ==> v.answers.putBad == {})
  }

  function BroadcastTrace(f: Filter, b: Block, base: Base, v: Service): Trace {
    var course := CourseFor(f, b, base, v);
    Trace([Launch(b.header, base.tipset.height, base.nullRounds)] + Steps(b.header.miner, v.answers, v.pick, course),
          Outcome(f, b.header, base.tipset.height, base.nullRounds, course, v.answers.putBad),
          if course == Sent then [Submission(b.header, base.tipset.height)] else [])
  }

  /** A published block's row says so, and names the epoch before the block's, null rounds and all. */
  lemma RowOfBlock(rows: MysqlFilter.Rows, b: Block, base: Base, v: Service)
    requires b.header.ticket.Some? && b.header.height == Round(base)
    requires Fits(Mysql(rows), b, base, v) && CourseFor(Mysql(rows), b, base, v) == Sent
    ensures var t := BroadcastTrace(Mysql(rows), b, base, v);
            && t.submitted == [Submission(b.header, base.tipset.height)]
            && t.filter.Mysql? && (b.header.miner, b.header.height) in t.filter.rows
            && var row := t.filter.rows[(b.header.miner, b.header.height)];
            && row.cid == Some(CidOf(b.header))
            && row.state == Success
            && row.parentEpoch == b.header.height - 1
  {
    RowOfBroadcast(rows, b.header, base.tipset.height, base.nullRounds, v.answers, v.pick);
  }

  function Then(t: Trace, u: Trace): Trace {
    Trace(t.events + u.events, u.filter, t.submitted + u.submitted)
  }

  /** The broadcasts of one pass; a block without a service is not broadcast. */
  function ServeAll(f: Filter, blocks: seq<Block>, base: Base, services: seq<Service>): Trace
    decreases |blocks|
  {
    if blocks == [] || services == [] then Trace([], f, []) else
    var first := BroadcastTrace(f, blocks[0], base, services[0]);
    Then(first, ServeAll(first.filter, blocks[1..], base, services[1..]))
  }

  ghost predicate AllFit(f: Filter, blocks: seq<Block>, base: Base, services: seq<Service>)
    decreases |blocks|
  {
    blocks != [] && services != [] ==>
      && Fits(f, blocks[0], base, services[0])
      && AllFit(BroadcastTrace(f, blocks[0], base, services[0]).filter, blocks[1..], base, services[1..])
  }

  function AfterPuts(f: Filter, puts: seq<Event>): Filter
    decreases |puts|
  {
    if puts == [] then f
    else if puts[0].Note?
    then AfterPuts(PublishGate.Put(f, puts[0].bh, puts[0].parentEpoch, puts[0].at, puts[0].state), puts[1..])
    else AfterPuts(f, puts[1..])
  }

  function PassTrace(f: Filter, r: PassResult, turn: Turn): Trace {
    if !r.Mined? then Trace([], f, []) else
    var puts := PassPuts(r, turn.env, turn.order, turn.wins);
    Then(Trace(puts, AfterPuts(f, puts), []), ServeAll(AfterPuts(f, puts), r.blocks, r.final, turn.services))
  }

  ghost predicate PassFits(f: Filter, r: PassResult, turn: Turn) {
    r.Mined? ==>
      AllFit(AfterPuts(f, PassPuts(r, turn.env, turn.order, turn.wins)), r.blocks, r.final, turn.services)
  }

  function RunTrace(f: Filter, results: seq<PassResult>, turns: seq<Turn>): Trace
    requires |results| == |turns|
  {
    if results == [] then Trace([], f, []) else
    var n := |results| - 1;
    var before := RunTrace(f, results[..n], turns[..n]);
    Then(before, PassTrace(before.filter, results[n], turns[n]))
  }

  ghost predicate RunFits(f: Filter, results: seq<PassResult>, turns: seq<Turn>)
    requires |results| == |turns|
  {
    results != [] ==>
      var n := |results| - 1;
      && RunFits(f, results[..n], turns[..n])
      && PassFits(RunTrace(f, results[..n], turns[..n]).filter, results[n], turns[n])
  }

  // ---- They are runs of the gate ----

  /** From a gate without broadcasts the trace is a run that ends without broadcasts. */
  ghost predicate Plays(g: Gate, t: Trace) {
    && Legal(g, t.events)
    && Exec(g, t.events).filter == t.filter
    && Exec(g, t.events).live == map[]
    && Exec(g, t.events).submitted == g.submitted + t.submitted
  }

  lemma PlaysThen(g: Gate, t: Trace, u: Trace)
    requires Plays(g, t) && Plays(Exec(g, t.events), u)
    ensures Plays(g, Then(t, u))
  {
    ExecSplit(g, t.events, u.events);
  }

  predicate Ticketed(blocks: seq<Block>) {
    forall b | b in blocks :: b.header.ticket.Some?
  }

  lemma {:induction false} ServeAllPlays(g: Gate, blocks: seq<Block>, base: Base, services: seq<Service>)
    requires g.live == map[] && Ticketed(blocks) && AllFit(g.filter, blocks, base, services)
    ensures Plays(g, ServeAll(g.filter, blocks, base, services))
    decreases |blocks|
  {
    if blocks != [] && services != [] {
      var b, v := blocks[0], services[0];
      var first := BroadcastTrace(g.filter, b, base, v);
      BroadcastIsRun(g, b.header, base.tipset.height, base.nullRounds, v.answers, v.pick);
      assert Plays(g, first);
      ServeAllPlays(Exec(g, first.events), blocks[1..], base, services[1..]);
      PlaysThen(g, first, ServeAll(first.filter, blocks[1..], base, services[1..]));
    }
  }

  lemma {:induction false} PutsPlay(g: Gate, b: Base, puts: seq<Event>)
    requires g.live == map[] && forall e | e in puts :: IsLoopPut(e, b)
    ensures Plays(g, Trace(puts, AfterPuts(g.filter, puts), []))
    decreases |puts|
  {
    if puts != [] {
      assert puts[0] in puts && forall e | e in puts[1..] :: e in puts;
      PutsPlay(Apply(g, puts[0]), b, puts[1..]);
    }
  }

  lemma PassPlays(g: Gate, r: PassResult, turn: Turn)
    requires g.live == map[] && PassFits(g.filter, r, turn) && (r.Mined? ==> Ticketed(r.blocks))
    ensures Plays(g, PassTrace(g.filter, r, turn))
  {
    if r.Mined? {
      var puts := PassPuts(r, turn.env, turn.order, turn.wins);
      PassPutsAreLoopPuts(r, turn.env, turn.order, turn.wins);
      PutsPlay(g, r.used, puts);
      ServeAllPlays(Exec(g, puts), r.blocks, r.final, turn.services);
      PlaysThen(g, Trace(puts, AfterPuts(g.filter, puts), []),
                ServeAll(AfterPuts(g.filter, puts), r.blocks, r.final, turn.services));
    }
  }

  /** Every block of every pass has a ticket, and lies above its base. */
  ghost predicate SoundResults(results: seq<PassResult>) {
    forall r | r in results && r.Mined? ::
      && Ticketed(r.blocks) && DistinctBlocks(r.blocks) && r.final.nullRounds >= 0
      && forall b | b in r.blocks :: b.header.height == Round(r.final)
  }

  lemma {:induction false} RunPlays(f: Filter, results: seq<PassResult>, turns: seq<Turn>)
    requires |results| == |turns| && RunFits(f, results, turns) && SoundResults(results)
    ensures Plays(Init(f), RunTrace(f, results, turns))
  {
    if results != [] {
      var n := |results| - 1;
      var before := RunTrace(f, results[..n], turns[..n]);
      assert results[n] in results;
      RunPlays(f, results[..n], turns[..n]);
      var g := Exec(Init(f), before.events);
      PassPlays(g, results[n], turns[n]);
      PlaysThen(Init(f), before, PassTrace(before.filter, results[n], turns[n]));
    }
  }

  // ---- The passes of the loop are sound ----

  predicate NullsOk(b: Option<Base>) {
    b.Some? ==> b.value.nullRounds >= 0
  }

  lemma {:induction false} SelectKeepsNulls(lastWork: Option<Base>, prev: Option<Base>, polls: seq<Poll>)
    requires NullsOk(lastWork)
    ensures NullsOk(Select(lastWork, prev, polls).lastWork)
    decreases |polls|
  {
    if polls != [] && polls[0].head.Some? {
      var b := Candidate(lastWork, polls[0].head.value);
      if !SameRoundBase(prev, b) && polls[0].beacon {
        SelectKeepsNulls(Some(b), Some(b), polls[1..]);
      }
    }
  }

  lemma PassIsSound(st: LoopState, env: Env, wins: seq<WinPoSt>, delay: int)
    requires NullsOk(st.lastWork)
    requires var r := Pass(st, env, wins, delay).1; r.Mined? ==> WinsOf(r.used, env.attempts, wins)
    ensures NullsOk(Pass(st, env, wins, delay).0.lastWork)
    ensures SoundResults([Pass(st, env, wins, delay).1])
  {
    SelectKeepsNulls(st.lastWork, None, env.polls);
    SelectionIsPrepared(st.lastWork, env.polls);
    PassIsCoherent(st, env, wins, delay);
  }

  lemma {:induction false} PassesAreSound(
    st: LoopState, envs: seq<Env>, winss: seq<seq<WinPoSt>>, delay: int)
    requires |envs| == |winss| && NullsOk(st.lastWork)
    requires WinnersKnown(Passes(st, envs, winss, delay).1, envs, winss)
    ensures NullsOk(Passes(st, envs, winss, delay).0.lastWork)
    ensures SoundResults(Passes(st, envs, winss, delay).1)
    decreases |envs|
  {
    if envs != [] {
      var n := |envs| - 1;
      var (before, results) := Passes(st, envs[..n], winss[..n], delay);
      var r := Pass(before, envs[n], winss[n], delay).1;
      assert Passes(st, envs, winss, delay).1 == results + [r];
      forall i | 0 <= i < n && results[i].Mined?
        ensures WinsOf(results[i].used, envs[..n][i].attempts, winss[..n][i])
      {
        assert Passes(st, envs, winss, delay).1[i] == results[i];
      }
      assert Passes(st, envs, winss, delay).1[n] == r;
      PassesAreSound(st, envs[..n], winss[..n], delay);
      PassIsSound(before, envs[n], winss[n], delay);
      assert r in [r];
    }
  }

  // ---- Rising rounds give rising submissions ----

  /** Every pass that mines does so on a higher round than the passes before it. */
  predicate RoundsRise(results: seq<PassResult>) {
    forall i, j | 0 <= i < j < |results| && results[i].Mined? && results[j].Mined? ::
      Round(results[i].final) < Round(results[j].final)
  }

  /** Submissions of different miners at one height above their base. */
  predicate AtRound(subs: seq<Submission>, base: Base) {
    && (forall s | s in subs :: s.bh.height == Round(base) && s.baseHeight == base.tipset.height)
    && (forall i, j | 0 <= i < j < |subs| :: subs[i].bh.miner != subs[j].bh.miner)
  }

  lemma {:induction false} ServeAllAtRound(f: Filter, blocks: seq<Block>, base: Base, services: seq<Service>)
    requires DistinctBlocks(blocks) && forall b | b in blocks :: b.header.height == Round(base)
    ensures AtRound(ServeAll(f, blocks, base, services).submitted, base)
    ensures forall s | s in ServeAll(f, blocks, base, services).submitted ::
              exists b | b in blocks :: b.header == s.bh
    decreases |blocks|
  {
    if blocks != [] && services != [] {
      var first := BroadcastTrace(f, blocks[0], base, services[0]);
      var rest := ServeAll(first.filter, blocks[1..], base, services[1..]);
      assert forall b | b in blocks[1..] :: b in blocks;
      assert forall i | 0 <= i < |blocks| - 1 :: blocks[1..][i] == blocks[i + 1];
      ServeAllAtRound(first.filter, blocks[1..], base, services[1..]);
      forall i | 0 <= i < |rest.submitted|
        ensures rest.submitted[i].bh.miner != blocks[0].header.miner
      {
        assert rest.submitted[i] in rest.submitted;
        var b :| b in blocks[1..] && b.header == rest.submitted[i].bh;
        var k :| 0 <= k < |blocks| - 1 && blocks[1..][k] == b;
      }
      assert blocks[0] in blocks;
    }
  }

  lemma RisingThen(subs: seq<Submission>, more: seq<Submission>, base: Base)
    requires Rising(subs) && AtRound(more, base) && base.nullRounds >= 0
    requires forall s | s in subs :: s.bh.height < Round(base)
    ensures Rising(subs + more)
    ensures forall s | s in subs + more :: s.bh.height <= Round(base)
  {
    var all := subs + more;
    forall i | 0 <= i < |all|
      ensures all[i].baseHeight < all[i].bh.height
    {
      assert i >= |subs| ==> all[i] in more;
    }
    forall i, j | 0 <= i < j < |all| && SameMiner(all[i], all[j])
      ensures all[i].bh.height < all[j].bh.height
    {
      assert j >= |subs| ==> all[j] in more;
      assert i < |subs| ==> all[i] in subs;
    }
  }

  lemma {:induction false} LastFinalIsMined(results: seq<PassResult>)
    ensures LastFinal(results, None).Some? ==>
              exists i | 0 <= i < |results| ::
                results[i].Mined? && results[i].final == LastFinal(results, None).value
  {
    if results != [] {
      var n := |results| - 1;
      LastFinalIsMined(results[..n]);
      if !results[n].Mined? && LastFinal(results, None).Some? {
        var i :| 0 <= i < n && results[..n][i].Mined? && results[..n][i].final == LastFinal(results, None).value;
        assert results[i].Mined?;
      }
    }
  }

  /** No submission lies above the last round mined. */
  predicate UpToLast(subs: seq<Submission>, results: seq<PassResult>) {
    forall s | s in subs :: LastFinal(results, None).Some? && s.bh.height <= Round(LastFinal(results, None).value)
  }

  lemma LastIsLower(results: seq<PassResult>, n: nat)
    requires RoundsRise(results) && n < |results| && results[n].Mined? && LastFinal(results[..n], None).Some?
    ensures Round(LastFinal(results[..n], None).value) < Round(results[n].final)
  {
    LastFinalIsMined(results[..n]);
  }

  lemma PassRises(f: Filter, r: PassResult, turn: Turn, subs: seq<Submission>)
    requires SoundResults([r]) && Rising(subs) && r.Mined?
    requires forall s | s in subs :: s.bh.height < Round(r.final)
    ensures Rising(subs + PassTrace(f, r, turn).submitted)
    ensures forall s | s in subs + PassTrace(f, r, turn).submitted :: s.bh.height <= Round(r.final)
  {
    assert r in [r];
    var filter := AfterPuts(f, PassPuts(r, turn.env, turn.order, turn.wins));
    var served := ServeAll(filter, r.blocks, r.final, turn.services).submitted;
    ServeAllAtRound(filter, r.blocks, r.final, turn.services);
    RisingThen(subs, served, r.final);
    assert PassTrace(f, r, turn).submitted == [] + served == served;
  }

  lemma TurnRises(f: Filter, results: seq<PassResult>, turn: Turn, subs: seq<Submission>)
    requires results != [] && SoundResults(results) && RoundsRise(results)
    requires Rising(subs) && UpToLast(subs, results[..|results| - 1])
    ensures var more := PassTrace(f, results[|results| - 1], turn).submitted;
            Rising(subs + more) && UpToLast(subs + more, results)
  {
    var n := |results| - 1;
    var r := results[n];
    assert r in results;
    if r.Mined? {
      if LastFinal(results[..n], None).Some? {
        LastIsLower(results, n);
      }
      PassRises(f, r, turn, subs);
    } else {
      assert subs + [] == subs;
    }
  }

  lemma {:induction false} RunRises(f: Filter, results: seq<PassResult>, turns: seq<Turn>)
    requires |results| == |turns| && SoundResults(results) && RoundsRise(results)
    ensures Rising(RunTrace(f, results, turns).submitted)
    ensures UpToLast(RunTrace(f, results, turns).submitted, results)
  {
    if results != [] {
      var n := |results| - 1;
      var before := RunTrace(f, results[..n], turns[..n]);
      assert forall x | x in results[..n] :: x in results;
      RunRises(f, results[..n], turns[..n]);
      TurnRises(before.filter, results, turns[n], before.submitted);
      assert RunTrace(f, results, turns).submitted
          == before.submitted + PassTrace(before.filter, results[n], turns[n]).submitted;
    }
  }

  // ---- Other schedules rise as well ----

  /** The submission lies above its base and above what its miner submitted before. */
  predicate Above(subs: seq<Submission>, s: Submission) {
    s.baseHeight < s.bh.height && forall x | x in subs && SameMiner(x, s) :: x.bh.height < s.bh.height
  }

  lemma RisingSnoc(subs: seq<Submission>, s: Submission)
    ensures Rising(subs + [s]) <==> Rising(subs) && Above(subs, s)
  {
    var all := subs + [s];
    assert forall i | 0 <= i < |subs| :: all[i] == subs[i];
    assert all[|subs|] == s;
    if Rising(all) {
      forall i, j | 0 <= i < j < |subs| && SameMiner(subs[i], subs[j])
        ensures subs[i].bh.height < subs[j].bh.height
      {
        assert SameMiner(all[i], all[j]);
      }
      forall x | x in subs && SameMiner(x, s)
        ensures x.bh.height < s.bh.height
      {
        var i :| 0 <= i < |subs| && subs[i] == x;
        assert SameMiner(all[i], all[|subs|]);
      }
    }
  }

  lemma {:induction false} SubmittedByMembers(subs: seq<Submission>, m: Address)
    ensures forall s :: s in SubmittedBy(subs, m) <==> s in subs && s.bh.miner == m
  {
    if subs != [] {
      SubmittedByMembers(subs[..|subs| - 1], m);
    }
  }

  lemma RisingOfMinerSnoc(subs: seq<Submission>, s: Submission, m: Address)
    ensures Rising(SubmittedBy(subs + [s], m)) <==>
              Rising(SubmittedBy(subs, m)) && (m == s.bh.miner ==> Above(subs, s))
  {
    SubmittedSnoc(subs, s, m);
    if m == s.bh.miner {
      SubmittedByMembers(subs, m);
      RisingSnoc(SubmittedBy(subs, m), s);
    } else {
      assert SubmittedBy(subs, m) + [] == SubmittedBy(subs, m);
    }
  }

  ghost predicate RisingForAll(subs: seq<Submission>) {
    forall m :: Rising(SubmittedBy(subs, m))
  }

  lemma RisingForAllSnoc(subs: seq<Submission>, s: Submission)
    ensures RisingForAll(subs + [s]) <==> RisingForAll(subs) && Above(subs, s)
  {
    forall m
      ensures Rising(SubmittedBy(subs + [s], m)) <==>
                Rising(SubmittedBy(subs, m)) && (m == s.bh.miner ==> Above(subs, s))
    {
      RisingOfMinerSnoc(subs, s, m);
    }
    assert RisingForAll(subs + [s]) ==> Rising(SubmittedBy(subs + [s], s.bh.miner));
  }

  /** Heights rise exactly if they do miner by miner. */
  lemma {:induction false} RisingByMiner(subs: seq<Submission>)
    ensures Rising(subs) <==> RisingForAll(subs)
  {
    if subs != [] {
      var before, s := subs[..|subs| - 1], subs[|subs| - 1];
      assert subs == before + [s];
      RisingByMiner(before);
      RisingSnoc(before, s);
      RisingForAllSnoc(before, s);
    }
  }

  // ---- The miner as a whole ----

  function EnvsOf(turns: seq<Turn>): seq<Env> {
    seq(|turns|, i requires 0 <= i < |turns| => turns[i].env)
  }

  function WinssOf(turns: seq<Turn>): seq<seq<WinPoSt>> {
    seq(|turns|, i requires 0 <= i < |turns| => turns[i].wins)
  }

  function ResultsOf(turns: seq<Turn>, delay: int): seq<PassResult> {
    Passes(LoopState(None, None), EnvsOf(turns), WinssOf(turns), delay).1
  }

  /** The loop started afresh with these answers, broadcasts that end before the same miner's next step,
      and a schedule `es` of all their steps that keeps each miner's own order. */
  ghost predicate IsSchedule(f: Filter, turns: seq<Turn>, delay: int, es: seq<Event>) {
    && WinnersKnown(ResultsOf(turns, delay), EnvsOf(turns), WinssOf(turns))
    && RunFits(f, ResultsOf(turns, delay), turns)
    && forall m :: EventsOf(RunTrace(f, ResultsOf(turns, delay), turns).events, m) == EventsOf(es, m)
  }

  lemma TraceSchedule(f: Filter, trace: Trace, es: seq<Event>)
    requires f == EMPTY_LOCAL || f == EMPTY_MYSQL
    requires Plays(Init(f), trace) && forall m :: EventsOf(trace.events, m) == EventsOf(es, m)
    ensures Legal(Init(f), es)
    ensures Exec(Init(f), es).filter == trace.filter && Exec(Init(f), es).live == map[]
    ensures forall m :: SubmittedBy(Exec(Init(f), es).submitted, m) == SubmittedBy(trace.submitted, m)
  {
    InterleavingsAgree(Init(f), trace.events, es);
    assert Exec(Init(f), trace.events).submitted == trace.submitted;
  }

  lemma TraceScheduleIsFaultFree(f: Filter, trace: Trace, es: seq<Event>)
    requires f == EMPTY_LOCAL || f == EMPTY_MYSQL
    requires Plays(Init(f), trace) && forall m :: EventsOf(trace.events, m) == EventsOf(es, m)
    requires Rising(trace.submitted)
    ensures Legal(Init(f), es)
    ensures NoForks(Exec(Init(f), es).submitted)
    ensures f == EMPTY_LOCAL ==> NoFaults(Exec(Init(f), es).submitted)
  {
    TraceSchedule(f, trace, es);
    RisingByMiner(trace.submitted);
    RisingByMiner(Exec(Init(f), es).submitted);
    RisingHeightsAreFaultFree(f, es);
  }

  lemma ResultsAreSound(turns: seq<Turn>, delay: int)
    requires WinnersKnown(ResultsOf(turns, delay), EnvsOf(turns), WinssOf(turns))
    ensures SoundResults(ResultsOf(turns, delay))
  {
    PassesAreSound(LoopState(None, None), EnvsOf(turns), WinssOf(turns), delay);
  }

  /** Whatever the loop, the stores and the nodes are answered: every such schedule is a run of the gate,
      and leaves in the filter what the passes do one after the other. */
  lemma ScheduleIsRun(f: Filter, turns: seq<Turn>, delay: int, es: seq<Event>)
    requires f == EMPTY_LOCAL || f == EMPTY_MYSQL
    requires IsSchedule(f, turns, delay, es)
    ensures Legal(Init(f), es)
    ensures Exec(Init(f), es).filter == RunTrace(f, ResultsOf(turns, delay), turns).filter
    ensures Exec(Init(f), es).live == map[]
    ensures forall m :: SubmittedBy(Exec(Init(f), es).submitted, m)
                        == SubmittedBy(RunTrace(f, ResultsOf(turns, delay), turns).submitted, m)
  {
    ResultsAreSound(turns, delay);
    RunPlays(f, ResultsOf(turns, delay), turns);
    TraceSchedule(f, RunTrace(f, ResultsOf(turns, delay), turns), es);
  }

  /** If the rounds mined rise, such a schedule publishes no double fork and no parent grinding in either
      direction, and over the local store no time-offset block either. */
  lemma ScheduleIsFaultFree(f: Filter, turns: seq<Turn>, delay: int, es: seq<Event>)
    requires f == EMPTY_LOCAL || f == EMPTY_MYSQL
    requires IsSchedule(f, turns, delay, es) && RoundsRise(ResultsOf(turns, delay))
    ensures Legal(Init(f), es)
    ensures NoForks(Exec(Init(f), es).submitted)
    ensures f == EMPTY_LOCAL ==> NoFaults(Exec(Init(f), es).submitted)
  {
    ResultsAreSound(turns, delay);
    RunPlays(f, ResultsOf(turns, delay), turns);
    RunRises(f, ResultsOf(turns, delay), turns);
    TraceScheduleIsFaultFree(f, RunTrace(f, ResultsOf(turns, delay), turns), es);
  }
}
