/** The publish gate: every broadcast runs HasBlock, MinedBlock, submit and PutBlock as separate steps
    over one shared slash filter, while the mining loop adds rows of its own. */
module PublishGate {
  import opened Chain
  import opened Faults
  import LocalFilter
  import MysqlFilter

  /** `SlashFilterAPI`: one of the two stores. */
  datatype Filter = Local(store: LocalFilter.LocalStore) | Mysql(rows: MysqlFilter.Rows)

  const EMPTY_LOCAL := Local(LocalFilter.EMPTY)
  const EMPTY_MYSQL := Mysql(map[])

  /** The CID a filter holds against (miner, epoch), if any. */
  function Recorded(f: Filter, m: Address, e: Epoch): Option<Cid> {
    match f
    case Local(s) => if (m, e) in s.byEpoch then Some(s.byEpoch[(m, e)]) else None
    case Mysql(rows) => MysqlFilter.RowCid(rows, m, e)
  }

  predicate Has(f: Filter, bh: Header) {
    match f
    case Local(s) => LocalFilter.Has(s, bh)
    case Mysql(rows) => MysqlFilter.Has(rows, bh)
  }

  ghost predicate ValidPick(f: Filter, bh: Header, pick: Epoch) {
    f.Mysql? ==> MysqlFilter.ValidPick(f.rows, bh, pick)
  }

  function Mined(f: Filter, bh: Header, parentEpoch: Epoch, pick: Epoch): Verdict {
    match f
    case Local(s) => LocalFilter.Mined(s, bh, parentEpoch)
    case Mysql(rows) => MysqlFilter.Mined(rows, bh, parentEpoch, pick)
  }

  function MinedWith(f: Filter, bh: Header, parentEpoch: Epoch, pick: Epoch, bad: set<Access>): (v: Verdict)
    ensures v == Clear <==> bad == {} && Mined(f, bh, parentEpoch, pick) == Clear
  {
    match f
    case Local(s) => LocalFilter.MinedWith(s, bh, parentEpoch, bad)
    case Mysql(rows) => MysqlFilter.MinedWith(rows, bh, parentEpoch, pick, bad)
  }

  function Put(f: Filter, bh: Header, parentEpoch: Epoch, at: Option<int>, state: StateMining): Filter {
    match f
    case Local(s) => Local(LocalFilter.Put(s, bh, state))
    case Mysql(rows) => Mysql(MysqlFilter.Put(rows, bh, parentEpoch, at, state))
  }

  function PutWith(
    f: Filter, bh: Header, parentEpoch: Epoch, at: Option<int>, state: StateMining, bad: set<Access>): Filter
  {
    match f
    case Local(s) => Local(LocalFilter.PutWith(s, bh, state, bad))
    case Mysql(rows) => Mysql(MysqlFilter.PutWith(rows, bh, parentEpoch, at, state, bad))
  }

  /** Where one call of `broadCastBlock` stands. */
  datatype Stage =
    | AtHas
    | AtMined
    | AtSubmit
    | AtRecord(state: StateMining, parentEpoch: Epoch)

  datatype Job = Job(bh: Header, baseHeight: Epoch, nullRounds: Epoch, stage: Stage)

  /** `live` holds at most one running broadcast per miner. `submitted` lists the blocks some node
      accepted, `passed` those that got past HasBlock, `lost` those whose `Error` put failed, in order;
      `mirror` is a local store that receives every put the filter receives. The last four are history
      and steer nothing. */
  datatype Gate = Gate(
    filter: Filter,
    live: map<Address, Job>,
    submitted: seq<Submission>,
    passed: seq<Header>,
    lost: seq<Header>,
    mirror: LocalFilter.LocalStore)

  function Init(f: Filter): Gate {
    Gate(f, map[], [], [], [], LocalFilter.EMPTY)
  }

  /** One atomic step. `failed` is a store error, `pick` the row an unordered query answers.
      A put of the mining loop that fails is no step. */
  datatype Event =
    | Launch(bh: Header, baseHeight: Epoch, nullRounds: Epoch)
    | CheckHas(miner: Address, failed: bool)
    | CheckMined(miner: Address, failed: bool, pick: Epoch)
    | Submit(miner: Address, accepted: bool)
    | Record(miner: Address, failed: bool)
    | Note(bh: Header, parentEpoch: Epoch, at: Option<int>, state: StateMining)

  function MinerOf(e: Event): Address {
    match e
    case Launch(bh, _, _) => bh.miner
    case Note(bh, _, _, _) => bh.miner
    case CheckHas(m, _) => m
    case CheckMined(m, _, _) => m
    case Submit(m, _) => m
    case Record(m, _) => m
  }

  /** A created block carries a ticket; the mining loop's own puts never do and never report success.
      The put that records an accepted block does not fail. */
  ghost predicate Enabled(g: Gate, e: Event) {
    match e
    case Launch(bh, _, _) => bh.miner !in g.live && bh.ticket.Some?
    case CheckHas(m, _) => m in g.live && g.live[m].stage.AtHas?
    case CheckMined(m, failed, pick) =>
      m in g.live && g.live[m].stage.AtMined? && (failed || ValidPick(g.filter, g.live[m].bh, pick))
    case Submit(m, _) => m in g.live && g.live[m].stage.AtSubmit?
    case Record(m, failed) =>
      m in g.live && g.live[m].stage.AtRecord? && (failed ==> g.live[m].stage.state != Success)
    case Note(bh, _, _, state) => bh.ticket.None? && state != Success
  }

  function Stored(g: Gate, bh: Header, parentEpoch: Epoch, at: Option<int>, state: StateMining): Gate {
    g.(filter := Put(g.filter, bh, parentEpoch, at, state),
       mirror := LocalFilter.Put(g.mirror, bh, state))
  }

  ghost function Apply(g: Gate, e: Event): Gate
    requires Enabled(g, e)
  {
    match e
    case Launch(bh, baseHeight, nulls) =>
      g.(live := g.live[bh.miner := Job(bh, baseHeight, nulls, AtHas)])
    case CheckHas(m, failed) =>
      var job := g.live[m];
      if failed || Has(g.filter, job.bh) then g.(live := g.live - {m})
      else g.(live := g.live[m := job.(stage := AtMined)], passed := g.passed + [job.bh])
    case CheckMined(m, failed, pick) =>
      var job := g.live[m];
      if failed || Mined(g.filter, job.bh, job.baseHeight, pick) != Clear
      then g.(live := g.live[m := job.(stage := AtRecord(Error, job.baseHeight))])
      else g.(live := g.live[m := job.(stage := AtSubmit)])
    case Submit(m, accepted) =>
      var job := g.live[m];
      var outcome := if accepted then Success else Error;
      g.(live := g.live[m := job.(stage := AtRecord(outcome, job.baseHeight + job.nullRounds))],
         submitted := if accepted then g.submitted + [Submission(job.bh, job.baseHeight)] else g.submitted)
    case Record(m, failed) =>
      var job := g.live[m];
      if failed then g.(live := g.live - {m}, lost := g.lost + [job.bh])
      else Stored(g, job.bh, job.stage.parentEpoch, None, job.stage.state).(live := g.live - {m})
    case Note(bh, parentEpoch, at, state) =>
      Stored(g, bh, parentEpoch, at, state)
  }

  ghost predicate Legal(g: Gate, es: seq<Event>)
    decreases |es|
  {
    es == [] || (Enabled(g, es[0]) && Legal(Apply(g, es[0]), es[1..]))
  }

  ghost function Exec(g: Gate, es: seq<Event>): Gate
    requires Legal(g, es)
    decreases |es|
  {
    if es == [] then g else Exec(Apply(g, es[0]), es[1..])
  }

  /** The first step of a run. */
  lemma ExecOne(g: Gate, e: Event, es: seq<Event>)
    requires Enabled(g, e)
    ensures Legal(g, [e] + es) <==> Legal(Apply(g, e), es)
    ensures Legal(g, [e] + es) ==> Exec(g, [e] + es) == Exec(Apply(g, e), es)
  {
    assert ([e] + es)[1..] == es;
  }
}
