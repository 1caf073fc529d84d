/** `CountWinners`: one goroutine per miner, one per epoch below it, a channel of 100 slots as a
    semaphore that is closed at the end. Every step of every goroutine is one event. */
module CountWinners {
  import opened Chain

  const SLOTS: nat := 100

  /** What looking up one epoch answers. `listed` errors are reported in the result, others only logged. */
  datatype Outcome = Win(count: int) | NotWinner | Failed(listed: bool, msg: string)

  datatype WinInfo = WinInfo(epoch: Epoch, winCount: int, msg: string)

  datatype Count = Count(miner: Address, totalWinCount: int, msg: string, winEpochList: seq<WinInfo>)

  /** The goroutine that looks up one epoch of one miner. */
  datatype Worker = Worker(miner: Address, epoch: Epoch)

  type Oracle = Worker -> Outcome

  /** The round that `winCountInRound` asks about, given the height of the tipset found for the epoch. */
  function WinRound(epoch: Epoch, tipsetHeight: Epoch): (round: Epoch)
    ensures tipsetHeight <= epoch ==> round == epoch + 1
    ensures round > epoch && round > tipsetHeight
  {
    var nullRounds := if epoch > tipsetHeight then epoch - tipsetHeight else 0;
    tipsetHeight + nullRounds + 1
  }

  /** The entry a lookup adds to its miner's list; the listed epoch is the round, one above. */
  function InfoOf(w: Worker, o: Outcome): Option<WinInfo> {
    match o
    case Win(n) => Some(WinInfo(w.epoch + 1, n, ""))
    case NotWinner => None
    case Failed(listed, msg) => if listed then Some(WinInfo(w.epoch + 1, 0, msg)) else None
  }

  function Sum(infos: seq<WinInfo>): int {
    if infos == [] then 0 else Sum(infos[..|infos| - 1]) + infos[|infos| - 1].winCount
  }

  /** The entries of the lookups in `order`. */
  function Infos(order: seq<Worker>, lookup: Oracle): seq<WinInfo> {
    if order == [] then [] else
    var last := order[|order| - 1];
    Infos(order[..|order| - 1], lookup)
    + match InfoOf(last, lookup(last)) { case None => [] case Some(x) => [x] }
  }

  /** Spawned, holding a slot while looking up, entry added, signalled as done, slot given back. */
  datatype Stage = Waiting | Holding | Counted | Draining | Gone

  /** The workers and the channel. `tokens` is the channel's fill, `slots` (history) the workers whose
      send it stands for. */
  datatype Pool = Pool(
    stages: map<Worker, Stage>, tokens: nat, slots: set<Worker>, closed: bool, sentOnClosed: bool)

  /** What the goroutine of one miner collects; `order` (history) are the workers whose entries it holds. */
  datatype Tally = Tally(infos: seq<WinInfo>, total: int, order: seq<Worker>)

  /** `next` is the epoch each miner's goroutine spawns next; `listing` are the miners whose goroutine
      still collects. The result list is `unknown`, filled before any goroutine starts, and then
      `counts`. */
  datatype State = State(
    pool: Pool,
    tallies: map<Address, Tally>,
    next: map<Address, Epoch>,
    listing: set<Address>,
    unknown: seq<Count>,
    counts: seq<Count>)

  function Result(s: State): seq<Count> {
    s.unknown + s.counts
  }

  function Unknown(addrs: seq<Address>, known: set<Address>): seq<Count> {
    if addrs == [] then [] else
    Unknown(addrs[..|addrs| - 1], known)
    + if addrs[|addrs| - 1] in known then [] else [Count(addrs[|addrs| - 1], 0, "miner not exist", [])]
  }

  /** The requested miners that are configured, or all configured ones if none is requested. */
  function Chosen(addrs: seq<Address>, known: set<Address>): set<Address> {
    if addrs == [] then known else set a | a in addrs && a in known
  }

  function Init(addrs: seq<Address>, known: set<Address>, start: Epoch): State {
    var chosen := Chosen(addrs, known);
    State(Pool(map[], 0, {}, false, false),
          map m | m in chosen :: Tally([], 0, []),
          map m | m in chosen :: start,
          chosen,
          Unknown(addrs, known),
          [])
  }

  /** A worker takes its next step, or a miner's goroutine spawns one or hands in its count. */
  datatype Event = Spawn(miner: Address) | Work(w: Worker) | Collect(miner: Address) | CloseChannel

  /** The workers `wgWin` still waits for. */
  predicate Busy(p: Pool, w: Worker) {
    w in p.stages && (p.stages[w].Waiting? || p.stages[w].Holding? || p.stages[w].Counted?)
  }

  /** The worker can move: a send needs a free slot, a receive a token, unless the channel is closed. */
  predicate CanMove(p: Pool, w: Worker) {
    w in p.stages &&
    match p.stages[w]
    case Waiting => p.closed || p.tokens < SLOTS
    case Draining => p.closed || p.tokens > 0
    case Gone => false
    case _ => true
  }

  function Move(p: Pool, w: Worker): Pool
    requires CanMove(p, w)
  {
    match p.stages[w]
    case Waiting =>
      if p.closed then p.(sentOnClosed := true)
      else p.(stages := p.stages[w := Holding], tokens := p.tokens + 1, slots := p.slots + {w})
    case Holding => p.(stages := p.stages[w := Counted])
    case Counted => p.(stages := p.stages[w := Draining])
    case Draining =>
      p.(stages := p.stages[w := Gone], tokens := if p.tokens > 0 then p.tokens - 1 else 0, slots := p.slots - {w})
    case Gone => p
  }

  function AddInfo(t: Tally, w: Worker, info: Option<WinInfo>): Tally {
    if info.None? then t
    else Tally(t.infos + [info.value], t.total + info.value.winCount, t.order + [w])
  }

  ghost predicate Enabled(s: State, e: Event, end: Epoch) {
    match e
    case Spawn(m) => m in s.listing && m in s.next && s.next[m] <= end
    case Work(w) => CanMove(s.pool, w) && w.miner in s.tallies
    case Collect(m) =>
      && m in s.listing && m in s.next && s.next[m] > end && m in s.tallies
      && forall w: Worker | w.miner == m :: !Busy(s.pool, w)
    case CloseChannel => s.listing == {} && !s.pool.closed
  }

  ghost function Apply(s: State, e: Event, end: Epoch, lookup: Oracle): State
    requires Enabled(s, e, end)
  {
    match e
    case Spawn(m) =>
      s.(pool := s.pool.(stages := s.pool.stages[Worker(m, s.next[m]) := Waiting]), next := s.next[m := s.next[m] + 1])
    case Work(w) =>
      s.(pool := Move(s.pool, w),
         tallies := if s.pool.stages[w] == Holding
                    then s.tallies[w.miner := AddInfo(s.tallies[w.miner], w, InfoOf(w, lookup(w)))]
                    else s.tallies)
    case Collect(m) =>
      s.(listing := s.listing - {m}, counts := s.counts + [Count(m, s.tallies[m].total, "", s.tallies[m].infos)])
    case CloseChannel => s.(pool := s.pool.(closed := true))
  }

  ghost predicate Legal(s: State, es: seq<Event>, end: Epoch, lookup: Oracle)
    decreases |es|
  {
    es == [] || (Enabled(s, es[0], end) && Legal(Apply(s, es[0], end, lookup), es[1..], end, lookup))
  }

  ghost function Exec(s: State, es: seq<Event>, end: Epoch, lookup: Oracle): State
    requires Legal(s, es, end, lookup)
    decreases |es|
  {
    if es == [] then s else Exec(Apply(s, es[0], end, lookup), es[1..], end, lookup)
  }

  // ---- The semaphore ----

  /** The tokens in the channel are those of the workers between their send and their receive. */
  ghost predicate PoolInv(p: Pool) {
    && (forall w | w in p.stages ::
          (w in p.slots <==> p.stages[w].Holding? || p.stages[w].Counted? || p.stages[w].Draining?))
    && p.slots <= p.stages.Keys
    && p.tokens == |p.slots| <= SLOTS
  }

  lemma MoveKeepsPool(p: Pool, w: Worker)
    requires PoolInv(p) && CanMove(p, w)
    ensures PoolInv(Move(p, w))
  {
  }

  /** Each miner's goroutine has spawned its epochs from `start` on, busy workers belong to a goroutine
      that still collects, and so none that could still send is left once the channel is closed. */
  ghost predicate SpawnInv(s: State, start: Epoch, end: Epoch) {
    && s.listing <= s.next.Keys
    && (forall m | m in s.next :: start <= s.next[m] && (s.next[m] <= end + 1 || s.next[m] == start))
    && (forall w | w in s.pool.stages :: w.miner in s.next && start <= w.epoch < s.next[w.miner])
    && (forall m, e | m in s.next && start <= e < s.next[m] :: Worker(m, e) in s.pool.stages)
    && (forall w | Busy(s.pool, w) :: w.miner in s.listing)
    && (s.pool.closed ==> s.listing == {})
    && !s.pool.sentOnClosed
  }

  lemma WorkKeepsSpawn(s: State, w: Worker, start: Epoch, end: Epoch, lookup: Oracle)
    requires SpawnInv(s, start, end) && Enabled(s, Work(w), end)
    ensures SpawnInv(Apply(s, Work(w), end, lookup), start, end)
  {
    var p' := Move(s.pool, w);
    assert s.pool.stages[w].Waiting? ==> Busy(s.pool, w);
    assert p'.stages.Keys == s.pool.stages.Keys;
    assert forall v | Busy(p', v) :: Busy(s.pool, v);
  }

  lemma StepKeepsSpawn(s: State, e: Event, start: Epoch, end: Epoch, lookup: Oracle)
    requires SpawnInv(s, start, end) && Enabled(s, e, end)
    ensures SpawnInv(Apply(s, e, end, lookup), start, end)
  {
    match e
    case Work(w) => WorkKeepsSpawn(s, w, start, end, lookup);
    case Spawn(m) =>
      var p' := Apply(s, e, end, lookup).pool;
      assert forall v | Busy(p', v) :: Busy(s.pool, v) || v == Worker(m, s.next[m]);
    case _ =>
  }

  lemma StepKeepsPool(s: State, e: Event, start: Epoch, end: Epoch, lookup: Oracle)
    requires PoolInv(s.pool) && SpawnInv(s, start, end) && Enabled(s, e, end)
    ensures PoolInv(Apply(s, e, end, lookup).pool)
  {
    match e
    case Work(w) => MoveKeepsPool(s.pool, w);
    case Spawn(m) => assert Worker(m, s.next[m]) !in s.pool.stages;
    case _ =>
  }

  /** The lookups in flight never exceed the slots. */
  function InFlight(p: Pool): set<Worker> {
    set w | w in p.stages && p.stages[w] == Holding
  }

  lemma SlotsBoundLookups(p: Pool)
    requires PoolInv(p)
    ensures |InFlight(p)| <= SLOTS
  {
    assert InFlight(p) <= p.slots;
    SubsetIsSmaller(InFlight(p), p.slots);
  }

  lemma {:induction false} SubsetIsSmaller<T>(a: set<T>, b: set<T>)
    requires a <= b
    ensures |a| <= |b|
  {
    assert b == a + (b - a);
  }

  // ---- The lists ----

  /** The worker has looked up its epoch and added its entry. */
  predicate Looked(p: Pool, w: Worker) {
    w in p.stages && (p.stages[w].Counted? || p.stages[w].Draining? || p.stages[w].Gone?)
  }

  ghost predicate Distinct(order: seq<Worker>) {
    forall i, j | 0 <= i < j < |order| :: order[i] != order[j]
  }

  /** `order` holds exactly the lookups made so far for `m` that have an entry. */
  ghost predicate OrderOk(p: Pool, m: Address, order: seq<Worker>, lookup: Oracle) {
    && Distinct(order)
    && (forall w :: w in order <==> Looked(p, w) && w.miner == m && InfoOf(w, lookup(w)).Some?)
  }

  predicate ValuesOk(t: Tally, lookup: Oracle) {
    t.infos == Infos(t.order, lookup) && t.total == Sum(t.infos)
  }

  ghost predicate TallyOk(p: Pool, m: Address, t: Tally, lookup: Oracle) {
    OrderOk(p, m, t.order, lookup) && ValuesOk(t, lookup)
  }

  ghost predicate TalliesInv(s: State, lookup: Oracle) {
    s.tallies.Keys == s.next.Keys && forall m | m in s.tallies :: TallyOk(s.pool, m, s.tallies[m], lookup)
  }

  /** `order` runs once through the epochs of `m` in the range that have an entry. */
  ghost predicate Covers(order: seq<Worker>, m: Address, start: Epoch, end: Epoch, lookup: Oracle) {
    && Distinct(order)
    && (forall w :: w in order <==> w.miner == m && start <= w.epoch <= end && InfoOf(w, lookup(w)).Some?)
  }

  /** The finished list of one miner, read off the lookups alone. */
  ghost predicate Exact(c: Count, start: Epoch, end: Epoch, lookup: Oracle) {
    && c.totalWinCount == Sum(c.winEpochList)
    && (exists order :: Covers(order, c.miner, start, end, lookup) && c.winEpochList == Infos(order, lookup))
  }

  lemma {:induction false} InfosAt(order: seq<Worker>, lookup: Oracle)
    requires forall w | w in order :: InfoOf(w, lookup(w)).Some?
    ensures |Infos(order, lookup)| == |order|
    ensures forall i | 0 <= i < |order| :: Some(Infos(order, lookup)[i]) == InfoOf(order[i], lookup(order[i]))
  {
    if order != [] {
      InfosAt(order[..|order| - 1], lookup);
    }
  }

  lemma EntryAt(order: seq<Worker>, i: nat, m: Address, start: Epoch, end: Epoch, lookup: Oracle)
    requires Covers(order, m, start, end, lookup) && i < |order| == |Infos(order, lookup)|
    requires Some(Infos(order, lookup)[i]) == InfoOf(order[i], lookup(order[i]))
    ensures Infos(order, lookup)[i].epoch == order[i].epoch + 1
    ensures start <= order[i].epoch <= end && order[i] == Worker(m, order[i].epoch)
  {
    assert order[i] in order;
  }

  lemma EntriesAreApart(
    order: seq<Worker>, infos: seq<WinInfo>, m: Address, start: Epoch, end: Epoch, lookup: Oracle)
    requires Covers(order, m, start, end, lookup) && infos == Infos(order, lookup)
    ensures forall i | 0 <= i < |infos| :: start + 1 <= infos[i].epoch <= end + 1
    ensures forall i, j | 0 <= i < j < |infos| :: infos[i].epoch != infos[j].epoch
  {
    InfosAt(order, lookup);
    forall i | 0 <= i < |infos|
      ensures start + 1 <= infos[i].epoch <= end + 1
    {
      EntryAt(order, i, m, start, end, lookup);
    }
    forall i, j | 0 <= i < j < |infos|
      ensures infos[i].epoch != infos[j].epoch
    {
      EntryAt(order, i, m, start, end, lookup);
      EntryAt(order, j, m, start, end, lookup);
    }
  }

  lemma OrderOf(c: Count, start: Epoch, end: Epoch, lookup: Oracle) returns (order: seq<Worker>)
    requires Exact(c, start, end, lookup)
    ensures Covers(order, c.miner, start, end, lookup) && c.winEpochList == Infos(order, lookup)
  {
    order :| Covers(order, c.miner, start, end, lookup) && c.winEpochList == Infos(order, lookup);
  }

  /** So its epochs are distinct and lie one above the epochs asked for, ... */
  lemma ExactListIsApart(c: Count, start: Epoch, end: Epoch, lookup: Oracle)
    requires Exact(c, start, end, lookup)
    ensures forall i | 0 <= i < |c.winEpochList| :: start + 1 <= c.winEpochList[i].epoch <= end + 1
    ensures forall i, j | 0 <= i < j < |c.winEpochList| :: c.winEpochList[i].epoch != c.winEpochList[j].epoch
  {
    var order := OrderOf(c, start, end, lookup);
    EntriesAreApart(order, c.winEpochList, c.miner, start, end, lookup);
  }

  /** ... and no win in the range is missing. */
  lemma ExactListHasEveryWin(c: Count, w: Worker, start: Epoch, end: Epoch, lookup: Oracle)
    requires Exact(c, start, end, lookup)
    requires w.miner == c.miner && start <= w.epoch <= end && lookup(w).Win?
    ensures WinInfo(w.epoch + 1, lookup(w).count, "") in c.winEpochList
  {
    var order := OrderOf(c, start, end, lookup);
    WinIsListed(order, w, c.miner, start, end, lookup);
  }

  lemma WinIsListed(order: seq<Worker>, w: Worker, m: Address, start: Epoch, end: Epoch, lookup: Oracle)
    requires Covers(order, m, start, end, lookup)
    requires w.miner == m && start <= w.epoch <= end && lookup(w).Win?
    ensures WinInfo(w.epoch + 1, lookup(w).count, "") in Infos(order, lookup)
  {
    InfosAt(order, lookup);
    assert w in order;
    var i :| 0 <= i < |order| && order[i] == w;
    assert Infos(order, lookup)[i] == WinInfo(w.epoch + 1, lookup(w).count, "");
  }

  lemma SumSnoc(infos: seq<WinInfo>, x: WinInfo)
    ensures Sum(infos + [x]) == Sum(infos) + x.winCount
  {
    assert (infos + [x])[..|infos|] == infos;
  }

  lemma InfosSnoc(order: seq<Worker>, w: Worker, lookup: Oracle)
    requires InfoOf(w, lookup(w)).Some?
    ensures Infos(order + [w], lookup) == Infos(order, lookup) + [InfoOf(w, lookup(w)).value]
  {
    assert (order + [w])[..|order|] == order;
  }

  lemma OrderGrows(order: seq<Worker>, w: Worker)
    requires Distinct(order) && w !in order
    ensures Distinct(order + [w])
    ensures forall v :: v in order + [w] <==> v in order || v == w
  {
  }

  lemma LookKeepsOrder(p: Pool, p': Pool, m: Address, order: seq<Worker>, w: Worker, lookup: Oracle)
    requires OrderOk(p, m, order, lookup) && !Looked(p, w)
    requires forall v :: Looked(p', v) <==> Looked(p, v) || v == w
    ensures OrderOk(p', m, if w.miner == m && InfoOf(w, lookup(w)).Some? then order + [w] else order, lookup)
  {
    OrderGrows(order, w);
  }

  lemma LookKeepsValues(t: Tally, w: Worker, lookup: Oracle)
    requires ValuesOk(t, lookup)
    ensures ValuesOk(AddInfo(t, w, InfoOf(w, lookup(w))), lookup)
  {
    if InfoOf(w, lookup(w)).Some? {
      InfosSnoc(t.order, w, lookup);
      SumSnoc(t.infos, InfoOf(w, lookup(w)).value);
    }
  }

  lemma LookKeepsTally(p: Pool, p': Pool, m: Address, t: Tally, w: Worker, lookup: Oracle)
    requires TallyOk(p, m, t, lookup) && !Looked(p, w)
    requires forall v :: Looked(p', v) <==> Looked(p, v) || v == w
    ensures TallyOk(p', m, if w.miner == m then AddInfo(t, w, InfoOf(w, lookup(w))) else t, lookup)
  {
    LookKeepsOrder(p, p', m, t.order, w, lookup);
    LookKeepsValues(t, w, lookup);
  }

  /** The step of a worker that holds a slot; `m` is any miner. */
  lemma LookStep(s: State, w: Worker, m: Address, end: Epoch, lookup: Oracle)
    requires Enabled(s, Work(w), end) && s.pool.stages[w] == Holding
    requires m in s.tallies && TallyOk(s.pool, m, s.tallies[m], lookup)
    ensures var s' := Apply(s, Work(w), end, lookup);
            m in s'.tallies && TallyOk(s'.pool, m, s'.tallies[m], lookup)
  {
    var p' := Move(s.pool, w);
    assert forall v :: Looked(p', v) <==> Looked(s.pool, v) || v == w;
    LookKeepsTally(s.pool, p', m, s.tallies[m], w, lookup);
  }

  /** Every other step. */
  lemma OtherStep(s: State, e: Event, m: Address, start: Epoch, end: Epoch, lookup: Oracle)
    requires SpawnInv(s, start, end) && Enabled(s, e, end)
    requires e.Work? ==> s.pool.stages[e.w] != Holding
    requires m in s.tallies && TallyOk(s.pool, m, s.tallies[m], lookup)
    ensures var s' := Apply(s, e, end, lookup);
            m in s'.tallies && TallyOk(s'.pool, m, s'.tallies[m], lookup)
  {
    var p' := Apply(s, e, end, lookup).pool;
    assert e.Spawn? ==> Worker(e.miner, s.next[e.miner]) !in s.pool.stages;
    assert forall v :: Looked(p', v) <==> Looked(s.pool, v);
  }

  lemma StepKeepsTallies(s: State, e: Event, start: Epoch, end: Epoch, lookup: Oracle)
    requires SpawnInv(s, start, end) && TalliesInv(s, lookup) && Enabled(s, e, end)
    ensures TalliesInv(Apply(s, e, end, lookup), lookup)
  {
    var s' := Apply(s, e, end, lookup);
    assert s'.tallies.Keys == s.tallies.Keys && s'.next.Keys == s.next.Keys;
    forall m | m in s'.tallies
      ensures TallyOk(s'.pool, m, s'.tallies[m], lookup)
    {
      assert TallyOk(s.pool, m, s.tallies[m], lookup);
      if e.Work? && s.pool.stages[e.w] == Holding {
        LookStep(s, e.w, m, end, lookup);
      } else {
        OtherStep(s, e, m, start, end, lookup);
      }
    }
  }

  // ---- The result ----

  ghost predicate AllExact(counts: seq<Count>, start: Epoch, end: Epoch, lookup: Oracle) {
    forall i | 0 <= i < |counts| :: counts[i].msg == "" && Exact(counts[i], start, end, lookup)
  }

  /** The counts name each of `miners` once, and nobody else. */
  ghost predicate OnePer(counts: seq<Count>, miners: set<Address>) {
    && (forall i | 0 <= i < |counts| :: counts[i].miner in miners)
    && (forall m | m in miners :: exists i :: 0 <= i < |counts| && counts[i].miner == m)
    && (forall i, j | 0 <= i < j < |counts| :: counts[i].miner != counts[j].miner)
  }

  /** What follows the unknown addresses: one exact count for each of `miners`. */
  ghost predicate CountsFor(counts: seq<Count>, miners: set<Address>, start: Epoch, end: Epoch, lookup: Oracle) {
    AllExact(counts, start, end, lookup) && OnePer(counts, miners)
  }

  lemma OnePerSnoc(counts: seq<Count>, miners: set<Address>, c: Count)
    requires OnePer(counts, miners) && c.miner !in miners
    ensures OnePer(counts + [c], miners + {c.miner})
  {
    forall m | m in miners + {c.miner}
      ensures exists i :: 0 <= i < |counts + [c]| && (counts + [c])[i].miner == m
    {
      if m == c.miner {
        assert (counts + [c])[|counts|].miner == m;
      } else {
        var i :| 0 <= i < |counts| && counts[i].miner == m;
        assert (counts + [c])[i].miner == m;
      }
    }
  }

  lemma AllExactSnoc(counts: seq<Count>, c: Count, start: Epoch, end: Epoch, lookup: Oracle)
    requires AllExact(counts, start, end, lookup) && c.msg == "" && Exact(c, start, end, lookup)
    ensures AllExact(counts + [c], start, end, lookup)
  {
  }

  ghost predicate ResultInv(s: State, start: Epoch, end: Epoch, lookup: Oracle) {
    CountsFor(s.counts, s.next.Keys - s.listing, start, end, lookup)
  }

  lemma CollectIsExact(s: State, m: Address, start: Epoch, end: Epoch, lookup: Oracle)
    requires SpawnInv(s, start, end) && TalliesInv(s, lookup) && Enabled(s, Collect(m), end)
    ensures Exact(Count(m, s.tallies[m].total, "", s.tallies[m].infos), start, end, lookup)
  {
    var order := s.tallies[m].order;
    assert TallyOk(s.pool, m, s.tallies[m], lookup);
    forall w
      ensures w in order <==> w.miner == m && start <= w.epoch <= end && InfoOf(w, lookup(w)).Some?
    {
      if w.miner == m {
        assert w == Worker(m, w.epoch);
        assert Looked(s.pool, w) <==> w in s.pool.stages;
      }
    }
    assert Covers(order, m, start, end, lookup);
  }

  lemma CollectKeepsResult(s: State, m: Address, start: Epoch, end: Epoch, lookup: Oracle)
    requires Enabled(s, Collect(m), end) && s.listing <= s.next.Keys
    requires Exact(Count(m, s.tallies[m].total, "", s.tallies[m].infos), start, end, lookup)
    requires ResultInv(s, start, end, lookup)
    ensures ResultInv(Apply(s, Collect(m), end, lookup), start, end, lookup)
  {
    var s' := Apply(s, Collect(m), end, lookup);
    var c := Count(m, s.tallies[m].total, "", s.tallies[m].infos);
    OnePerSnoc(s.counts, s.next.Keys - s.listing, c);
    AllExactSnoc(s.counts, c, start, end, lookup);
    assert s'.next.Keys - s'.listing == (s.next.Keys - s.listing) + {m};
  }

  lemma StepKeepsResult(s: State, e: Event, start: Epoch, end: Epoch, lookup: Oracle)
    requires SpawnInv(s, start, end) && TalliesInv(s, lookup) && Enabled(s, e, end)
    requires ResultInv(s, start, end, lookup)
    ensures ResultInv(Apply(s, e, end, lookup), start, end, lookup)
  {
    if e.Collect? {
      CollectIsExact(s, e.miner, start, end, lookup);
      CollectKeepsResult(s, e.miner, start, end, lookup);
    } else {
      assert Apply(s, e, end, lookup).next.Keys == s.next.Keys;
    }
  }

  ghost predicate Inv(s: State, chosen: set<Address>, start: Epoch, end: Epoch, lookup: Oracle) {
    && PoolInv(s.pool)
    && SpawnInv(s, start, end)
    && TalliesInv(s, lookup)
    && ResultInv(s, start, end, lookup)
    && s.next.Keys == chosen
  }

  lemma StepKeepsInv(
    s: State, e: Event, chosen: set<Address>, start: Epoch, end: Epoch, lookup: Oracle)
    requires Inv(s, chosen, start, end, lookup) && Enabled(s, e, end)
    ensures Inv(Apply(s, e, end, lookup), chosen, start, end, lookup)
  {
    StepKeepsPool(s, e, start, end, lookup);
    StepKeepsSpawn(s, e, start, end, lookup);
    StepKeepsTallies(s, e, start, end, lookup);
    StepKeepsResult(s, e, start, end, lookup);
    assert Apply(s, e, end, lookup).next.Keys == s.next.Keys;
  }

  lemma {:induction false} RunKeepsInv(
    s: State, es: seq<Event>, chosen: set<Address>, start: Epoch, end: Epoch, lookup: Oracle)
    requires Inv(s, chosen, start, end, lookup) && Legal(s, es, end, lookup)
    ensures Inv(Exec(s, es, end, lookup), chosen, start, end, lookup)
    ensures Exec(s, es, end, lookup).unknown == s.unknown
    decreases |es|
  {
    if es != [] {
      StepKeepsInv(s, es[0], chosen, start, end, lookup);
      RunKeepsInv(Apply(s, es[0], end, lookup), es[1..], chosen, start, end, lookup);
    }
  }

  lemma InitIsOk(addrs: seq<Address>, known: set<Address>, start: Epoch, end: Epoch, lookup: Oracle)
    ensures Inv(Init(addrs, known, start), Chosen(addrs, known), start, end, lookup)
  {
    var s := Init(addrs, known, start);
    assert s.next.Keys - s.listing == {};
    assert forall w :: !Looked(s.pool, w) && !Busy(s.pool, w);
  }

  /** In every interleaving of all goroutines, for any miners and epochs, at most 100 lookups are in
      flight and nothing is sent after the close. */
  lemma SemaphoreHolds(
    es: seq<Event>, addrs: seq<Address>, known: set<Address>, start: Epoch, end: Epoch, lookup: Oracle)
    requires Legal(Init(addrs, known, start), es, end, lookup)
    ensures |InFlight(Exec(Init(addrs, known, start), es, end, lookup).pool)| <= 100
    ensures !Exec(Init(addrs, known, start), es, end, lookup).pool.sentOnClosed
  {
    InitIsOk(addrs, known, start, end, lookup);
    RunKeepsInv(Init(addrs, known, start), es, Chosen(addrs, known), start, end, lookup);
    SlotsBoundLookups(Exec(Init(addrs, known, start), es, end, lookup).pool);
  }

  /** When the channel is closed, which is when the call returns, the result is the unknown addresses
      and then one exact count for every chosen miner. */
  lemma ResultIsExact(
    es: seq<Event>, addrs: seq<Address>, known: set<Address>, start: Epoch, end: Epoch, lookup: Oracle)
    requires Legal(Init(addrs, known, start), es, end, lookup)
    requires Exec(Init(addrs, known, start), es, end, lookup).pool.closed
    ensures var last := Exec(Init(addrs, known, start), es, end, lookup);
            && Result(last) == Unknown(addrs, known) + last.counts
            && CountsFor(last.counts, Chosen(addrs, known), start, end, lookup)
  {
    var last := Exec(Init(addrs, known, start), es, end, lookup);
    InitIsOk(addrs, known, start, end, lookup);
    RunKeepsInv(Init(addrs, known, start), es, Chosen(addrs, known), start, end, lookup);
    assert last.next.Keys - last.listing == Chosen(addrs, known);
  }

  // ---- What a count says of the lookups ----

  /** `x` is what a lookup of epoch `e` that answered `o` adds: a win with its count, or a listed failure
      with its message. */
  predicate IsEntry(x: WinInfo, e: Epoch, o: Outcome) {
    && x.epoch == e + 1
    && match o
       case Win(n) => x.winCount == n && x.msg == ""
       case NotWinner => false
       case Failed(listed, msg) => listed && x.winCount == 0 && x.msg == msg
  }

  function WinsOf(o: Outcome): int {
    match o
    case Win(n) => n
    case _ => 0
  }

  /** The win counts of the `n` epochs from `from` on. */
  function TotalWins(m: Address, from: Epoch, n: nat, lookup: Oracle): int {
    if n == 0 then 0 else TotalWins(m, from, n - 1, lookup) + WinsOf(lookup(Worker(m, from + n - 1)))
  }

  /** The entry is what the lookup of some epoch in [start, end] adds. */
  ghost predicate FromLookup(x: WinInfo, m: Address, start: Epoch, end: Epoch, lookup: Oracle) {
    exists w: Worker :: w.miner == m && start <= w.epoch <= end && IsEntry(x, w.epoch, lookup(w))
  }

  /** A win or a listed failure of the worker is in the list. */
  predicate IsListed(infos: seq<WinInfo>, w: Worker, o: Outcome) {
    match o
    case Win(n) => WinInfo(w.epoch + 1, n, "") in infos
    case NotWinner => true
    case Failed(listed, msg) => listed ==> WinInfo(w.epoch + 1, 0, msg) in infos
  }

  function Epochs(start: Epoch, end: Epoch): nat {
    if start <= end then end - start + 1 else 0
  }

  /** The count lists exactly the wins and the listed failures of its miner in [start, end], each once,
      nothing for any other lookup, and its total is that of the wins. */
  ghost predicate Reports(c: Count, start: Epoch, end: Epoch, lookup: Oracle) {
    && (forall x | x in c.winEpochList :: FromLookup(x, c.miner, start, end, lookup))
    && (forall w: Worker | w.miner == c.miner && start <= w.epoch <= end :: IsListed(c.winEpochList, w, lookup(w)))
    && (forall i, j | 0 <= i < j < |c.winEpochList| :: c.winEpochList[i].epoch != c.winEpochList[j].epoch)
    && c.totalWinCount == TotalWins(c.miner, start, Epochs(start, end), lookup)
  }

  lemma EntryIsFromLookup(order: seq<Worker>, k: nat, m: Address, start: Epoch, end: Epoch, lookup: Oracle)
    requires Covers(order, m, start, end, lookup) && k < |Infos(order, lookup)|
    ensures FromLookup(Infos(order, lookup)[k], m, start, end, lookup)
  {
    InfosAt(order, lookup);
    var w := order[k];
    assert w in order;
    assert IsEntry(Infos(order, lookup)[k], w.epoch, lookup(w));
  }

  lemma LookupIsListed(order: seq<Worker>, w: Worker, m: Address, start: Epoch, end: Epoch, lookup: Oracle)
    requires Covers(order, m, start, end, lookup) && w.miner == m && start <= w.epoch <= end
    ensures IsListed(Infos(order, lookup), w, lookup(w))
  {
    InfosAt(order, lookup);
    if InfoOf(w, lookup(w)).Some? {
      assert w in order;
      var k :| 0 <= k < |order| && order[k] == w;
      assert Infos(order, lookup)[k] in Infos(order, lookup);
    }
  }

  /** The wins of those among the `n` epochs from `from` on whose lookup is in `order`. */
  function PartWins(order: seq<Worker>, m: Address, from: Epoch, n: nat, lookup: Oracle): int {
    if n == 0 then 0 else
    var w := Worker(m, from + n - 1);
    PartWins(order, m, from, n - 1, lookup) + if w in order then WinsOf(lookup(w)) else 0
  }

  lemma {:induction false} PartWinsSnoc(
    order: seq<Worker>, w: Worker, m: Address, from: Epoch, n: nat, lookup: Oracle)
    requires w !in order && w.miner == m
    ensures PartWins(order + [w], m, from, n, lookup)
            == PartWins(order, m, from, n, lookup)
               + if from <= w.epoch < from + n then WinsOf(lookup(w)) else 0
  {
    if n > 0 {
      PartWinsSnoc(order, w, m, from, n - 1, lookup);
      var v := Worker(m, from + n - 1);
      assert v in order + [w] <==> v in order || v == w;
      assert v == w <==> w.epoch == from + n - 1;
    }
  }

  lemma {:induction false} NoPartWins(m: Address, from: Epoch, n: nat, lookup: Oracle)
    ensures PartWins([], m, from, n, lookup) == 0
  {
    if n > 0 {
      NoPartWins(m, from, n - 1, lookup);
    }
  }

  lemma {:induction false} SumIsPart(order: seq<Worker>, m: Address, from: Epoch, n: nat, lookup: Oracle)
    requires Distinct(order)
    requires forall w | w in order :: w.miner == m && from <= w.epoch < from + n && InfoOf(w, lookup(w)).Some?
    ensures Sum(Infos(order, lookup)) == PartWins(order, m, from, n, lookup)
    decreases |order|
  {
    if order == [] {
      NoPartWins(m, from, n, lookup);
    } else {
      var k := |order| - 1;
      var before, w := order[..k], order[k];
      assert order == before + [w] && w in order && w !in before;
      SumIsPart(before, m, from, n, lookup);
      PartWinsSnoc(before, w, m, from, n, lookup);
      InfosSnoc(before, w, lookup);
      SumSnoc(Infos(before, lookup), InfoOf(w, lookup(w)).value);
    }
  }

  lemma {:induction false} PartIsTotal(order: seq<Worker>, m: Address, from: Epoch, n: nat, lookup: Oracle)
    requires forall e | from <= e < from + n ::
               Worker(m, e) in order || InfoOf(Worker(m, e), lookup(Worker(m, e))).None?
    ensures PartWins(order, m, from, n, lookup) == TotalWins(m, from, n, lookup)
  {
    if n > 0 {
      PartIsTotal(order, m, from, n - 1, lookup);
      assert Worker(m, from + n - 1) in order
          || InfoOf(Worker(m, from + n - 1), lookup(Worker(m, from + n - 1))).None?;
    }
  }

  /** Whatever the order of the lookups, the sum of the list is the sum of the wins. */
  lemma SumIsTotal(order: seq<Worker>, m: Address, start: Epoch, end: Epoch, lookup: Oracle)
    requires Covers(order, m, start, end, lookup)
    ensures Sum(Infos(order, lookup)) == TotalWins(m, start, Epochs(start, end), lookup)
  {
    forall e | start <= e < start + Epochs(start, end)
      ensures Worker(m, e) in order || InfoOf(Worker(m, e), lookup(Worker(m, e))).None?
    {
    }
    SumIsPart(order, m, start, Epochs(start, end), lookup);
    PartIsTotal(order, m, start, Epochs(start, end), lookup);
  }

  lemma ExactCountReports(c: Count, start: Epoch, end: Epoch, lookup: Oracle)
    requires Exact(c, start, end, lookup)
    ensures Reports(c, start, end, lookup)
  {
    var order := OrderOf(c, start, end, lookup);
    ExactListIsApart(c, start, end, lookup);
    SumIsTotal(order, c.miner, start, end, lookup);
    forall x | x in c.winEpochList
      ensures FromLookup(x, c.miner, start, end, lookup)
    {
      var k :| 0 <= k < |c.winEpochList| && c.winEpochList[k] == x;
      EntryIsFromLookup(order, k, c.miner, start, end, lookup);
    }
    forall w: Worker | w.miner == c.miner && start <= w.epoch <= end
      ensures IsListed(c.winEpochList, w, lookup(w))
    {
      LookupIsListed(order, w, c.miner, start, end, lookup);
    }
  }

  /** How often the counts name a miner. */
  function Named(counts: seq<Count>, a: Address): nat {
    if counts == [] then 0
    else Named(counts[..|counts| - 1], a) + if counts[|counts| - 1].miner == a then 1 else 0
  }

  lemma {:induction false} UnknownIsExact(addrs: seq<Address>, known: set<Address>)
    ensures forall a :: Named(Unknown(addrs, known), a) == if a in known then 0 else multiset(addrs)[a]
    ensures forall c | c in Unknown(addrs, known) :: c == Count(c.miner, 0, "miner not exist", [])
  {
    if addrs != [] {
      var n := |addrs| - 1;
      UnknownIsExact(addrs[..n], known);
      assert addrs == addrs[..n] + [addrs[n]];
      var before, c := Unknown(addrs[..n], known), Count(addrs[n], 0, "miner not exist", []);
      assert (before + [c])[..|before|] == before;
      assert before + [] == before;
    }
  }

  /** One entry "miner not exist" for each time an unconfigured miner was asked for. */
  ghost predicate NamesUnknown(counts: seq<Count>, addrs: seq<Address>, known: set<Address>) {
    && (forall a :: Named(counts, a) == if a in known then 0 else multiset(addrs)[a])
    && (forall c | c in counts :: c == Count(c.miner, 0, "miner not exist", []))
  }

  /** One count for each configured miner asked for, or for every configured one if none was. */
  ghost predicate OnePerAsked(counts: seq<Count>, addrs: seq<Address>, known: set<Address>) {
    && (forall a :: (exists i :: 0 <= i < |counts| && counts[i].miner == a) <==>
                    a in known && (a in addrs || addrs == []))
    && (forall i, j | 0 <= i < j < |counts| :: counts[i].miner != counts[j].miner)
  }

  lemma OnePerChosen(counts: seq<Count>, addrs: seq<Address>, known: set<Address>)
    requires OnePer(counts, Chosen(addrs, known))
    ensures OnePerAsked(counts, addrs, known)
  {
    forall a
      ensures (exists i :: 0 <= i < |counts| && counts[i].miner == a) <==> a in known && (a in addrs || addrs == [])
    {
      assert a in Chosen(addrs, known) <==> a in known && (a in addrs || addrs == []);
    }
  }

  /** When the call returns, whatever the interleaving, its result is the entries for unconfigured miners
      and then the counts asked for, each of which reports its lookups. */
  lemma ResultReports(
    es: seq<Event>, addrs: seq<Address>, known: set<Address>, start: Epoch, end: Epoch, lookup: Oracle)
    requires Legal(Init(addrs, known, start), es, end, lookup)
    requires Exec(Init(addrs, known, start), es, end, lookup).pool.closed
    ensures var last := Exec(Init(addrs, known, start), es, end, lookup);
            && Result(last) == last.unknown + last.counts
            && NamesUnknown(last.unknown, addrs, known)
            && OnePerAsked(last.counts, addrs, known)
            && (forall c | c in last.counts :: c.msg == "" && Reports(c, start, end, lookup))
  {
    var last := Exec(Init(addrs, known, start), es, end, lookup);
    ResultIsExact(es, addrs, known, start, end, lookup);
    UnknownOf(es, addrs, known, start, end, lookup);
    UnknownIsExact(addrs, known);
    OnePerChosen(last.counts, addrs, known);
    forall c | c in last.counts
      ensures c.msg == "" && Reports(c, start, end, lookup)
    {
      var i :| 0 <= i < |last.counts| && last.counts[i] == c;
      ExactCountReports(c, start, end, lookup);
    }
  }

  lemma UnknownOf(
    es: seq<Event>, addrs: seq<Address>, known: set<Address>, start: Epoch, end: Epoch, lookup: Oracle)
    requires Legal(Init(addrs, known, start), es, end, lookup)
    ensures Exec(Init(addrs, known, start), es, end, lookup).unknown == Unknown(addrs, known)
  {
    InitIsOk(addrs, known, start, end, lookup);
    RunKeepsInv(Init(addrs, known, start), es, Chosen(addrs, known), start, end, lookup);
  }

  // ---- The call returns ----

  /** Everything that happens at most once in a call: a worker leaves a stage (0 is being spawned), a
      miner's goroutine hands in its count, the channel is closed. */
  datatype Task = Pass(w: Worker, rank: int) | HandIn(miner: Address) | Shut

  function Rank(st: Stage): int {
    match st
    case Waiting => 1
    case Holding => 2
    case Counted => 3
    case Draining => 4
    case Gone => 5
  }

  predicate IsDone(s: State, t: Task) {
    match t
    case Pass(w, r) => w in s.pool.stages && Rank(s.pool.stages[w]) > r
    case HandIn(m) => m !in s.listing
    case Shut => s.pool.closed
  }

  function AllTasks(chosen: set<Address>, start: Epoch, end: Epoch): set<Task> {
    (set m, e, r | m in chosen && start <= e <= end && 0 <= r < 5 :: Pass(Worker(m, e), r))
    + (set m | m in chosen :: HandIn(m))
    + {Shut}
  }

  function ToDo(s: State, chosen: set<Address>, start: Epoch, end: Epoch): set<Task> {
    set t | t in AllTasks(chosen, start, end) && !IsDone(s, t)
  }

  /** The task an event completes. */
  function TaskOf(s: State, e: Event): Task {
    match e
    case Spawn(m) => Pass(Worker(m, if m in s.next then s.next[m] else 0), 0)
    case Work(w) => Pass(w, if w in s.pool.stages then Rank(s.pool.stages[w]) else 0)
    case Collect(m) => HandIn(m)
    case CloseChannel => Shut
  }

  lemma TaskIsListed(s: State, e: Event, chosen: set<Address>, start: Epoch, end: Epoch)
    requires SpawnInv(s, start, end) && s.next.Keys == chosen && Enabled(s, e, end)
    ensures TaskOf(s, e) in ToDo(s, chosen, start, end)
  {
    match e
    case Spawn(m) =>
      assert Worker(m, s.next[m]) !in s.pool.stages;
    case Work(w) =>
      assert w.miner in s.next && start <= w.epoch < s.next[w.miner];
      assert w == Worker(w.miner, w.epoch);
    case _ =>
  }

  lemma StepKeepsDone(s: State, e: Event, t: Task, start: Epoch, end: Epoch, lookup: Oracle)
    requires SpawnInv(s, start, end) && Enabled(s, e, end) && (IsDone(s, t) || t == TaskOf(s, e))
    ensures IsDone(Apply(s, e, end, lookup), t)
  {
    match e
    case Work(w) =>
      assert s.pool.stages[w].Waiting? ==> Busy(s.pool, w);
    case Spawn(m) =>
      assert Worker(m, s.next[m]) !in s.pool.stages;
    case _ =>
  }

  /** Every event completes its task for good and undoes none. */
  lemma StepDoesTask(s: State, e: Event, chosen: set<Address>, start: Epoch, end: Epoch, lookup: Oracle)
    requires SpawnInv(s, start, end) && s.next.Keys == chosen && Enabled(s, e, end)
    ensures |ToDo(Apply(s, e, end, lookup), chosen, start, end)| < |ToDo(s, chosen, start, end)|
  {
    var s', task := Apply(s, e, end, lookup), TaskOf(s, e);
    var before, after := ToDo(s, chosen, start, end), ToDo(s', chosen, start, end);
    TaskIsListed(s, e, chosen, start, end);
    StepKeepsDone(s, e, task, start, end, lookup);
    forall t | t in after
      ensures t in before - {task}
    {
      if IsDone(s, t) {
        StepKeepsDone(s, e, t, start, end, lookup);
      }
    }
    SubsetIsSmaller(after, before - {task});
  }

  /** Whenever some worker of a miner is busy, some worker can move: a slot is free, or somebody holds one. */
  lemma SomeWorkerMoves(s: State, w: Worker, start: Epoch, end: Epoch) returns (v: Worker)
    requires PoolInv(s.pool) && SpawnInv(s, start, end) && s.tallies.Keys == s.next.Keys && Busy(s.pool, w)
    ensures Enabled(s, Work(v), end)
  {
    v := w;
    if s.pool.stages[w].Waiting? && !CanMove(s.pool, w) {
      assert |s.pool.slots| == SLOTS;
      v :| v in s.pool.slots;
      assert v in s.pool.stages;
    }
  }

  /** Until the channel is closed something can always be done: no goroutine waits for ever. */
  lemma SomethingCanHappen(s: State, start: Epoch, end: Epoch) returns (e: Event)
    requires PoolInv(s.pool) && SpawnInv(s, start, end) && s.tallies.Keys == s.next.Keys && !s.pool.closed
    ensures Enabled(s, e, end)
  {
    if s.listing == {} {
      e := CloseChannel;
    } else {
      var m :| m in s.listing;
      if s.next[m] <= end {
        e := Spawn(m);
      } else if w: Worker :| w.miner == m && Busy(s.pool, w) {
        var v := SomeWorkerMoves(s, w, start, end);
        e := Work(v);
      } else {
        e := Collect(m);
      }
    }
  }

  lemma {:induction false} RunIsBounded(
    s: State, es: seq<Event>, chosen: set<Address>, start: Epoch, end: Epoch, lookup: Oracle)
    requires Inv(s, chosen, start, end, lookup) && Legal(s, es, end, lookup)
    ensures |es| <= |ToDo(s, chosen, start, end)|
    decreases |es|
  {
    if es != [] {
      StepKeepsInv(s, es[0], chosen, start, end, lookup);
      StepDoesTask(s, es[0], chosen, start, end, lookup);
      RunIsBounded(Apply(s, es[0], end, lookup), es[1..], chosen, start, end, lookup);
    }
  }

  /** No call deadlocks and none runs for ever: every run is at most as long as there are tasks, and as
      long as the call has not returned some goroutine can take a step. */
  lemma CallReturns(
    es: seq<Event>, addrs: seq<Address>, known: set<Address>, start: Epoch, end: Epoch, lookup: Oracle)
    requires Legal(Init(addrs, known, start), es, end, lookup)
    ensures |es| <= |AllTasks(Chosen(addrs, known), start, end)|
    ensures !Exec(Init(addrs, known, start), es, end, lookup).pool.closed ==>
              exists e :: Enabled(Exec(Init(addrs, known, start), es, end, lookup), e, end)
  {
    var s, chosen := Init(addrs, known, start), Chosen(addrs, known);
    InitIsOk(addrs, known, start, end, lookup);
    RunIsBounded(s, es, chosen, start, end, lookup);
    SubsetIsSmaller(ToDo(s, chosen, start, end), AllTasks(chosen, start, end));
    RunKeepsInv(s, es, chosen, start, end, lookup);
    if !Exec(s, es, end, lookup).pool.closed {
      var e := SomethingCanHappen(Exec(s, es, end, lookup), start, end);
    }
  }
}
