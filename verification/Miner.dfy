/** The miner object: `lastWork` and the base a pass works on are one heap object, so the refreshed
    tipset and the counted null round show through `lastWork`. Proved against `MiningLoop`. */
module MinerObject {
  import opened Chain
  import opened Faults
  import opened PublishGate
  import opened MiningLoop

  class MiningBase {
    var tipSet: TipSet
    var nullRounds: Epoch

    constructor (tipSet: TipSet)
      ensures View() == Base(tipSet, 0)
    {
      this.tipSet, nullRounds := tipSet, 0;
    }

    function View(): Base
      reads this
    {
      Base(tipSet, nullRounds)
    }
  }

  /** A put of the mining loop: no ticket, never a success. */
  predicate IsLoopPut(e: Event, b: Base) {
    e.Note? && e.bh.ticket.None? && e.state != Success && e.bh.height == Round(b)
  }

  function LoopPut(b: Base, addr: Address, parents: TipSetKey, parentEpoch: Epoch, at: Option<int>, state: StateMining)
    : (e: Event)
    ensures state != Success ==> IsLoopPut(e, b) && MinerOf(e) == addr
  {
    Note(Header(addr, Round(b), parents, None, ""), parentEpoch, at, state)
  }

  /** What the attempt of one miner puts: a win when it is found, an error or a timeout afterwards. */
  function AttemptPuts(b: Base, addr: Address, attempt: Attempt, now: int): seq<Event> {
    var parentEpoch := b.tipset.height + b.nullRounds;
    var win := LoopPut(b, addr, b.tipset.key, parentEpoch, Some(now), Mining);
    match attempt
    case TimedOut(won) => (if won then [win] else []) + [LoopPut(b, addr, [], parentEpoch, None, Timeout)]
    case NotWinner => []
    case FailedBefore => []
    case FailedAfter => [win, LoopPut(b, addr, [], parentEpoch, None, Error)]
    case Won(_) => [win]
  }

  /** One put per winner when the head has forked away. */
  function ForkPuts(b: Base, wins: seq<WinPoSt>): seq<Event> {
    if wins == [] then [] else
    ForkPuts(b, wins[..|wins| - 1]) + [LoopPut(b, wins[|wins| - 1].addr, [], b.tipset.height, None, ChainForked)]
  }

  /** The puts of the attempts, miner by miner. Puts of different miners commute
      (`GateInterleaving.InterleavingsAgree`), so this stands for every interleaving of them. */
  function PutsAlong(b: Base, attempts: map<Address, Attempt>, order: seq<Address>, now: int): seq<Event> {
    if order == [] then [] else
    var last := order[|order| - 1];
    PutsAlong(b, attempts, order[..|order| - 1], now)
    + if last in attempts then AttemptPuts(b, last, attempts[last], now) else []
  }

  /** `order` lists each element of `s` once. */
  ghost predicate Enumerates(order: seq<Address>, s: set<Address>) {
    && (forall i, j | 0 <= i < j < |order| :: order[i] != order[j])
    && (forall a :: a in order <==> a in s)
  }

  lemma EnumerateOne(order: seq<Address>, s: set<Address>, a: Address)
    requires Enumerates(order, s) && a !in s
    ensures Enumerates(order + [a], s + {a})
  {
  }

  lemma PutsAlongSnoc(b: Base, attempts: map<Address, Attempt>, order: seq<Address>, now: int, a: Address)
    requires a in attempts
    ensures PutsAlong(b, attempts, order + [a], now)
            == PutsAlong(b, attempts, order, now) + AttemptPuts(b, a, attempts[a], now)
  {
    assert (order + [a])[..|order|] == order;
  }

  lemma {:induction false} PutsAlongAreLoopPuts(b: Base, attempts: map<Address, Attempt>, order: seq<Address>, now: int)
    ensures forall e | e in PutsAlong(b, attempts, order, now) :: IsLoopPut(e, b)
  {
    if order != [] {
      PutsAlongAreLoopPuts(b, attempts, order[..|order| - 1], now);
    }
  }

  /** The winners, in the order in which they finished. */
  function WinsAlong(b: Base, attempts: map<Address, Attempt>, order: seq<Address>): seq<WinPoSt> {
    if order == [] then [] else
    var last := order[|order| - 1];
    WinsAlong(b, attempts, order[..|order| - 1])
    + if last in attempts && attempts[last].Won? then [Proof(b, last, attempts[last].ticket)] else []
  }

  lemma WinsAlongSnoc(b: Base, attempts: map<Address, Attempt>, order: seq<Address>, a: Address)
    requires a in attempts
    ensures WinsAlong(b, attempts, order + [a])
            == WinsAlong(b, attempts, order)
               + if attempts[a].Won? then [Proof(b, a, attempts[a].ticket)] else []
  {
    assert (order + [a])[..|order|] == order;
  }

  lemma {:induction false} WinsAlongAreWins(b: Base, attempts: map<Address, Attempt>, order: seq<Address>)
    requires forall i, j | 0 <= i < j < |order| :: order[i] != order[j]
    ensures var wins := WinsAlong(b, attempts, order);
            && DistinctMiners(wins)
            && (forall w | w in wins ::
                  && w.addr in order && w.addr in attempts && attempts[w.addr].Won?
                  && w == Proof(b, w.addr, attempts[w.addr].ticket))
            && (forall a | a in order && a in attempts && attempts[a].Won? ::
                  Proof(b, a, attempts[a].ticket) in wins)
  {
    if order != [] {
      WinsAlongAreWins(b, attempts, order[..|order| - 1]);
    }
  }

  lemma WinsAlongAreAll(b: Base, attempts: map<Address, Attempt>, order: seq<Address>)
    requires Enumerates(order, attempts.Keys)
    ensures WinsOf(b, attempts, WinsAlong(b, attempts, order))
  {
    WinsAlongAreWins(b, attempts, order);
  }

  /** What a pass puts: the puts of all attempts, and those of a forked head. */
  function PassPuts(r: PassResult, env: Env, order: seq<Address>, wins: seq<WinPoSt>): seq<Event> {
    if !r.Mined? then []
    else PutsAlong(r.used, env.attempts, order, env.now)
         + if Forked(r.used, env.head) then ForkPuts(r.used, wins) else []
  }

  class Miner {
    var lastWork: MiningBase?
    const delay: int

    constructor (delay: int)
      ensures lastWork == null && this.delay == delay
    {
      lastWork := null;
      this.delay := delay;
    }

    function View(): Option<Base>
      reads this, lastWork
    {
      if lastWork == null then None else Some(lastWork.View())
    }

    method GetBestMiningCandidate(head: TipSet) returns (base: MiningBase)
      modifies this
      ensures base == lastWork && base.View() == Candidate(old(View()), head)
      ensures lastWork == old(lastWork) || fresh(lastWork)
    {
      if lastWork == null || lastWork.tipSet != head {
        lastWork := new MiningBase(head);
      }
      base := lastWork;
    }

    /** One turn of `getLatestBase`; `base` is the candidate of the turn before. */
    method SelectOnce(base: MiningBase?, poll: Poll)
      returns (prebase: MiningBase?, stop: Option<Found>, acts: seq<Act>)
      requires base != null ==> base == lastWork
      modifies this
      ensures lastWork == old(lastWork) || fresh(lastWork)
      ensures poll.head.None? ==> stop == Some(Failed) && acts == [] && lastWork == old(lastWork)
      ensures poll.head.Some? ==>
                var b := Candidate(old(View()), poll.head.value);
                && View() == Some(b)
                && prebase == lastWork
                && (if base != null && SameRoundBase(old(View()), b) then stop == Some(Ready(b)) && acts == []
                    else acts == [Waited(b), Fetched(Round(b), poll.beacon)]
                         && stop == if poll.beacon then None else Some(Failed))
    {
      prebase, acts := null, [];
      if poll.head.None? {
        return null, Some(Failed), [];
      }
      prebase := GetBestMiningCandidate(poll.head.value);
      if base != null && base.tipSet.height == prebase.tipSet.height && base.nullRounds == prebase.nullRounds {
        return prebase, Some(Ready(prebase.View())), [];
      }
      acts := [Waited(prebase.View()), Fetched(prebase.tipSet.height + prebase.nullRounds + 1, poll.beacon)];
      stop := if poll.beacon then None else Some(Failed);
    }

    /** Returns the very object held in `lastWork`, or nothing. */
    method GetLatestBase(polls: seq<Poll>) returns (base: MiningBase?, found: Found, acts: seq<Act>)
      modifies this
      ensures Select(old(View()), None, polls) == Selection(found, View(), acts)
      ensures base != null <==> found.Ready?
      ensures base != null ==> base == lastWork && found == Ready(base.View())
      ensures lastWork == old(lastWork) || fresh(lastWork)
    {
      base, acts := null, [];
      assert polls[0..] == polls;
      for i := 0 to |polls|
        invariant lastWork == old(lastWork) || fresh(lastWork)
        invariant base != null ==> base == lastWork
        invariant Select(old(View()), None, polls)
                  == After(acts, Select(View(), if base == null then None else View(), polls[i..]))
      {
        SelectTurn(View(), if base == null then None else View(), polls[i..], acts);
        assert polls[i..][0] == polls[i] && polls[i..][1..] == polls[i + 1..];
        var prebase, stop, more := SelectOnce(base, polls[i]);
        acts := acts + more;
        if stop.Some? {
          return if stop.value.Ready? then prebase else null, stop.value, acts;
        }
        base := prebase;
      }
      assert polls[|polls|..] == [];
      return null, Starved, acts;
    }

    /** One attempt per configured miner, in any `order`. */
    method MineOneForAll(base: MiningBase, attempts: map<Address, Attempt>, now: int)
      returns (wins: seq<WinPoSt>, puts: seq<Event>, ghost order: seq<Address>)
      ensures WinsOf(base.View(), attempts, wins)
      ensures Enumerates(order, attempts.Keys)
      ensures puts == PutsAlong(base.View(), attempts, order, now)
    {
      wins, puts, order := [], [], [];
      ghost var b, done := base.View(), {};
      var todo := attempts.Keys;
      while todo != {}
        invariant done + todo == attempts.Keys && done !! todo
        invariant Enumerates(order, done)
        invariant wins == WinsAlong(b, attempts, order)
        invariant puts == PutsAlong(b, attempts, order, now)
        decreases todo
      {
        var addr :| addr in todo;
        EnumerateOne(order, done, addr);
        WinsAlongSnoc(b, attempts, order, addr);
        PutsAlongSnoc(b, attempts, order, now, addr);
        todo, done, order := todo - {addr}, done + {addr}, order + [addr];
        var won, more := RunAttempt(base, addr, attempts[addr], now);
        wins, puts := wins + won, puts + more;
      }
      assert done == attempts.Keys;
      WinsAlongAreAll(b, attempts, order);
    }

    /** The goroutine of one miner. */
    method RunAttempt(base: MiningBase, addr: Address, attempt: Attempt, now: int)
      returns (won: seq<WinPoSt>, puts: seq<Event>)
      ensures won == if attempt.Won? then [Proof(base.View(), addr, attempt.ticket)] else []
      ensures puts == AttemptPuts(base.View(), addr, attempt, now)
    {
      won, puts := [], [];
      var parentEpoch := base.tipSet.height + base.nullRounds;
      var round := parentEpoch + 1;
      if attempt.Won? || attempt.FailedAfter? || (attempt.TimedOut? && attempt.won) {
        puts := puts + [LoopPut(base.View(), addr, base.tipSet.key, parentEpoch, Some(now), Mining)];
      }
      if attempt.TimedOut? {
        puts := puts + [LoopPut(base.View(), addr, [], parentEpoch, None, Timeout)];
      } else if attempt.FailedAfter? {
        puts := puts + [LoopPut(base.View(), addr, [], parentEpoch, None, Error)];
      } else if attempt.Won? {
        won := [WinPoSt(addr, round, base.tipSet.minTicket, attempt.ticket)];
      }
    }

    method CreateBlock(base: MiningBase, win: WinPoSt, rest: string) returns (block: Block)
      ensures block == NewBlock(base.View(), win, rest, delay)
    {
      var uts := base.tipSet.minTimestamp + delay * (base.nullRounds + 1);
      var nheight := base.tipSet.height + base.nullRounds + 1;
      block := Block(Header(win.addr, nheight, base.tipSet.key, Some(win.ticket), rest), uts, win);
    }

    method CreateBlocks(base: MiningBase, wins: seq<WinPoSt>, created: map<Address, string>)
      returns (blocks: seq<Block>)
      ensures blocks == NewBlocks(base.View(), wins, created, delay)
    {
      blocks := [];
      for i := 0 to |wins|
        invariant blocks == NewBlocks(base.View(), wins[..i], created, delay)
      {
        assert wins[..i + 1][..i] == wins[..i];
        if wins[i].addr in created {
          var b := CreateBlock(base, wins[i], created[wins[i].addr]);
          blocks := blocks + [b];
        }
      }
      assert wins[..|wins|] == wins;
    }

    /** The head asked for again after mining may replace the tipset of the shared base. */
    method RefreshBase(base: MiningBase, head: Option<TipSet>, wins: seq<WinPoSt>) returns (puts: seq<Event>)
      modifies base
      ensures base.View() == Refresh(old(base.View()), head)
      ensures puts == if Forked(old(base.View()), head) then ForkPuts(base.View(), wins) else []
    {
      puts := [];
      if head.Some? && head.value.height == base.tipSet.height && head.value != base.tipSet {
        if head.value.minTicket == base.tipSet.minTicket {
          base.tipSet := head.value;
        } else {
          for i := 0 to |wins|
            invariant puts == ForkPuts(base.View(), wins[..i])
          {
            assert wins[..i + 1][..i] == wins[..i];
            puts := puts + [LoopPut(base.View(), wins[i].addr, [], base.tipSet.height, None, ChainForked)];
          }
          assert wins[..|wins|] == wins;
        }
      }
    }

    /** Mining on a base: the attempts, the late refresh, the blocks, and the null round of a pass
        without a winner, all on the one base object. */
    method MineOn(base: MiningBase, env: Env)
      returns (final: Base, wins: seq<WinPoSt>, blocks: seq<Block>, puts: seq<Event>, ghost order: seq<Address>)
      modifies base
      ensures WinsOf(old(base.View()), env.attempts, wins)
      ensures final == Refresh(old(base.View()), env.head)
      ensures blocks == NewBlocks(final, wins, env.created, delay)
      ensures OneBlockPerWin(blocks, wins, env.attempts, env.created)
      ensures base.View() == if wins == [] then final.(nullRounds := final.nullRounds + 1) else final
      ensures Enumerates(order, env.attempts.Keys)
      ensures puts == PassPuts(Mined(old(base.View()), final, blocks), env, order, wins)
    {
      wins, puts, order := MineOneForAll(base, env.attempts, env.now);
      var forked := RefreshBase(base, env.head, wins);
      final, puts := base.View(), puts + forked;
      blocks := CreateBlocks(base, wins, env.created);
      WinsMakeBlocks(old(base.View()), final, env.attempts, wins, env.created, delay);
      if |wins| == 0 {
        base.nullRounds := base.nullRounds + 1;
      }
    }

    /** Mines on the selected base unless it is the one the last pass ended with. */
    method MineUnlessRepeated(base: MiningBase, previous: Option<Base>, env: Env)
      returns (current: Option<Base>, result: PassResult, wins: seq<WinPoSt>, puts: seq<Event>,
               ghost order: seq<Address>)
      modifies base
      ensures var used := old(base.View());
              if previous == Some(used)
              then base.View() == used && current == previous && result == Repeated
              else
                var final := Refresh(used, env.head);
                && base.View() == (if wins == [] then final.(nullRounds := final.nullRounds + 1) else final)
                && current == Some(final)
                && result == Mined(used, final, NewBlocks(final, wins, env.created, delay))
                && WinsOf(used, env.attempts, wins) && Enumerates(order, env.attempts.Keys)
      ensures puts == PassPuts(result, env, order, wins)
    {
      current, result, wins, puts, order := previous, Repeated, [], [], [];
      if previous.Some? && base.tipSet == previous.value.tipset && base.nullRounds == previous.value.nullRounds {
        return;
      }
      var used := base.View();
      var final, blocks;
      final, wins, blocks, puts, order := MineOn(base, env);
      current, result := Some(final), Mined(used, final, blocks);
    }

    /** One turn of `mine`; `previous` is the loop's copy of the last base. */
    method MineOnce(previous: Option<Base>, env: Env)
      returns (current: Option<Base>, result: PassResult, wins: seq<WinPoSt>, puts: seq<Event>,
               ghost order: seq<Address>)
      modifies this, lastWork
      ensures lastWork == old(lastWork) || fresh(lastWork)
      ensures Pass(LoopState(old(View()), previous), env, wins, delay) == (LoopState(View(), current), result)
      ensures result.Mined? ==> WinsOf(result.used, env.attempts, wins)
      ensures result.Mined? ==> Enumerates(order, env.attempts.Keys)
      ensures puts == PassPuts(result, env, order, wins)
    {
      current, result, wins, puts, order := previous, Idle, [], [], [];
      if env.attempts == map[] {
        return;
      }
      var base, found, acts := GetLatestBase(env.polls);
      if base == null {
        result := NoBase;
        return;
      }
      current, result, wins, puts, order := MineUnlessRepeated(base, previous, env);
    }

    /** The loop over any finite sequence of answers. */
    method Mine(envs: seq<Env>) returns (last: Option<Base>, results: seq<PassResult>, winss: seq<seq<WinPoSt>>)
      modifies this, lastWork
      ensures |winss| == |envs| == |results|
      ensures Passes(LoopState(old(View()), None), envs, winss, delay) == (LoopState(View(), last), results)
      ensures WinnersKnown(results, envs, winss)
    {
      last, results, winss := None, [], [];
      ghost var start, done := LoopState(View(), None), [];
      for i := 0 to |envs|
        invariant lastWork == old(lastWork) || fresh(lastWork)
        invariant done == envs[..i] && |winss| == |done|
        invariant Passes(start, done, winss, delay) == (LoopState(View(), last), results)
        invariant WinnersKnown(results, done, winss)
      {
        var result, wins, puts;
        ghost var order;
        last, result, wins, puts, order := MineOnce(last, envs[i]);
        RunSnoc(start, done, winss, envs[i], wins, delay);
        done := done + [envs[i]];
        results, winss := results + [result], winss + [wins];
      }
      assert done == envs;
    }
  }

  /** The broadcasts started for the blocks of one pass. */
  function Launches(blocks: seq<Block>, base: Base): seq<Event> {
    if blocks == [] then [] else
    [Launch(blocks[0].header, base.tipset.height, base.nullRounds)] + Launches(blocks[1..], base)
  }

  lemma {:induction false} ForkPutsAreLoopPuts(b: Base, wins: seq<WinPoSt>)
    ensures forall e | e in ForkPuts(b, wins) :: IsLoopPut(e, b)
  {
    if wins != [] {
      ForkPutsAreLoopPuts(b, wins[..|wins| - 1]);
    }
  }

  lemma {:induction false} LoopPutsAreAllowed(g: Gate, b: Base, puts: seq<Event>)
    requires forall e | e in puts :: IsLoopPut(e, b)
    ensures Legal(g, puts)
    ensures Exec(g, puts).submitted == g.submitted && Exec(g, puts).live == g.live
    decreases |puts|
  {
    if puts != [] {
      assert puts[0] in puts;
      LoopPutsAreAllowed(Apply(g, puts[0]), b, puts[1..]);
    }
  }

  lemma PassPutsAreLoopPuts(r: PassResult, env: Env, order: seq<Address>, wins: seq<WinPoSt>)
    ensures forall e | e in PassPuts(r, env, order, wins) :: r.Mined? && IsLoopPut(e, r.used)
  {
    if r.Mined? {
      PutsAlongAreLoopPuts(r.used, env.attempts, order, env.now);
      ForkPutsAreLoopPuts(r.used, wins);
    }
  }

  /** Whatever a pass puts, in any order of the miners and with a forked head or not, are steps the
      gate always allows: its theorems hold for runs with these puts between the broadcasts. */
  lemma PassPutsAreAllowed(g: Gate, r: PassResult, env: Env, order: seq<Address>, wins: seq<WinPoSt>)
    ensures Legal(g, PassPuts(r, env, order, wins))
    ensures var g' := Exec(g, PassPuts(r, env, order, wins));
            g'.submitted == g.submitted && g'.live == g.live
  {
    if r.Mined? {
      PassPutsAreLoopPuts(r, env, order, wins);
      LoopPutsAreAllowed(g, r.used, PassPuts(r, env, order, wins));
    }
  }

  /** The blocks of one pass never make two broadcasts of one miner overlap. */
  lemma {:induction false} LaunchesDoNotOverlap(g: Gate, blocks: seq<Block>, base: Base)
    requires DistinctBlocks(blocks)
    requires forall i | 0 <= i < |blocks| ::
               blocks[i].header.ticket.Some? && blocks[i].header.miner !in g.live
    ensures Legal(g, Launches(blocks, base))
    ensures Exec(g, Launches(blocks, base)).filter == g.filter
    ensures forall m | m in g.live :: m in Exec(g, Launches(blocks, base)).live
    ensures forall i | 0 <= i < |blocks| ::
              blocks[i].header.miner in Exec(g, Launches(blocks, base)).live
    decreases |blocks|
  {
    if blocks != [] {
      var first, rest := Launch(blocks[0].header, base.tipset.height, base.nullRounds), blocks[1..];
      var g' := Apply(g, first);
      assert forall i | 0 <= i < |rest| :: rest[i] == blocks[i + 1];
      assert forall i | 0 <= i < |rest| :: rest[i].header.miner != blocks[0].header.miner;
      LaunchesDoNotOverlap(g', rest, base);
      ExecOne(g, first, Launches(rest, base));
      var end := Exec(g, Launches(blocks, base));
      forall i | 0 <= i < |blocks|
        ensures blocks[i].header.miner in end.live
      {
        assert i > 0 ==> rest[i - 1] == blocks[i];
      }
    }
  }
}
