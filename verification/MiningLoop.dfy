/** The mining loop: base selection, one pass over all miners, the late refresh of the base and the
    blocks built on it. Specified on values; the classes below share one base object, as the program does. */
module MiningLoop {
  import opened Chain

  /** A tipset to mine on and the null rounds already spent on it. */
  datatype Base = Base(tipset: TipSet, nullRounds: Epoch)

  function Round(b: Base): Epoch {
    b.tipset.height + b.nullRounds + 1
  }

  // ---- Selecting the base ----

  /** One turn of `getLatestBase`: what ChainHead answers, and whether the beacon fetch succeeds. */
  datatype Poll = Poll(head: Option<TipSet>, beacon: bool)

  /** What `getLatestBase` did: the propagation wait for a candidate, the beacon fetch for a round. */
  datatype Act = Waited(candidate: Base) | Fetched(round: Epoch, ok: bool)

  /** `Starved`: the answers given ran out while the loop was still selecting. */
  datatype Found = Ready(base: Base) | Failed | Starved

  datatype Selection = Selection(found: Found, lastWork: Option<Base>, acts: seq<Act>)

  /** The fork choice: keep the last work as long as the head is its tipset. */
  function Candidate(lastWork: Option<Base>, head: TipSet): Base {
    if lastWork.None? || lastWork.value.tipset != head then Base(head, 0) else lastWork.value
  }

  predicate SameRoundBase(prev: Option<Base>, b: Base) {
    prev.Some? && prev.value.tipset.height == b.tipset.height && prev.value.nullRounds == b.nullRounds
  }

  function After(acts: seq<Act>, s: Selection): Selection {
    s.(acts := acts + s.acts)
  }

  /** `getLatestBase`; `prev` is the candidate already waited for in this call. */
  function Select(lastWork: Option<Base>, prev: Option<Base>, polls: seq<Poll>): Selection
    decreases |polls|
  {
    if polls == [] then Selection(Starved, lastWork, [])
    else if polls[0].head.None? then Selection(Failed, lastWork, [])
    else
      var b := Candidate(lastWork, polls[0].head.value);
      if SameRoundBase(prev, b) then Selection(Ready(b), Some(b), [])
      else if !polls[0].beacon then Selection(Failed, Some(b), [Waited(b), Fetched(Round(b), false)])
      else After([Waited(b), Fetched(Round(b), true)], Select(Some(b), Some(b), polls[1..]))
  }

  /** One turn of the selection, with the acts done so far. */
  lemma SelectTurn(lastWork: Option<Base>, prev: Option<Base>, polls: seq<Poll>, acts: seq<Act>)
    requires polls != []
    ensures var s := After(acts, Select(lastWork, prev, polls));
            if polls[0].head.None? then s == Selection(Failed, lastWork, acts)
            else
              var b := Candidate(lastWork, polls[0].head.value);
              if SameRoundBase(prev, b) then s == Selection(Ready(b), Some(b), acts)
              else
                var acts' := acts + [Waited(b), Fetched(Round(b), polls[0].beacon)];
                if polls[0].beacon then s == After(acts', Select(Some(b), Some(b), polls[1..]))
                else s == Selection(Failed, Some(b), acts')
  {
  }

  /** The acts end with the wait and then the successful fetch for the round of `b`. */
  predicate Prepared(acts: seq<Act>, b: Base) {
    && |acts| >= 2
    && acts[|acts| - 1] == Fetched(Round(b), true)
    && acts[|acts| - 2].Waited?
    && SameRoundBase(Some(acts[|acts| - 2].candidate), b)
  }

  lemma {:induction false} SelectionIsPrepared'(lastWork: Option<Base>, prev: Option<Base>, polls: seq<Poll>)
    ensures var s := Select(lastWork, prev, polls);
            s.found.Ready? ==>
              && s.lastWork == Some(s.found.base)
              && (s.acts == [] ==> SameRoundBase(prev, s.found.base))
              && (s.acts != [] ==> Prepared(s.acts, s.found.base))
    decreases |polls|
  {
    if polls != [] && polls[0].head.Some? {
      var b := Candidate(lastWork, polls[0].head.value);
      if !SameRoundBase(prev, b) && polls[0].beacon {
        SelectionIsPrepared'(Some(b), Some(b), polls[1..]);
      }
    }
  }

  /** Whatever heads and beacons are answered, a base is returned only after this call waited for,
      and then fetched the beacon of, exactly its round; and it is the last work. */
  lemma SelectionIsPrepared(lastWork: Option<Base>, polls: seq<Poll>)
    ensures var s := Select(lastWork, None, polls);
            s.found.Ready? ==> s.lastWork == Some(s.found.base) && Prepared(s.acts, s.found.base)
  {
    SelectionIsPrepared'(lastWork, None, polls);
  }

  /** The fork choice on one head, read off the head and the last work. */
  predicate IsCandidate(b: Base, lastWork: Option<Base>, head: TipSet) {
    && b.tipset == head
    && if lastWork.Some? && lastWork.value.tipset == head then b == lastWork.value else b.nullRounds == 0
  }

  /** A selection that has waited and fetched the beacon for one candidate returns the next one if and only
      if height and null rounds have not moved in between, whatever else has, and starts over with it if
      they have. */
  lemma SelectionReturnsIff(lastWork: Option<Base>, polls: seq<Poll>, b: Base, c: Base)
    requires |polls| >= 2 && polls[0].beacon && polls[0].head.Some? && polls[1].head.Some?
    requires IsCandidate(b, lastWork, polls[0].head.value) && IsCandidate(c, Some(b), polls[1].head.value)
    ensures var s := Select(lastWork, None, polls);
            var first := [Waited(b), Fetched(b.tipset.height + b.nullRounds + 1, true)];
            if b.tipset.height == c.tipset.height && b.nullRounds == c.nullRounds
            then s == Selection(Ready(c), Some(c), first)
            else
              var again := Select(Some(b), None, polls[1..]);
              s == Selection(again.found, again.lastWork, first + again.acts)
  {
    assert Candidate(lastWork, polls[0].head.value) == b;
    assert polls[1..][0] == polls[1] && Candidate(Some(b), polls[1].head.value) == c;
    assert Select(lastWork, None, polls)
        == After([Waited(b), Fetched(Round(b), true)], Select(Some(b), Some(b), polls[1..]));
    if b.tipset.height == c.tipset.height && b.nullRounds == c.nullRounds {
      assert Select(Some(b), Some(b), polls[1..]) == Selection(Ready(c), Some(c), []);
    } else {
      assert Select(Some(b), Some(b), polls[1..]) == Select(Some(b), None, polls[1..]);
    }
  }

  /** And it gives up at the first head or beacon that is not answered. */
  lemma SelectionFails(lastWork: Option<Base>, polls: seq<Poll>)
    requires polls != [] && (polls[0].head.None? || !polls[0].beacon)
    ensures var s := Select(lastWork, None, polls);
            && s.found == Failed
            && (polls[0].head.None? ==> s.lastWork == lastWork && s.acts == [])
            && (polls[0].head.Some? ==>
                  && s.lastWork.Some? && IsCandidate(s.lastWork.value, lastWork, polls[0].head.value)
                  && s.acts == [Waited(s.lastWork.value),
                                Fetched(s.lastWork.value.tipset.height + s.lastWork.value.nullRounds + 1, false)])
  {
  }

  // ---- One pass ----

  /** How the attempt of one miner ends. `won` tells whether the win was recorded before the timeout. */
  datatype Attempt =
    | TimedOut(won: bool)
    | NotWinner
    | FailedBefore
    | FailedAfter
    | Won(ticket: Ticket)

  /** The proofs of a winner with the round and the parent ticket they were computed from. */
  datatype WinPoSt = WinPoSt(addr: Address, round: Epoch, chainRand: Ticket, ticket: Ticket)

  /** The answers of one pass: the selection polls, every configured miner's attempt and the time of
      the wins, the head asked for again after mining, and what the node put into the blocks it managed to create. */
  datatype Env = Env(
    polls: seq<Poll>, attempts: map<Address, Attempt>, now: int, head: Option<TipSet>, created: map<Address, string>)

  datatype Block = Block(header: Header, timestamp: int, win: WinPoSt)

  datatype PassResult =
    | Idle
    | NoBase
    | Repeated
    | Mined(used: Base, final: Base, blocks: seq<Block>)

  /** What survives from pass to pass: `m.lastWork` and the loop's copy of its last base. */
  datatype LoopState = LoopState(lastWork: Option<Base>, lastBase: Option<Base>)

  function Proof(b: Base, addr: Address, ticket: Ticket): WinPoSt {
    WinPoSt(addr, Round(b), b.tipset.minTicket, ticket)
  }

  predicate DistinctMiners(wins: seq<WinPoSt>) {
    forall i, j | 0 <= i < j < |wins| :: wins[i].addr != wins[j].addr
  }

  /** `wins` holds one entry for every attempt that won, in the order in which they finished. */
  ghost predicate WinsOf(b: Base, attempts: map<Address, Attempt>, wins: seq<WinPoSt>) {
    && DistinctMiners(wins)
    && (forall w | w in wins ::
          && w.addr in attempts && attempts[w.addr].Won?
          && w == Proof(b, w.addr, attempts[w.addr].ticket))
    && (forall a | a in attempts && attempts[a].Won? :: Proof(b, a, attempts[a].ticket) in wins)
  }

  /** The head replaces the tipset only at the same height and with the same smallest ticket. */
  predicate Refreshes(b: Base, head: Option<TipSet>) {
    && head.Some?
    && head.value.height == b.tipset.height
    && head.value != b.tipset
    && head.value.minTicket == b.tipset.minTicket
  }

  predicate Forked(b: Base, head: Option<TipSet>) {
    && head.Some?
    && head.value.height == b.tipset.height
    && head.value != b.tipset
    && head.value.minTicket != b.tipset.minTicket
  }

  function Refresh(b: Base, head: Option<TipSet>): Base {
    if Refreshes(b, head) then b.(tipset := head.value) else b
  }

  function NewBlock(b: Base, win: WinPoSt, rest: string, delay: int): Block {
    Block(Header(win.addr, Round(b), b.tipset.key, Some(win.ticket), rest),
          b.tipset.minTimestamp + delay * (b.nullRounds + 1),
          win)
  }

  function NewBlocks(b: Base, wins: seq<WinPoSt>, created: map<Address, string>, delay: int): seq<Block> {
    if wins == [] then [] else
    var n := |wins| - 1;
    NewBlocks(b, wins[..n], created, delay)
    + if wins[n].addr in created then [NewBlock(b, wins[n], created[wins[n].addr], delay)] else []
  }

  function Pass(st: LoopState, env: Env, wins: seq<WinPoSt>, delay: int): (LoopState, PassResult) {
    if env.attempts == map[] then (st, Idle)
    else
      var s := Select(st.lastWork, None, env.polls);
      if !s.found.Ready? then (st.(lastWork := s.lastWork), NoBase)
      else
        var used := s.found.base;
        if st.lastBase == Some(used) then (st.(lastWork := s.lastWork), Repeated)
        else
          var final := Refresh(used, env.head);
          var next := if wins == [] then final.(nullRounds := final.nullRounds + 1) else final;
          (LoopState(Some(next), Some(final)), Mined(used, final, NewBlocks(final, wins, env.created, delay)))
  }

  /** Successive passes; `winss[i]` are the winners of pass i. */
  function Passes(st: LoopState, envs: seq<Env>, winss: seq<seq<WinPoSt>>, delay: int)
    : (r: (LoopState, seq<PassResult>))
    requires |envs| == |winss|
    ensures |r.1| == |envs|
  {
    if envs == [] then (st, []) else
    var n := |envs| - 1;
    var (before, results) := Passes(st, envs[..n], winss[..n], delay);
    var (after, result) := Pass(before, envs[n], winss[n], delay);
    (after, results + [result])
  }

  /** Pass by pass, the winners are those of the attempts on the base that was used. */
  ghost predicate WinnersKnown(results: seq<PassResult>, envs: seq<Env>, winss: seq<seq<WinPoSt>>) {
    && |results| == |envs| == |winss|
    && forall i | 0 <= i < |envs| && results[i].Mined? :: WinsOf(results[i].used, envs[i].attempts, winss[i])
  }

  lemma PassesSnoc(
    st: LoopState, envs: seq<Env>, winss: seq<seq<WinPoSt>>, env: Env, wins: seq<WinPoSt>, delay: int)
    requires |envs| == |winss|
    ensures var (before, results) := Passes(st, envs, winss, delay);
            var (after, result) := Pass(before, env, wins, delay);
            Passes(st, envs + [env], winss + [wins], delay) == (after, results + [result])
  {
    assert (envs + [env])[..|envs|] == envs && (winss + [wins])[..|winss|] == winss;
  }

  /** One more pass, with the winners of its base. */
  lemma RunSnoc(st: LoopState, envs: seq<Env>, winss: seq<seq<WinPoSt>>, env: Env, wins: seq<WinPoSt>, delay: int)
    requires |envs| == |winss|
    requires WinnersKnown(Passes(st, envs, winss, delay).1, envs, winss)
    requires var r := Pass(Passes(st, envs, winss, delay).0, env, wins, delay).1;
             r.Mined? ==> WinsOf(r.used, env.attempts, wins)
    ensures var (before, results) := Passes(st, envs, winss, delay);
            var (after, result) := Pass(before, env, wins, delay);
            && Passes(st, envs + [env], winss + [wins], delay) == (after, results + [result])
            && WinnersKnown(results + [result], envs + [env], winss + [wins])
  {
    PassesSnoc(st, envs, winss, env, wins, delay);
  }

  // ---- Every created block is coherent ----

  /** Every block of a pass is dated and placed like its proofs, on the parents whose ticket they used. */
  ghost predicate Coherent(final: Base, blocks: seq<Block>, delay: int) {
    forall b | b in blocks ::
      && b.header.height == b.win.round == Round(final)
      && b.header.miner == b.win.addr
      && b.header.parents == final.tipset.key
      && b.header.ticket == Some(b.win.ticket)
      && b.win.chainRand == final.tipset.minTicket
      && b.timestamp == final.tipset.minTimestamp + delay * (final.nullRounds + 1)
  }

  ghost predicate DistinctBlocks(blocks: seq<Block>) {
    forall i, j | 0 <= i < j < |blocks| :: blocks[i].header.miner != blocks[j].header.miner
  }

  lemma {:induction false} NewBlocksAreCoherent(
    used: Base, final: Base, wins: seq<WinPoSt>, created: map<Address, string>, delay: int)
    requires DistinctMiners(wins)
    requires forall w | w in wins :: w.round == Round(used) && w.chainRand == used.tipset.minTicket
    requires Round(final) == Round(used) && final.tipset.minTicket == used.tipset.minTicket
    ensures Coherent(final, NewBlocks(final, wins, created, delay), delay)
    ensures DistinctBlocks(NewBlocks(final, wins, created, delay))
    ensures forall b | b in NewBlocks(final, wins, created, delay) :: b.win in wins && b.header.miner in created
  {
    if wins != [] {
      var n := |wins| - 1;
      NewBlocksAreCoherent(used, final, wins[..n], created, delay);
      var blocks := NewBlocks(final, wins[..n], created, delay);
      forall i | 0 <= i < |blocks|
        ensures blocks[i].header.miner != wins[n].addr
      {
        assert blocks[i] in blocks;
        var k :| 0 <= k < n && wins[k] == blocks[i].win;
      }
    }
  }

  /** In spite of the late refresh, each block's epoch is the round of its proofs, the ticket they
      started from is the one of the published parents, and no miner gets two blocks. */
  lemma PassIsCoherent(st: LoopState, env: Env, wins: seq<WinPoSt>, delay: int)
    requires var r := Pass(st, env, wins, delay).1;
             r.Mined? ==> WinsOf(r.used, env.attempts, wins)
    ensures var r := Pass(st, env, wins, delay).1;
            r.Mined? ==>
              && Round(r.final) == Round(r.used)
              && Coherent(r.final, r.blocks, delay)
              && DistinctBlocks(r.blocks)
  {
    var r := Pass(st, env, wins, delay).1;
    if r.Mined? {
      NewBlocksAreCoherent(r.used, r.final, wins, env.created, delay);
    }
  }

  // ---- Every winner gets its block ----

  /** A block is the one its winner's attempt and the node made for this miner. */
  predicate IsBlockOf(b: Block, a: Address, attempts: map<Address, Attempt>, created: map<Address, string>) {
    && b.header.miner == a
    && a in attempts && attempts[a].Won? && a in created
    && b.header.ticket == Some(attempts[a].ticket)
    && b.header.rest == created[a]
  }

  /** The winners whose block the node made, in the order of the wins. */
  function CreatedWinners(wins: seq<WinPoSt>, created: map<Address, string>): seq<Address> {
    if wins == [] then [] else
    var n := |wins| - 1;
    CreatedWinners(wins[..n], created) + if wins[n].addr in created then [wins[n].addr] else []
  }

  /** One block for each miner that won and whose block the node made, none for any other, in the order of
      the wins. */
  ghost predicate OneBlockPerWin(
    blocks: seq<Block>, wins: seq<WinPoSt>, attempts: map<Address, Attempt>, created: map<Address, string>)
  {
    && (forall a | a in attempts && attempts[a].Won? && a in created ::
          exists i | 0 <= i < |blocks| :: IsBlockOf(blocks[i], a, attempts, created))
    && |blocks| == |CreatedWinners(wins, created)|
    && (forall i | 0 <= i < |blocks| :: IsBlockOf(blocks[i], CreatedWinners(wins, created)[i], attempts, created))
    && (forall i, j | 0 <= i < j < |blocks| :: blocks[i].header.miner != blocks[j].header.miner)
  }

  lemma {:induction false} CreatedWinnersMembers(wins: seq<WinPoSt>, created: map<Address, string>, k: nat)
    requires k < |wins| && wins[k].addr in created
    ensures wins[k].addr in CreatedWinners(wins, created)
  {
    if k < |wins| - 1 {
      CreatedWinnersMembers(wins[..|wins| - 1], created, k);
    }
  }

  lemma {:induction false} NewBlocksInOrder(
    final: Base, attempts: map<Address, Attempt>, wins: seq<WinPoSt>, created: map<Address, string>, delay: int)
    requires forall w | w in wins ::
               w.addr in attempts && attempts[w.addr].Won? && w.ticket == attempts[w.addr].ticket
    ensures var blocks := NewBlocks(final, wins, created, delay);
            && |blocks| == |CreatedWinners(wins, created)|
            && forall i | 0 <= i < |blocks| ::
                 IsBlockOf(blocks[i], CreatedWinners(wins, created)[i], attempts, created)
  {
    if wins != [] {
      NewBlocksInOrder(final, attempts, wins[..|wins| - 1], created, delay);
      assert wins[|wins| - 1] in wins;
    }
  }

  lemma WinsMakeBlocks(
    used: Base, final: Base, attempts: map<Address, Attempt>, wins: seq<WinPoSt>, created: map<Address, string>,
    delay: int)
    requires WinsOf(used, attempts, wins)
    requires Round(final) == Round(used) && final.tipset.minTicket == used.tipset.minTicket
    ensures OneBlockPerWin(NewBlocks(final, wins, created, delay), wins, attempts, created)
  {
    var blocks := NewBlocks(final, wins, created, delay);
    NewBlocksInOrder(final, attempts, wins, created, delay);
    NewBlocksAreCoherent(used, final, wins, created, delay);
    forall a | a in attempts && attempts[a].Won? && a in created
      ensures exists i | 0 <= i < |blocks| :: IsBlockOf(blocks[i], a, attempts, created)
    {
      var k :| 0 <= k < |wins| && wins[k] == Proof(used, a, attempts[a].ticket);
      CreatedWinnersMembers(wins, created, k);
      var i :| 0 <= i < |CreatedWinners(wins, created)| && CreatedWinners(wins, created)[i] == a;
      assert IsBlockOf(blocks[i], a, attempts, created);
    }
  }

  /** In every pass each miner that won and whose block the node made gets exactly one block, with the
      ticket of its own attempt, nobody else gets any, and the blocks keep the order of the wins. */
  lemma EveryWinGetsItsBlock(st: LoopState, env: Env, wins: seq<WinPoSt>, delay: int)
    requires var r := Pass(st, env, wins, delay).1;
             r.Mined? ==> WinsOf(r.used, env.attempts, wins)
    ensures var r := Pass(st, env, wins, delay).1;
            r.Mined? ==> OneBlockPerWin(r.blocks, wins, env.attempts, env.created)
  {
    var r := Pass(st, env, wins, delay).1;
    if r.Mined? {
      WinsMakeBlocks(r.used, r.final, env.attempts, wins, env.created, delay);
    }
  }

  // ---- The late refresh ----

  /** A pass builds on the head that the node answers after mining exactly if that head has the height and
      the smallest ticket of the base used, and on the base used otherwise; its null rounds never change. */
  lemma PassRefreshesIff(st: LoopState, env: Env, wins: seq<WinPoSt>, delay: int)
    ensures var r := Pass(st, env, wins, delay).1;
            r.Mined? ==>
              var better := && env.head.Some?
                            && env.head.value.height == r.used.tipset.height
                            && env.head.value.minTicket == r.used.tipset.minTicket;
              && r.final.nullRounds == r.used.nullRounds
              && r.final.tipset == (if better then env.head.value else r.used.tipset)
  {
  }

  // ---- What ends a pass early ----

  /** Without configured miners the loop keeps everything and mines nothing; without a base it keeps its
      last base; a repeated base is left alone; and whatever was mined on is the last work. */
  lemma PassCases(st: LoopState, env: Env, wins: seq<WinPoSt>, delay: int)
    ensures var (st', r) := Pass(st, env, wins, delay);
            var found := Select(st.lastWork, None, env.polls).found;
            && (r == Idle <==> env.attempts == map[])
            && (r == Idle ==> st' == st)
            && (env.attempts != map[] ==>
                  && (r == NoBase <==> !found.Ready?)
                  && (r == Repeated <==> found.Ready? && st.lastBase == Some(found.base))
                  && (r.Mined? <==> found.Ready? && st.lastBase != Some(found.base)))
            && (r.Mined? ==> r.used == found.base && st'.lastWork.Some? && st'.lastWork.value.tipset == r.final.tipset)
            && (!r.Mined? ==> st'.lastBase == st.lastBase)
            && (r.Repeated? ==> st'.lastWork == st.lastBase)
  {
    SelectionIsPrepared(st.lastWork, env.polls);
  }

  // ---- Timestamps over whole runs ----

  predicate OnClock(t: TipSet, genesis: int, delay: int) {
    t.minTimestamp == genesis + delay * t.height
  }

  predicate OptionOnClock(b: Option<Base>, genesis: int, delay: int) {
    b.Some? ==> OnClock(b.value.tipset, genesis, delay)
  }

  ghost predicate HeadsOnClock(env: Env, genesis: int, delay: int) {
    && (forall p | p in env.polls && p.head.Some? :: OnClock(p.head.value, genesis, delay))
    && (env.head.Some? ==> OnClock(env.head.value, genesis, delay))
  }

  lemma {:induction false} SelectKeepsClock(
    lastWork: Option<Base>, prev: Option<Base>, polls: seq<Poll>, genesis: int, delay: int)
    requires OptionOnClock(lastWork, genesis, delay)
    requires forall p | p in polls && p.head.Some? :: OnClock(p.head.value, genesis, delay)
    ensures OptionOnClock(Select(lastWork, prev, polls).lastWork, genesis, delay)
    decreases |polls|
  {
    if polls != [] && polls[0].head.Some? {
      assert polls[0] in polls;
      var b := Candidate(lastWork, polls[0].head.value);
      if !SameRoundBase(prev, b) && polls[0].beacon {
        SelectKeepsClock(Some(b), Some(b), polls[1..], genesis, delay);
      }
    }
  }

  lemma ClockAddsUp(genesis: int, delay: int, height: Epoch, nulls: Epoch)
    ensures genesis + delay * height + delay * (nulls + 1) == genesis + delay * (height + nulls + 1)
  {
  }

  /** If all heads are timed by their height, so is every block of every run. */
  lemma {:induction false} BlocksAreOnClock(
    st: LoopState, envs: seq<Env>, winss: seq<seq<WinPoSt>>, genesis: int, delay: int)
    requires |envs| == |winss|
    requires OptionOnClock(st.lastWork, genesis, delay)
    requires forall e | e in envs :: HeadsOnClock(e, genesis, delay)
    requires WinnersKnown(Passes(st, envs, winss, delay).1, envs, winss)
    ensures OptionOnClock(Passes(st, envs, winss, delay).0.lastWork, genesis, delay)
    ensures forall r, b | r in Passes(st, envs, winss, delay).1 && r.Mined? && b in r.blocks ::
              b.timestamp == genesis + delay * b.header.height
    decreases |envs|
  {
    if envs != [] {
      var n := |envs| - 1;
      var (before, results) := Passes(st, envs[..n], winss[..n], delay);
      assert Passes(st, envs, winss, delay).1[..n] == results;
      forall i | 0 <= i < n && results[i].Mined?
        ensures WinsOf(results[i].used, envs[..n][i].attempts, winss[..n][i])
      {
        assert Passes(st, envs, winss, delay).1[i] == results[i];
      }
      assert Passes(st, envs, winss, delay).1[n] == Pass(before, envs[n], winss[n], delay).1;
      BlocksAreOnClock(st, envs[..n], winss[..n], genesis, delay);
      PassIsOnClock(before, envs[n], winss[n], genesis, delay);
    }
  }

  lemma PassIsOnClock(st: LoopState, env: Env, wins: seq<WinPoSt>, genesis: int, delay: int)
    requires OptionOnClock(st.lastWork, genesis, delay) && HeadsOnClock(env, genesis, delay)
    requires var r := Pass(st, env, wins, delay).1;
             r.Mined? ==> WinsOf(r.used, env.attempts, wins)
    ensures OptionOnClock(Pass(st, env, wins, delay).0.lastWork, genesis, delay)
    ensures var r := Pass(st, env, wins, delay).1;
            r.Mined? ==> forall b | b in r.blocks :: b.timestamp == genesis + delay * b.header.height
  {
    SelectKeepsClock(st.lastWork, None, env.polls, genesis, delay);
    SelectionIsPrepared(st.lastWork, env.polls);
    PassIsCoherent(st, env, wins, delay);
    var r := Pass(st, env, wins, delay).1;
    if r.Mined? {
      ClockAddsUp(genesis, delay, r.final.tipset.height, r.final.nullRounds);
    }
  }

  // ---- What a run mines ----

  /** The base that the last mining pass ended with. */
  function LastFinal(results: seq<PassResult>, lastBase: Option<Base>): Option<Base> {
    if results == [] then lastBase
    else if results[|results| - 1].Mined? then Some(results[|results| - 1].final)
    else LastFinal(results[..|results| - 1], lastBase)
  }

  /** A pass remembers the base it ended with, and did not start on the one remembered. */
  lemma PassRemembers(st: LoopState, env: Env, wins: seq<WinPoSt>, delay: int)
    ensures var (after, r) := Pass(st, env, wins, delay);
            && after.lastBase == (if r.Mined? then Some(r.final) else st.lastBase)
            && (r.Mined? ==> st.lastBase != Some(r.used))
  {
  }

  lemma LastFinalSnoc(results: seq<PassResult>, r: PassResult, lastBase: Option<Base>)
    ensures LastFinal(results + [r], lastBase) == if r.Mined? then Some(r.final) else LastFinal(results, lastBase)
  {
    assert (results + [r])[..|results|] == results;
  }

  /** No pass mines on exactly the base that the previous mining pass ended with. */
  ghost predicate NoRepeats(results: seq<PassResult>, lastBase: Option<Base>) {
    forall i | 0 <= i < |results| && results[i].Mined? ::
      LastFinal(results[..i], lastBase) != Some(results[i].used)
  }

  lemma NoRepeatsSnoc(results: seq<PassResult>, r: PassResult, lastBase: Option<Base>)
    requires NoRepeats(results, lastBase)
    requires r.Mined? ==> LastFinal(results, lastBase) != Some(r.used)
    ensures NoRepeats(results + [r], lastBase)
  {
    assert forall i | 0 <= i <= |results| :: (results + [r])[..i] == results[..i];
    assert results[..|results|] == results;
  }

  /** Over every run: no base is mined twice in a row. */
  lemma {:induction false} NeverTheSameBaseTwice(
    st: LoopState, envs: seq<Env>, winss: seq<seq<WinPoSt>>, delay: int)
    requires |envs| == |winss|
    ensures var (end, results) := Passes(st, envs, winss, delay);
            end.lastBase == LastFinal(results, st.lastBase) && NoRepeats(results, st.lastBase)
    decreases |envs|
  {
    if envs != [] {
      var n := |envs| - 1;
      NeverTheSameBaseTwice(st, envs[..n], winss[..n], delay);
      var (before, results) := Passes(st, envs[..n], winss[..n], delay);
      var r := Pass(before, envs[n], winss[n], delay).1;
      PassRemembers(before, envs[n], winss[n], delay);
      LastFinalSnoc(results, r, st.lastBase);
      NoRepeatsSnoc(results, r, st.lastBase);
    }
  }

  /** ChainHead keeps answering `t` and the beacon is there. */
  predicate Steady(env: Env, t: TipSet) {
    && |env.polls| >= 2
    && (forall p | p in env.polls :: p == Poll(Some(t), true))
    && env.head in {None, Some(t)}
    && env.attempts != map[]
  }

  lemma SteadySelect(lastWork: Option<Base>, polls: seq<Poll>, t: TipSet)
    requires |polls| >= 2 && forall p | p in polls :: p == Poll(Some(t), true)
    ensures var s := Select(lastWork, None, polls);
            s.found == Ready(Candidate(lastWork, t)) && s.lastWork == Some(Candidate(lastWork, t))
  {
    assert polls[0] in polls && polls[1] in polls;
    assert polls[1..][0] == polls[1];
    var b := Candidate(lastWork, t);
    assert Select(Some(b), Some(b), polls[1..]) == Selection(Ready(b), Some(b), []);
  }

  lemma SteadyPass(st: LoopState, env: Env, wins: seq<WinPoSt>, delay: int, t: TipSet)
    requires Steady(env, t)
    ensures var b := Candidate(st.lastWork, t);
            Pass(st, env, wins, delay) ==
            if st.lastBase == Some(b) then (st.(lastWork := Some(b)), Repeated)
            else (LoopState(Some(if wins == [] then b.(nullRounds := b.nullRounds + 1) else b), Some(b)),
                  Mined(b, b, NewBlocks(b, wins, env.created, delay)))
  {
    SteadySelect(st.lastWork, env.polls, t);
  }

  /** The bases mined by winless passes on a steady head: rounds H+1, H+2, ... without gap or repeat. */
  ghost predicate MinesEveryRound(results: seq<PassResult>, t: TipSet) {
    forall i | 0 <= i < |results| :: results[i] == Mined(Base(t, i), Base(t, i), [])
  }

  /** Winless pass `n` on the head. */
  lemma WinlessPass(st: LoopState, env: Env, delay: int, t: TipSet, n: nat)
    requires Steady(env, t)
    requires if n == 0 then st.lastBase != Some(Base(t, 0)) && (st.lastWork.Some? ==> st.lastWork.value.tipset != t)
             else st == LoopState(Some(Base(t, n)), Some(Base(t, n - 1)))
    ensures Pass(st, env, [], delay)
            == (LoopState(Some(Base(t, n + 1)), Some(Base(t, n))), Mined(Base(t, n), Base(t, n), []))
  {
    SteadyPass(st, env, [], delay, t);
  }

  lemma {:induction false} WinlessPasses(
    st: LoopState, envs: seq<Env>, winss: seq<seq<WinPoSt>>, delay: int, t: TipSet)
    requires |envs| == |winss| && (forall e | e in envs :: Steady(e, t)) && (forall w | w in winss :: w == [])
    requires st.lastWork.Some? ==> st.lastWork.value.tipset != t
    requires st.lastBase != Some(Base(t, 0))
    ensures var (end, results) := Passes(st, envs, winss, delay);
            && MinesEveryRound(results, t)
            && end == if envs == [] then st else LoopState(Some(Base(t, |envs|)), Some(Base(t, |envs| - 1)))
    decreases |envs|
  {
    if envs != [] {
      var n := |envs| - 1;
      assert forall w | w in winss[..n] :: w in winss;
      WinlessPasses(st, envs[..n], winss[..n], delay, t);
      assert envs[n] in envs && winss[n] in winss;
      WinlessPass(Passes(st, envs[..n], winss[..n], delay).0, envs[n], delay, t, n);
    }
  }

  /** A base already mined to its end is not mined again while the head stays. */
  lemma {:induction false} StuckPasses(
    st: LoopState, envs: seq<Env>, winss: seq<seq<WinPoSt>>, delay: int, t: TipSet)
    requires |envs| == |winss| && (forall e | e in envs :: Steady(e, t))
    requires st.lastBase == Some(Candidate(st.lastWork, t))
    ensures var (end, results) := Passes(st, envs, winss, delay);
            && (forall r | r in results :: r == Repeated)
            && end.lastBase == Some(Candidate(end.lastWork, t))
    decreases |envs|
  {
    if envs != [] {
      var n := |envs| - 1;
      StuckPasses(st, envs[..n], winss[..n], delay, t);
      assert envs[n] in envs;
      SteadyPass(Passes(st, envs[..n], winss[..n], delay).0, envs[n], winss[n], delay, t);
    }
  }

  /** On a newly seen head that stays, winless passes mine every following round exactly once if and
      only if the loop's last mined base was not that very head without null rounds. (It can be: after
      a base on another head failed before it was mined, the head may come back.) Otherwise nothing
      is mined on it at all. */
  lemma NullRoundProgressIff(st: LoopState, envs: seq<Env>, winss: seq<seq<WinPoSt>>, delay: int, t: TipSet)
    requires |envs| == |winss| > 0
    requires (forall e | e in envs :: Steady(e, t)) && (forall w | w in winss :: w == [])
    requires st.lastWork.Some? ==> st.lastWork.value.tipset != t
    ensures MinesEveryRound(Passes(st, envs, winss, delay).1, t) <==> st.lastBase != Some(Base(t, 0))
    ensures st.lastBase == Some(Base(t, 0)) ==> forall r | r in Passes(st, envs, winss, delay).1 :: r == Repeated
  {
    if st.lastBase != Some(Base(t, 0)) {
      WinlessPasses(st, envs, winss, delay, t);
    } else {
      StuckPasses(st, envs, winss, delay, t);
      assert Passes(st, envs, winss, delay).1[0] in Passes(st, envs, winss, delay).1;
    }
  }

  /** Whatever head a winning pass ends on, refreshed or not, nothing more is mined on it while it
      stays, whoever would win. */
  lemma NothingAfterAWin(
    st: LoopState, env: Env, wins: seq<WinPoSt>, envs: seq<Env>, winss: seq<seq<WinPoSt>>, delay: int)
    requires |envs| == |winss| && wins != [] && Pass(st, env, wins, delay).1.Mined?
    requires forall e | e in envs :: Steady(e, Pass(st, env, wins, delay).1.final.tipset)
    ensures forall r | r in Passes(Pass(st, env, wins, delay).0, envs, winss, delay).1 :: r == Repeated
  {
    var (after, r) := Pass(st, env, wins, delay);
    StuckPasses(after, envs, winss, delay, r.final.tipset);
  }

  /** A pass whose first head is another one without a beacon. */
  lemma FailingPass(st: LoopState, env: Env, delay: int, other: TipSet)
    requires env.attempts != map[] && |env.polls| > 0 && env.polls[0] == Poll(Some(other), false)
    ensures Pass(st, env, [], delay) == (st.(lastWork := Some(Candidate(st.lastWork, other))), NoBase)
  {
  }

  lemma ThreePasses(st: LoopState, a: Env, b: Env, c: Env, delay: int)
    ensures var (st1, r1) := Pass(st, a, [], delay);
            var (st2, r2) := Pass(st1, b, [], delay);
            var (st3, r3) := Pass(st2, c, [], delay);
            Passes(st, [a, b, c], [[], [], []], delay) == (st3, [r1, r2, r3])
  {
    var none: seq<WinPoSt> := [];
    var (st1, r1) := Pass(st, a, none, delay);
    var (st2, r2) := Pass(st1, b, none, delay);
    var (st3, r3) := Pass(st2, c, none, delay);
    var noEnvs: seq<Env>, noWins: seq<seq<WinPoSt>> := [], [];
    PassesSnoc(st, noEnvs, noWins, a, none, delay);
    assert noEnvs + [a] == [a] && noWins + [none] == [none];
    assert Passes(st, [a], [none], delay).1 == [r1];
    PassesSnoc(st, [a], [none], b, none, delay);
    assert [a] + [b] == [a, b] && [none] + [none] == [none, none] && [r1] + [r2] == [r1, r2];
    PassesSnoc(st, [a, b], [none, none], c, none, delay);
    assert [a, b] + [c] == [a, b, c] && [none, none] + [none] == [none, none, none];
    assert [r1, r2] + [r3] == [r1, r2, r3];
    assert Passes(st, [a, b, c], [none, none, none], delay) == (st3, [r1, r2, r3]);
    assert [none, none, none] == [[], [], []];
  }

  /** The head can come back that way: `t` is mined, another head is selected but its beacon fails,
      and then `t`, though newly seen, is never mined for its next round. */
  lemma ReturningHeadIsStuck(t: TipSet, other: TipSet, first: Env, failing: Env, back: Env, delay: int)
    requires t != other && Steady(first, t) && Steady(back, t)
    requires failing.attempts != map[] && |failing.polls| > 0 && failing.polls[0] == Poll(Some(other), false)
    ensures var (end, results) := Passes(LoopState(None, None), [first, failing, back], [[], [], []], delay);
            && results == [Mined(Base(t, 0), Base(t, 0), []), NoBase, Repeated]
            && end == LoopState(Some(Base(t, 0)), Some(Base(t, 0)))
  {
    WinlessPass(LoopState(None, None), first, delay, t, 0);
    FailingPass(LoopState(Some(Base(t, 1)), Some(Base(t, 0))), failing, delay, other);
    SteadyPass(LoopState(Some(Base(other, 0)), Some(Base(t, 0))), back, [], delay, t);
    ThreePasses(LoopState(None, None), first, failing, back, delay);
  }
}
