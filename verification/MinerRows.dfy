/** What one pass of the mining loop leaves in the table of the row store, column by column. */
module MinerRows {
  import opened Chain
  import opened Faults
  import opened PublishGate
  import opened MiningLoop
  import opened MinerObject
  import opened MinerRuns
  import GateOffset
  import MysqlFilter

  /** The table after the puts. */
  function After(rows: MysqlFilter.Rows, puts: seq<Event>): MysqlFilter.Rows
    decreases |puts|
  {
    if puts == [] then rows else
    var n := |puts| - 1;
    var before := After(rows, puts[..n]);
    if puts[n].Note? then MysqlFilter.Put(before, puts[n].bh, puts[n].parentEpoch, puts[n].at, puts[n].state)
    else before
  }

  lemma {:induction false} AfterConcat(rows: MysqlFilter.Rows, a: seq<Event>, b: seq<Event>)
    ensures After(rows, a + b) == After(After(rows, a), b)
    decreases |b|
  {
    if b == [] {
      assert a + b == a;
    } else {
      var n := |b| - 1;
      assert (a + b)[..|a| + n] == a + b[..n] && (a + b)[|a| + n] == b[n];
      AfterConcat(rows, a, b[..n]);
    }
  }

  /** It is the one that the gate works on. */
  lemma {:induction false} AfterIsGates(rows: MysqlFilter.Rows, puts: seq<Event>)
    ensures AfterPuts(Mysql(rows), puts) == Mysql(After(rows, puts))
    decreases |puts|
  {
    if puts != [] {
      var first := if puts[0].Note? then
        MysqlFilter.Put(rows, puts[0].bh, puts[0].parentEpoch, puts[0].at, puts[0].state) else rows;
      AfterIsGates(first, puts[1..]);
      assert [puts[0]] + puts[1..] == puts;
      AfterConcat(rows, [puts[0]], puts[1..]);
      assert After(rows, [puts[0]][..0]) == rows;
      assert After(rows, [puts[0]]) == first;
    }
  }

  /** The attempt won the round, whatever became of it. */
  predicate Found(attempt: Attempt) {
    attempt.Won? || attempt.FailedAfter? || (attempt.TimedOut? && attempt.won)
  }

  /** The row of a miner that was not in the table: none unless its attempt won, and otherwise the parents
      and the time of the win, no CID, and how the attempt ended. */
  predicate RowOfAttempt(rows: MysqlFilter.Rows, used: Base, a: Address, attempt: Attempt, now: int) {
    var round := used.tipset.height + used.nullRounds + 1;
    && ((a, round) in rows <==> Found(attempt))
    && (Found(attempt) ==>
          var row := rows[(a, round)];
          && row.parentKey == used.tipset.key
          && row.parentEpoch == round - 1
          && row.cid == None
          && row.winningAt == Some(now)
          && row.state == match attempt
                          case TimedOut(_) => Timeout
                          case FailedAfter => Error
                          case _ => Mining)
  }

  /** The two tables differ at most in this miner's row of this round. */
  ghost predicate OnlyChanges(rows: MysqlFilter.Rows, rows': MysqlFilter.Rows, a: Address, round: Epoch) {
    forall k | k != (a, round) :: (k in rows <==> k in rows') && (k in rows ==> rows[k] == rows'[k])
  }

  lemma AfterOne(rows: MysqlFilter.Rows, e: Event)
    requires e.Note?
    ensures After(rows, [e]) == MysqlFilter.Put(rows, e.bh, e.parentEpoch, e.at, e.state)
  {
    assert [e][..0] == [];
  }

  lemma AfterTwo(rows: MysqlFilter.Rows, e: Event, e': Event)
    requires e.Note? && e'.Note?
    ensures After(rows, [e, e'])
            == MysqlFilter.Put(MysqlFilter.Put(rows, e.bh, e.parentEpoch, e.at, e.state),
                               e'.bh, e'.parentEpoch, e'.at, e'.state)
  {
    AfterOne(rows, e);
    assert [e, e'][..1] == [e];
  }

  /** A put without a row, and a later one without parents and ticket. */
  lemma TwoPuts(rows: MysqlFilter.Rows, e: Event, e': Event)
    requires e.Note? && e'.Note? && MinerOf(e) == MinerOf(e') && e.bh.height == e'.bh.height
    requires (e.bh.miner, e.bh.height) !in rows && e.state != Timeout
    requires e.bh.ticket == e'.bh.ticket == None && e'.bh.parents == []
    ensures After(rows, [e, e'])
            == rows[(e.bh.miner, e.bh.height) :=
                    MysqlFilter.Row(e'.parentEpoch, e.bh.parents, None, e.at, e'.state)]
  {
    AfterTwo(rows, e, e');
  }

  /** The row of a win alone. */
  lemma WinLeaves(rows: MysqlFilter.Rows, used: Base, a: Address, ticket: Ticket, now: int)
    requires (a, Round(used)) !in rows
    ensures var rows' := After(rows, AttemptPuts(used, a, Won(ticket), now));
            RowOfAttempt(rows', used, a, Won(ticket), now) && OnlyChanges(rows, rows', a, Round(used))
  {
    AfterOne(rows, AttemptPuts(used, a, Won(ticket), now)[0]);
  }

  /** And the row of a win that ends in an error or a timeout. */
  lemma LostWinLeaves(rows: MysqlFilter.Rows, used: Base, a: Address, attempt: Attempt, now: int)
    requires (a, Round(used)) !in rows
    requires attempt == FailedAfter || attempt == TimedOut(true)
    ensures var rows' := After(rows, AttemptPuts(used, a, attempt, now));
            RowOfAttempt(rows', used, a, attempt, now) && OnlyChanges(rows, rows', a, Round(used))
  {
    var puts := AttemptPuts(used, a, attempt, now);
    assert puts == [puts[0], puts[1]];
    TwoPuts(rows, puts[0], puts[1]);
  }

  /** What one attempt leaves. */
  lemma AttemptLeaves(rows: MysqlFilter.Rows, used: Base, a: Address, attempt: Attempt, now: int)
    requires (a, Round(used)) !in rows
    ensures var rows' := After(rows, AttemptPuts(used, a, attempt, now));
            RowOfAttempt(rows', used, a, attempt, now) && OnlyChanges(rows, rows', a, Round(used))
  {
    match attempt
    case TimedOut(won) =>
      if won {
        LostWinLeaves(rows, used, a, attempt, now);
      } else {
        var puts := AttemptPuts(used, a, attempt, now);
        assert puts == [puts[0]];
        AfterOne(rows, puts[0]);
      }
    case FailedAfter => LostWinLeaves(rows, used, a, attempt, now);
    case Won(ticket) => WinLeaves(rows, used, a, ticket, now);
    case _ =>
  }

  ghost predicate AllRows(
    rows: MysqlFilter.Rows, rows': MysqlFilter.Rows, used: Base, attempts: map<Address, Attempt>,
    done: seq<Address>, now: int)
  {
    && (forall a | a in done && a in attempts :: RowOfAttempt(rows', used, a, attempts[a], now))
    && (forall k: (Address, Epoch) | !(k.0 in done && k.0 in attempts && k.1 == Round(used)) ::
          (k in rows <==> k in rows') && (k in rows ==> rows[k] == rows'[k]))
  }

  lemma AllRowsSnoc(
    rows: MysqlFilter.Rows, before: MysqlFilter.Rows, after: MysqlFilter.Rows, used: Base,
    attempts: map<Address, Attempt>, done: seq<Address>, a: Address, now: int)
    requires AllRows(rows, before, used, attempts, done, now) && a !in done
    requires if a in attempts
             then RowOfAttempt(after, used, a, attempts[a], now) && OnlyChanges(before, after, a, Round(used))
             else after == before
    ensures AllRows(rows, after, used, attempts, done + [a], now)
  {
    forall x | x in done + [a] && x in attempts
      ensures RowOfAttempt(after, used, x, attempts[x], now)
    {
      if x != a {
        assert RowOfAttempt(before, used, x, attempts[x], now);
        assert (x, Round(used)) in before <==> (x, Round(used)) in after;
      }
    }
  }

  /** Miner by miner, whatever the order, so do all attempts of a pass. */
  lemma {:induction false} AttemptsLeave(
    rows: MysqlFilter.Rows, used: Base, attempts: map<Address, Attempt>, order: seq<Address>, now: int)
    requires forall i, j | 0 <= i < j < |order| :: order[i] != order[j]
    requires forall a | a in attempts :: (a, Round(used)) !in rows
    ensures AllRows(rows, After(rows, PutsAlong(used, attempts, order, now)), used, attempts, order, now)
  {
    if order != [] {
      var n := |order| - 1;
      var a, before := order[n], PutsAlong(used, attempts, order[..n], now);
      AttemptsLeave(rows, used, attempts, order[..n], now);
      assert a !in order[..n] && order == order[..n] + [a];
      if a in attempts {
        AfterConcat(rows, before, AttemptPuts(used, a, attempts[a], now));
        AttemptLeaves(After(rows, before), used, a, attempts[a], now);
      } else {
        assert before + [] == before;
      }
      AllRowsSnoc(rows, After(rows, before), After(rows, PutsAlong(used, attempts, order, now)),
                  used, attempts, order[..n], a, now);
    }
  }

  // ---- A forked head ----

  /** The row as a forked head leaves it: the base's height and the fork, everything else kept. */
  predicate RowForked(rows: MysqlFilter.Rows, rows': MysqlFilter.Rows, used: Base, a: Address)
    requires (a, Round(used)) in rows
  {
    && (a, Round(used)) in rows'
    && rows'[(a, Round(used))] == rows[(a, Round(used))].(parentEpoch := used.tipset.height, state := ChainForked)
  }

  ghost predicate AllForked(rows: MysqlFilter.Rows, rows': MysqlFilter.Rows, used: Base, wins: seq<WinPoSt>)
    requires forall w | w in wins :: (w.addr, Round(used)) in rows
  {
    && (forall w | w in wins :: RowForked(rows, rows', used, w.addr))
    && (forall k | forall w | w in wins :: k != (w.addr, Round(used)) ::
          (k in rows <==> k in rows') && (k in rows ==> rows[k] == rows'[k]))
  }

  lemma {:induction false} ForkLeaves(rows: MysqlFilter.Rows, used: Base, wins: seq<WinPoSt>)
    requires DistinctMiners(wins) && forall w | w in wins :: (w.addr, Round(used)) in rows
    ensures AllForked(rows, After(rows, ForkPuts(used, wins)), used, wins)
  {
    if wins != [] {
      var n := |wins| - 1;
      var before, last := ForkPuts(used, wins[..n]), ForkPuts(used, wins)[|ForkPuts(used, wins)| - 1];
      ForkLeaves(rows, used, wins[..n]);
      assert ForkPuts(used, wins) == before + [last];
      AfterConcat(rows, before, [last]);
      AfterOne(After(rows, before), last);
      assert wins == wins[..n] + [wins[n]];
      forall w | w in wins[..n]
        ensures w.addr != wins[n].addr
      {
        var i :| 0 <= i < n && wins[i] == w;
      }
      assert (wins[n].addr, Round(used)) in rows;
    }
  }

  // ---- One pass ----

  /** In every pass, from a table without the round's rows: each miner's row is as its attempt ended, except
      that the winners' rows of a pass whose head forked away say so. */
  lemma PassLeaves(
    rows: MysqlFilter.Rows, r: PassResult, env: Env, order: seq<Address>, wins: seq<WinPoSt>)
    requires r.Mined? && WinsOf(r.used, env.attempts, wins) && Enumerates(order, env.attempts.Keys)
    requires forall a | a in env.attempts :: (a, Round(r.used)) !in rows
    ensures var mid := After(rows, PutsAlong(r.used, env.attempts, order, env.now));
            var end := After(rows, PassPuts(r, env, order, wins));
            && AllRows(rows, mid, r.used, env.attempts, order, env.now)
            && (forall w | w in wins :: (w.addr, Round(r.used)) in mid)
            && var forked := && env.head.Some?
                             && env.head.value.height == r.used.tipset.height
                             && env.head.value.minTicket != r.used.tipset.minTicket;
            && (if forked then AllForked(mid, end, r.used, wins) else end == mid)
  {
    var puts := PutsAlong(r.used, env.attempts, order, env.now);
    var mid := After(rows, puts);
    AttemptsLeave(rows, r.used, env.attempts, order, env.now);
    forall w | w in wins
      ensures (w.addr, Round(r.used)) in mid
    {
      assert w.addr in order && w.addr in env.attempts;
      assert RowOfAttempt(mid, r.used, w.addr, env.attempts[w.addr], env.now);
    }
    if Forked(r.used, env.head) {
      AfterConcat(rows, puts, ForkPuts(r.used, wins));
      ForkLeaves(mid, r.used, wins);
    } else {
      assert puts + [] == puts;
    }
  }

  // ---- The row that time-offset mining gets by with ----

  lemma {:induction false} PutsOfMember(
    used: Base, attempts: map<Address, Attempt>, order: seq<Address>, now: int, a: Address, e: Event)
    requires a in order && a in attempts && e in AttemptPuts(used, a, attempts[a], now)
    ensures e in PutsAlong(used, attempts, order, now)
  {
    if a != order[|order| - 1] {
      PutsOfMember(used, attempts, order[..|order| - 1], now, a, e);
    }
  }

  /** A winner's only put is the row that `GateOffset` speaks of. */
  lemma WinPutIsNote(used: Base, b: Block, attempts: map<Address, Attempt>, created: map<Address, string>, now: int)
    requires IsBlockOf(b, b.header.miner, attempts, created)
    requires b.header.height == Round(used) && b.header.parents == used.tipset.key
    ensures AttemptPuts(used, b.header.miner, attempts[b.header.miner], now)
            == [Note(GateOffset.MiningNote(b.header), b.header.height - 1, Some(now), Mining)]
  {
  }

  /** For every block of a pass whose base was not refreshed, the pass has put the very row that
      `GateOffset` speaks of: on the block's parents, without a CID. */
  lemma MiningPutIsNote(
    r: PassResult, env: Env, order: seq<Address>, wins: seq<WinPoSt>, delay: int, b: Block)
    requires r.Mined? && r.final == r.used && Enumerates(order, env.attempts.Keys)
    requires Coherent(r.final, r.blocks, delay) && OneBlockPerWin(r.blocks, wins, env.attempts, env.created)
    requires b in r.blocks
    ensures Note(GateOffset.MiningNote(b.header), b.header.height - 1, Some(env.now), Mining)
            in PassPuts(r, env, order, wins)
  {
    var a := b.header.miner;
    var e := Note(GateOffset.MiningNote(b.header), b.header.height - 1, Some(env.now), Mining);
    var i :| 0 <= i < |r.blocks| && r.blocks[i] == b;
    assert IsBlockOf(b, a, env.attempts, env.created);
    WinPutIsNote(r.used, b, env.attempts, env.created, env.now);
    assert e in AttemptPuts(r.used, a, env.attempts[a], env.now);
    PutsOfMember(r.used, env.attempts, order, env.now, a, e);
  }
}
