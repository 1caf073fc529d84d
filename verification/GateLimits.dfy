/** What the publish gate does not prevent between a block and an earlier one, and exactly when it does. */
module GateLimits {
  import opened Chain
  import opened Faults
  import opened PublishGate
  import opened GateSafety
  import Broadcast

  /** An undisturbed broadcast that the own node accepts. */
  function AcceptedBroadcast(bh: Header, baseHeight: Epoch, nulls: Epoch, pick: Epoch): seq<Event> {
    [Launch(bh, baseHeight, nulls)] + Broadcast.Steps(bh.miner, SMOOTH, pick, Broadcast.Sent)
  }

  const SMOOTH := Broadcast.Answers({}, {}, {}, true, [])

  /** A header that both checks clear is submitted and recorded, and nothing else changes. */
  lemma BroadcastIsAccepted(g: Gate, bh: Header, baseHeight: Epoch, nulls: Epoch, pick: Epoch)
    requires bh.miner !in g.live && bh.ticket.Some?
    requires !Has(g.filter, bh) && ValidPick(g.filter, bh, pick)
    requires Mined(g.filter, bh, baseHeight, pick) == Clear
    ensures var es := AcceptedBroadcast(bh, baseHeight, nulls, pick);
            && Legal(g, es)
            && Exec(g, es).filter == Put(g.filter, bh, baseHeight + nulls, None, Success)
            && Exec(g, es).live == g.live
            && Exec(g, es).submitted == g.submitted + [Submission(bh, baseHeight)]
  {
    Broadcast.BroadcastIsRun(g, bh, baseHeight, nulls, SMOOTH, pick);
  }

  /** No double fork and no parent grinding between any two accepted blocks, in either order. */
  ghost predicate NoForks(subs: seq<Submission>) {
    forall i, j | 0 <= i < |subs| && 0 <= j < |subs| && i != j ::
      !DoubleFork(subs[i], subs[j]) && !ParentGrinding(subs[i], subs[j])
  }

  ghost predicate NoOffsets(subs: seq<Submission>) {
    forall i, j | 0 <= i < |subs| && 0 <= j < |subs| && i != j :: !TimeOffset(subs[i], subs[j])
  }

  ghost predicate NoFaults(subs: seq<Submission>) {
    NoForks(subs) && NoOffsets(subs)
  }

  lemma DistinctParentsAreNoOffsets(subs: seq<Submission>)
    requires DistinctParents(subs)
    ensures NoOffsets(subs)
  {
    forall i, j | 0 <= i < |subs| && 0 <= j < |subs| && i != j
      ensures !TimeOffset(subs[i], subs[j])
    {
      var first, second := if i < j then i else j, if i < j then j else i;
      assert SameMiner(subs[i], subs[j]) <==> SameMiner(subs[first], subs[second]);
    }
  }

  /** No block accepted so far was built on the height of `bh` without it. */
  predicate OmittedByNone(subs: seq<Submission>, bh: Header) {
    forall s | s in subs :: s.bh.miner == bh.miner && s.baseHeight == bh.height ==> CidOf(bh) in s.bh.parents
  }

  /** No own block accepted so far was built on height `h`. */
  predicate NoneBuiltOn(subs: seq<Submission>, m: Address, h: Epoch) {
    forall s | s in subs :: s.bh.miner == m ==> s.baseHeight != h
  }

  /** Nothing accepted so far has `bh` as a parent. */
  predicate Unseen(subs: seq<Submission>, bh: Header) {
    forall s | s in subs :: CidOf(bh) !in s.bh.parents
  }

  lemma LastBlockIsForkFreeIff(subs: seq<Submission>, last: Submission)
    requires NoForks(subs) && Ordered(subs + [last])
    ensures NoForks(subs + [last]) <==> OmittedByNone(subs, last.bh)
  {
    var all := subs + [last];
    forall i | 0 <= i < |subs|
      ensures !DoubleFork(subs[i], last) && !DoubleFork(last, subs[i]) && !ParentGrinding(subs[i], last)
    {
      assert all[i] == subs[i] && all[|subs|] == last;
    }
    if OmittedByNone(subs, last.bh) {
      forall i, j | 0 <= i < |all| && 0 <= j < |all| && i != j
        ensures !DoubleFork(all[i], all[j]) && !ParentGrinding(all[i], all[j])
      {
        if i == |subs| {
          assert all[j] == subs[j] && subs[j] in subs && all[i] == last;
        } else if j == |subs| {
          assert all[i] == subs[i] && all[j] == last;
        } else {
          assert all[i] == subs[i] && all[j] == subs[j];
        }
      }
    } else {
      var s :| s in subs && s.bh.miner == last.bh.miner && s.baseHeight == last.bh.height
               && CidOf(last.bh) !in s.bh.parents;
      var j :| 0 <= j < |subs| && subs[j] == s;
      assert ParentGrinding(all[|subs|], all[j]);
    }
  }

  /** Over every run of either store: publishing one more block keeps the history free of double forks
      and parent grinding in both directions exactly when no published block should have had it as a
      parent. For a block that nothing published has as a parent yet, that is when no own published
      block was built on its height. */
  lemma AcceptIsForkFreeIff(f: Filter, es: seq<Event>, m: Address)
    requires f == EMPTY_LOCAL || f == EMPTY_MYSQL
    requires Legal(Init(f), es) && Enabled(Exec(Init(f), es), Submit(m, true))
    requires NoForks(Exec(Init(f), es).submitted)
    ensures var g := Exec(Init(f), es);
            var bh := g.live[m].bh;
            && (NoForks(Apply(g, Submit(m, true)).submitted) <==> OmittedByNone(g.submitted, bh))
            && (Unseen(g.submitted, bh) ==>
                  (NoForks(Apply(g, Submit(m, true)).submitted) <==> NoneBuiltOn(g.submitted, m, bh.height)))
  {
    var g := Exec(Init(f), es);
    RunKeepsInv(Init(f), es);
    SubmitKeepsOrder(g, m);
    LastBlockIsForkFreeIff(g.submitted, Submission(g.live[m].bh, g.live[m].baseHeight));
  }

  /** And the local store keeps it free of time-offset mining as well. */
  lemma AcceptIsFaultFreeIff(es: seq<Event>, m: Address)
    requires Legal(Init(EMPTY_LOCAL), es)
    requires Enabled(Exec(Init(EMPTY_LOCAL), es), Submit(m, true))
    requires NoFaults(Exec(Init(EMPTY_LOCAL), es).submitted)
    ensures var g := Exec(Init(EMPTY_LOCAL), es);
            NoFaults(Apply(g, Submit(m, true)).submitted) <==> OmittedByNone(g.submitted, g.live[m].bh)
  {
    var g := Exec(Init(EMPTY_LOCAL), es);
    AcceptIsForkFreeIff(EMPTY_LOCAL, es, m);
    RunKeepsInv(Init(EMPTY_LOCAL), es);
    RunKeepsParentsInv(Init(EMPTY_LOCAL), es);
    SubmitKeepsParentsInv(g, m);
    DistinctParentsAreNoOffsets(Apply(g, Submit(m, true)).submitted);
  }

  ghost predicate Rising(subs: seq<Submission>) {
    && (forall i | 0 <= i < |subs| :: subs[i].baseHeight < subs[i].bh.height)
    && (forall i, j | 0 <= i < j < |subs| && SameMiner(subs[i], subs[j]) ::
          subs[i].bh.height < subs[j].bh.height)
  }

  lemma RisingIsForkFree(subs: seq<Submission>)
    requires Rising(subs) && Ordered(subs)
    ensures NoForks(subs)
  {
    forall i, j | 0 <= i < |subs| && 0 <= j < |subs| && i != j
      ensures !DoubleFork(subs[i], subs[j]) && !ParentGrinding(subs[i], subs[j])
    {
      var first, second := if i < j then i else j, if i < j then j else i;
      assert SameMiner(subs[i], subs[j]) <==> SameMiner(subs[first], subs[second]);
    }
  }

  /** A miner whose accepted heights rise, each above its base, commits none of the faults in either
      order; over the row store no double fork and no parent grinding. */
  lemma RisingHeightsAreFaultFree(f: Filter, es: seq<Event>)
    requires f == EMPTY_LOCAL || f == EMPTY_MYSQL
    requires Legal(Init(f), es) && Rising(Exec(Init(f), es).submitted)
    ensures NoForks(Exec(Init(f), es).submitted)
    ensures f == EMPTY_LOCAL ==> NoFaults(Exec(Init(f), es).submitted)
  {
    var g := Exec(Init(f), es);
    RunKeepsInv(Init(f), es);
    RisingIsForkFree(g.submitted);
    if f == EMPTY_LOCAL {
      RunKeepsParentsInv(Init(f), es);
      DistinctParentsAreNoOffsets(g.submitted);
    }
  }

  /** Without rising heights it can happen with either store: for every block `b` and every own block
      `a` at the base height of `b` that `b` leaves out, publishing `b` and then `a` passes the gate. */
  lemma LateBlockGrinds(f: Filter, a: Header, aBase: Epoch, b: Header)
    requires f == EMPTY_LOCAL || f == EMPTY_MYSQL
    requires a.miner == b.miner && a.ticket.Some? && b.ticket.Some?
    requires aBase < a.height < b.height && a.parents != b.parents && CidOf(a) !in b.parents
    ensures var es := AcceptedBroadcast(b, a.height, 0, 0) + AcceptedBroadcast(a, aBase, 0, 0);
            && Legal(Init(f), es)
            && var subs := Exec(Init(f), es).submitted;
            && subs == [Submission(b, a.height), Submission(a, aBase)]
            && ParentGrinding(subs[1], subs[0])
  {
    var g := Init(f);
    BroadcastIsAccepted(g, b, a.height, 0, 0);
    var g' := Exec(g, AcceptedBroadcast(b, a.height, 0, 0));
    BroadcastIsAccepted(g', a, aBase, 0, 0);
    ExecSplit(g, AcceptedBroadcast(b, a.height, 0, 0), AcceptedBroadcast(a, aBase, 0, 0));
  }
}
