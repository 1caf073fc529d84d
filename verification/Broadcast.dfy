/** `broadCastBlock` over either slash filter object, as a run of the publish gate. */
module Broadcast {
  import opened Chain
  import opened Faults
  import opened PublishGate
  import opened LocalFilter
  import opened MysqlFilter

  /** The interface value the miner holds. */
  datatype SlashFilterAPI = UseLocal(local: LocalSlashFilter) | UseMysql(mysql: MysqlSlashFilter) {

    function Repr(): set<object> {
      match this
      case UseLocal(f) => {f}
      case UseMysql(f) => {f}
    }

    function View(): Filter
      reads Repr()
    {
      match this
      case UseLocal(f) => Filter.Local(f.View())
      case UseMysql(f) => Filter.Mysql(f.rows)
    }

    /** `None` is an error. */
    method HasBlock(bh: Header, bad: set<Access>) returns (found: Option<bool>)
      ensures found == if ByEpoch in bad then None else Some(PublishGate.Has(View(), bh))
    {
      match this
      case UseLocal(f) => found := f.HasBlock(bh, bad);
      case UseMysql(f) => found := f.HasBlock(bh, bad);
    }

    method MinedBlock(bh: Header, parentEpoch: Epoch, bad: set<Access>) returns (v: Verdict, pick: Epoch)
      ensures bad == {} ==> PublishGate.ValidPick(View(), bh, pick)
      ensures v == PublishGate.MinedWith(View(), bh, parentEpoch, pick, bad)
    {
      pick := 0;
      match this
      case UseLocal(f) => v := f.MinedBlock(bh, parentEpoch, bad);
      case UseMysql(f) => v, pick := f.MinedBlock(bh, parentEpoch, bad);
    }

    /** Its error is only logged by the callers. */
    method PutBlock(
      bh: Header, parentEpoch: Epoch, at: Option<int>, state: StateMining, bad: set<Access>) returns (ok: bool)
      modifies Repr()
      ensures View() == PublishGate.PutWith(old(View()), bh, parentEpoch, at, state, bad)
    {
      match this
      case UseLocal(f) => ok := f.PutBlock(bh, parentEpoch, state, bad);
      case UseMysql(f) => ok := f.PutBlock(bh, parentEpoch, at, state, bad);
    }
  }

  /** What the stores and the nodes answer: the accesses that fail in each call of the filter, the own
      node, then the other nodes in turn. */
  datatype Answers = Answers(
    hasBad: set<Access>, minedBad: set<Access>, putBad: set<Access>, ownNode: bool, otherNodes: seq<bool>)

  predicate SomeNodeAccepts(answers: Answers) {
    answers.ownNode || true in answers.otherNodes
  }

  /** How far a broadcast gets when nothing else runs. */
  datatype Course = Stopped | Refused | Unsent | Sent

  function CourseOf(f: Filter, bh: Header, baseHeight: Epoch, answers: Answers, pick: Epoch): Course {
    if ByEpoch in answers.hasBad || PublishGate.Has(f, bh) then Stopped
    else if answers.minedBad != {} || PublishGate.Mined(f, bh, baseHeight, pick) != Clear then Refused
    else if SomeNodeAccepts(answers) then Sent
    else Unsent
  }

  /** What it leaves in the filter: even a refused or unsent block is put, in state `Error`. */
  function Outcome(
    f: Filter, bh: Header, baseHeight: Epoch, nullRounds: Epoch, course: Course, putBad: set<Access>): Filter
  {
    match course
    case Stopped => f
    case Refused => PublishGate.PutWith(f, bh, baseHeight, None, Error, putBad)
    case Unsent => PublishGate.PutWith(f, bh, baseHeight + nullRounds, None, Error, putBad)
    case Sent => PublishGate.PutWith(f, bh, baseHeight + nullRounds, None, Success, putBad)
  }

  /** The gate steps the call stands for, after its launch. */
  function Steps(m: Address, answers: Answers, pick: Epoch, course: Course): seq<Event> {
    var failed := ByEpoch in answers.putBad;
    match course
    case Stopped => [CheckHas(m, ByEpoch in answers.hasBad)]
    case Refused => [CheckHas(m, false), CheckMined(m, answers.minedBad != {}, pick), Record(m, failed)]
    case Unsent => [CheckHas(m, false), CheckMined(m, false, pick), Submit(m, false), Record(m, failed)]
    case Sent => [CheckHas(m, false), CheckMined(m, false, pick), Submit(m, true), Record(m, false)]
  }

  /** `g` runs `es`, which ends the broadcast of `m` with this filter and these submissions. */
  ghost predicate Ends(g: Gate, es: seq<Event>, m: Address, f: Filter, subs: seq<Submission>) {
    && Legal(g, es)
    && Exec(g, es).filter == f
    && Exec(g, es).live == g.live - {m}
    && Exec(g, es).submitted == g.submitted + subs
  }

  lemma RecordEnds(g: Gate, m: Address, failed: bool)
    requires Enabled(g, Record(m, failed))
    ensures var job := g.live[m];
            Ends(g, [Record(m, failed)], m,
                 if failed then g.filter
                 else PublishGate.Put(g.filter, job.bh, job.stage.parentEpoch, None, job.stage.state), [])
  {
    assert Legal(Apply(g, Record(m, failed)), []);
    ExecOne(g, Record(m, failed), []);
    assert [Record(m, failed)] + [] == [Record(m, failed)];
  }

  lemma SubmitEnds(g: Gate, m: Address, accepted: bool, failed: bool)
    requires Enabled(g, Submit(m, accepted)) && !(accepted && failed)
    ensures var job := g.live[m];
            Ends(g, [Submit(m, accepted), Record(m, failed)], m,
                 if failed then g.filter
                 else PublishGate.Put(g.filter, job.bh, job.baseHeight + job.nullRounds, None,
                                      if accepted then Success else Error),
                 if accepted then [Submission(job.bh, job.baseHeight)] else [])
  {
    var g' := Apply(g, Submit(m, accepted));
    RecordEnds(g', m, failed);
    ExecOne(g, Submit(m, accepted), [Record(m, failed)]);
    assert [Submit(m, accepted)] + [Record(m, failed)] == [Submit(m, accepted), Record(m, failed)];
    assert g'.live - {m} == g.live - {m};
  }

  /** A failed put of an `Error` leaves either store as it was, as a failed step does. */
  lemma ErrorPutWith(f: Filter, bh: Header, parentEpoch: Epoch, bad: set<Access>)
    ensures PublishGate.PutWith(f, bh, parentEpoch, None, Error, bad)
            == if ByEpoch in bad then f else PublishGate.Put(f, bh, parentEpoch, None, Error)
  {
  }

  lemma CheckedEnds(g: Gate, m: Address, answers: Answers, pick: Epoch, course: Course)
    requires Enabled(g, CheckMined(m, answers.minedBad != {}, pick)) && !course.Stopped?
    requires var bad := answers.minedBad != {}
                        || PublishGate.Mined(g.filter, g.live[m].bh, g.live[m].baseHeight, pick) != Clear;
             course == if bad then Refused else if SomeNodeAccepts(answers) then Sent else Unsent
    requires course == Sent ==> answers.putBad == {}
    ensures var job := g.live[m];
            Ends(g, Steps(m, answers, pick, course)[1..], m,
                 Outcome(g.filter, job.bh, job.baseHeight, job.nullRounds, course, answers.putBad),
                 if course == Sent then [Submission(job.bh, job.baseHeight)] else [])
  {
    var job, failed := g.live[m], ByEpoch in answers.putBad;
    var e := CheckMined(m, answers.minedBad != {}, pick);
    var g' := Apply(g, e);
    assert g'.live - {m} == g.live - {m};
    if course == Refused {
      ErrorPutWith(g.filter, job.bh, job.baseHeight, answers.putBad);
      RecordEnds(g', m, failed);
      ExecOne(g, e, [Record(m, failed)]);
      assert [e] + [Record(m, failed)] == Steps(m, answers, pick, course)[1..];
    } else {
      ErrorPutWith(g.filter, job.bh, job.baseHeight + job.nullRounds, answers.putBad);
      var rest := [Submit(m, course == Sent), Record(m, failed)];
      SubmitEnds(g', m, course == Sent, failed);
      ExecOne(g, e, rest);
      assert [e] + rest == Steps(m, answers, pick, course)[1..];
    }
  }

  /** In every state of the gate without a broadcast of this miner, the call is a run of the gate:
      it leaves the filter in `Outcome` and submits the block exactly when its course is `Sent`. */
  lemma BroadcastIsRun(g: Gate, bh: Header, baseHeight: Epoch, nullRounds: Epoch, answers: Answers, pick: Epoch)
    requires bh.ticket.Some? && bh.miner !in g.live
    requires answers.minedBad == {} ==> PublishGate.ValidPick(g.filter, bh, pick)
    requires CourseOf(g.filter, bh, baseHeight, answers, pick) == Sent ==> answers.putBad == {}
    ensures var course := CourseOf(g.filter, bh, baseHeight, answers, pick);
            Ends(g, [Launch(bh, baseHeight, nullRounds)] + Steps(bh.miner, answers, pick, course), bh.miner,
                 Outcome(g.filter, bh, baseHeight, nullRounds, course, answers.putBad),
                 if course == Sent then [Submission(bh, baseHeight)] else [])
  {
    var m := bh.miner;
    var course := CourseOf(g.filter, bh, baseHeight, answers, pick);
    var steps := Steps(m, answers, pick, course);
    var launched := Apply(g, Launch(bh, baseHeight, nullRounds));
    var has := CheckHas(m, ByEpoch in answers.hasBad);
    var checked := Apply(launched, has);
    assert launched.live - {m} == checked.live - {m} == g.live - {m};
    if course == Stopped {
      assert Legal(checked, []);
    } else {
      CheckedEnds(checked, m, answers, pick, course);
    }
    assert [has] + steps[1..] == steps;
    ExecOne(launched, has, steps[1..]);
    ExecOne(g, Launch(bh, baseHeight, nullRounds), steps);
  }

  /** What a broadcast that got past HasBlock leaves in the table: the block's CID and parents in its row,
      whether it was published, and the epoch of its base, to which the null rounds are added unless the
      block was refused. */
  lemma RowOfBroadcast(
    rows: Rows, bh: Header, baseHeight: Epoch, nullRounds: Epoch, answers: Answers, pick: Epoch)
    requires bh.ticket.Some? && ByEpoch !in answers.putBad
    requires CourseOf(Filter.Mysql(rows), bh, baseHeight, answers, pick) != Stopped
    ensures var course := CourseOf(Filter.Mysql(rows), bh, baseHeight, answers, pick);
            var f := Outcome(Filter.Mysql(rows), bh, baseHeight, nullRounds, course, answers.putBad);
            && f.Mysql? && (bh.miner, bh.height) in f.rows
            && var row := f.rows[(bh.miner, bh.height)];
            && row.cid == Some(CidOf(bh))
            && (bh.parents != [] ==> row.parentKey == bh.parents)
            && row.state == (if course == Sent then Success else Error)
            && row.parentEpoch == (if course == Refused then baseHeight else baseHeight + nullRounds)
            && (forall k | k != (bh.miner, bh.height) ::
                  (k in f.rows <==> k in rows) && (k in rows ==> f.rows[k] == rows[k]))
  {
  }

  /** And in the local store: its CID in both indexes if it was published, and nothing otherwise. */
  lemma IndexesOfBroadcast(
    store: LocalStore, bh: Header, baseHeight: Epoch, nullRounds: Epoch, answers: Answers, pick: Epoch)
    requires answers.putBad == {}
    ensures var course := CourseOf(Filter.Local(store), bh, baseHeight, answers, pick);
            Outcome(Filter.Local(store), bh, baseHeight, nullRounds, course, answers.putBad)
            == Filter.Local(if course != Sent then store else
                            LocalStore(store.byEpoch[(bh.miner, bh.height) := CidOf(bh)],
                                       store.byParents[(bh.miner, bh.parents) := CidOf(bh)]))
  {
  }

  /** Submitting tries the own node and then the others until one accepts. */
  method SubmitBlock(answers: Answers) returns (accepted: bool)
    ensures accepted <==> answers.ownNode || exists i | 0 <= i < |answers.otherNodes| :: answers.otherNodes[i]
  {
    if answers.ownNode {
      return true;
    }
    var bSubmitted := false;
    for i := 0 to |answers.otherNodes|
      invariant !bSubmitted
      invariant true !in answers.otherNodes[..i]
    {
      if answers.otherNodes[i] {
        bSubmitted := true;
        break;
      }
    }
    accepted := bSubmitted;
  }

  /** One call against a filter object, proved against its course; `BroadcastIsRun` makes it a run.
      The errors of the puts are only logged. */
  method BroadCastBlock(sf: SlashFilterAPI, bh: Header, baseHeight: Epoch, nullRounds: Epoch, answers: Answers)
    returns (course: Course, pick: Epoch)
    modifies sf.Repr()
    ensures course != Stopped && answers.minedBad == {} ==> PublishGate.ValidPick(old(sf.View()), bh, pick)
    ensures course == CourseOf(old(sf.View()), bh, baseHeight, answers, pick)
    ensures sf.View() == Outcome(old(sf.View()), bh, baseHeight, nullRounds, course, answers.putBad)
    ensures var accepts := answers.ownNode || exists i | 0 <= i < |answers.otherNodes| :: answers.otherNodes[i];
            (course == Sent ==> accepts) && (course == Unsent ==> !accepts)
  {
    var found := sf.HasBlock(bh, answers.hasBad);
    if found != Some(false) {
      return Stopped, 0;
    }
    var v;
    v, pick := sf.MinedBlock(bh, baseHeight, answers.minedBad);
    if v != Clear {
      var _ := sf.PutBlock(bh, baseHeight, None, Error, answers.putBad);
      return Refused, pick;
    }
    var accepted := SubmitBlock(answers);
    if !accepted {
      var _ := sf.PutBlock(bh, baseHeight + nullRounds, None, Error, answers.putBad);
      return Unsent, pick;
    }
    var _ := sf.PutBlock(bh, baseHeight + nullRounds, None, Success, answers.putBad);
    course := Sent;
  }
}
