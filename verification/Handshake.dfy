/** The Start/Stop/mine handshake over the two channels `stop` and `stopping`. The loop writes both
    fields without the lock, so each of its assignments is a step of its own. */
module Handshake {
  import opened Chain

  type Channel = nat

  /** Where one mining goroutine stands; `Running` covers whole mining passes. */
  datatype Loop =
    | Running
    | SawStop
    | Took(stopping: Option<Channel>)
    | ClearedStop(stopping: Option<Channel>)
    | ClearedBoth(stopping: Option<Channel>)
    | Quit

  /** The caller of Start and Stop. `Abandoned`: its Stop ended with the context's error. */
  datatype Caller =
    | Idle
    | Starting
    | Started
    | Stopping(stopping: Channel)
    | Waiting(stopping: Channel)
    | Abandoned(stopping: Channel)

  datatype State = State(
    stop: Option<Channel>,
    stopping: Option<Channel>,
    closed: set<Channel>,
    made: nat,
    loops: seq<Loop>,
    caller: Caller,
    refused: bool,
    panicked: bool)

  const INIT := State(None, None, {}, 0, [], Idle, false, false)

  /** `ListFails`: Start returns the error of listing the miners. `Forget`: the caller takes a Stop that
      ended with an error for a finished one. */
  datatype Event =
    | CheckStart
    | LaunchLoop
    | ListFails
    | MakeStopping
    | CloseStop
    | StopReturnsNil
    | StopExpires
    | Forget
    | LoopStep(i: nat)

  predicate Enabled(s: State, e: Event) {
    !s.panicked &&
    match e
    case CheckStart => s.caller == Idle
    case LaunchLoop => s.caller == Starting
    case ListFails => s.caller == Starting
    case MakeStopping => s.caller == Started
    case CloseStop => s.caller.Stopping?
    case StopReturnsNil => s.caller.Waiting? && s.caller.stopping in s.closed
    case StopExpires => s.caller.Waiting?
    case Forget => s.caller.Abandoned?
    case LoopStep(i) => i < |s.loops| && s.loops[i] != Quit
  }

  function Close(s: State, c: Option<Channel>): State {
    if c.None? || c.value in s.closed then s.(panicked := true) else s.(closed := s.closed + {c.value})
  }

  function Move(s: State, i: nat, l: Loop): State
    requires i < |s.loops|
  {
    s.(loops := s.loops[i := l])
  }

  function StepLoop(s: State, i: nat): State
    requires i < |s.loops|
  {
    match s.loops[i]
    case Running => if s.stop.Some? && s.stop.value in s.closed then Move(s, i, SawStop) else s
    case SawStop => Move(s, i, Took(s.stopping))
    case Took(c) => Move(s.(stop := None), i, ClearedStop(c))
    case ClearedStop(c) => Move(s.(stopping := None), i, ClearedBoth(c))
    case ClearedBoth(c) => Close(Move(s, i, Quit), c)
    case Quit => s
  }

  function Apply(s: State, e: Event): State
    requires Enabled(s, e)
  {
    match e
    case CheckStart => if s.stop.Some? then s.(refused := true) else s.(caller := Starting)
    case LaunchLoop =>
      s.(stop := Some(s.made), made := s.made + 1, loops := s.loops + [Running], caller := Started)
    case ListFails => s.(caller := Idle)
    case MakeStopping =>
      s.(stopping := Some(s.made), made := s.made + 1, caller := Stopping(s.made))
    case CloseStop => Close(s.(caller := Waiting(s.caller.stopping)), s.stop)
    case StopReturnsNil => s.(caller := Idle)
    case StopExpires => s.(caller := Abandoned(s.caller.stopping))
    case Forget => s.(caller := Idle)
    case LoopStep(i) => StepLoop(s, i)
  }

  predicate Legal(s: State, es: seq<Event>)
    decreases |es|
  {
    es == [] || (Enabled(s, es[0]) && Legal(Apply(s, es[0]), es[1..]))
  }

  function Exec(s: State, es: seq<Event>): State
    requires Legal(s, es)
    decreases |es|
  {
    if es == [] then s else Exec(Apply(s, es[0]), es[1..])
  }

  function Last(s: State): Loop
    requires s.loops != []
  {
    s.loops[|s.loops| - 1]
  }

  predicate StopClosed(s: State) {
    s.stop.Some? && s.stop.value in s.closed
  }

  /** The channel on which the caller's Stop waits, or waited when it was abandoned. */
  function CallerChannel(s: State): Option<Channel> {
    match s.caller
    case Stopping(c) => Some(c)
    case Waiting(c) => Some(c)
    case Abandoned(c) => Some(c)
    case _ => None
  }

  /** A loop that has cleared both fields only closes the channel it took. */
  predicate Done(l: Loop) {
    l.Quit? || l.ClearedBoth?
  }

  predicate AllDone(s: State) {
    forall i | 0 <= i < |s.loops| :: Done(s.loops[i])
  }

  /** Every loop but the last one is done. */
  predicate OthersDone(s: State) {
    s.loops != [] && forall i | 0 <= i < |s.loops| - 1 :: Done(s.loops[i])
  }

  /** A loop that is done but has not quit holds an open channel that nobody else will close. */
  predicate HoldsPrivately(s: State, i: nat)
    requires i < |s.loops|
  {
    s.loops[i].ClearedBoth? ==>
      && s.loops[i].stopping.Some?
      && var d := s.loops[i].stopping;
      && d.value < s.made && d.value !in s.closed
      && s.stop != d && s.stopping != d
      && (i < |s.loops| - 1 ==> CallerChannel(s) != d)
  }

  predicate Private(s: State) {
    && (forall i | 0 <= i < |s.loops| :: HoldsPrivately(s, i))
    && (forall i, j | 0 <= i < j < |s.loops| && s.loops[i].ClearedBoth? && s.loops[j].ClearedBoth? ::
          s.loops[i].stopping != s.loops[j].stopping)
  }

  /** The last loop is on its way out; `c` is the channel on which Stop waits. */
  predicate Leaving(s: State, c: Channel) {
    && OthersDone(s)
    && c < s.made
    && match Last(s)
       case Running => StopClosed(s) && s.stopping == Some(c) && c !in s.closed
       case SawStop => StopClosed(s) && s.stopping == Some(c) && c !in s.closed
       case Took(d) => StopClosed(s) && s.stopping == Some(c) && c !in s.closed && d == Some(c)
       case ClearedStop(d) => s.stop == None && s.stopping == Some(c) && c !in s.closed && d == Some(c)
       case ClearedBoth(d) => s.stop == None && s.stopping == None && c !in s.closed && d == Some(c)
       case Quit => s.stop == None && s.stopping == None && c in s.closed
  }

  predicate CallerOk(s: State) {
    match s.caller
    case Idle => AllDone(s) && s.stop == None && s.stopping == None
    case Starting => AllDone(s) && s.stop == None && s.stopping == None
    case Started =>
      OthersDone(s) && Last(s) == Running && s.stop.Some? && !StopClosed(s) && s.stopping == None
    case Stopping(c) =>
      && OthersDone(s) && Last(s) == Running && s.stop.Some? && !StopClosed(s)
      && s.stopping == Some(c) && c < s.made && c !in s.closed && s.stop != Some(c)
    case Waiting(c) => Leaving(s, c)
    case Abandoned(c) => Leaving(s, c)
  }

  predicate Inv(s: State) {
    && !s.refused
    && !s.panicked
    && (forall c | c in s.closed :: c < s.made)
    && (s.stop.Some? ==> s.stop.value < s.made)
    && Private(s)
    && CallerOk(s)
  }

  /** The loop that an abandoned Stop left behind is done. A caller can tell that it has quit by the
      channel of that Stop being closed. */
  predicate SafeToForget(s: State) {
    s.caller.Abandoned? && s.loops != [] && Done(Last(s))
  }

  /** An older loop closes its own channel. */
  lemma OldLoopQuits(s: State, i: nat)
    requires Inv(s) && Enabled(s, LoopStep(i)) && i < |s.loops| - 1
    ensures Inv(Apply(s, LoopStep(i)))
  {
    var s' := Apply(s, LoopStep(i));
    assert HoldsPrivately(s, i);
    forall j | 0 <= j < |s'.loops|
      ensures HoldsPrivately(s', j)
    {
      assert HoldsPrivately(s, j);
    }
    assert s.loops != [] && Last(s') == Last(s);
  }

  /** The last loop takes a step on its way out without closing anything yet. */
  lemma LastLoopLeaves(s: State)
    requires Inv(s) && s.loops != [] && !Done(Last(s))
    ensures Inv(Apply(s, LoopStep(|s.loops| - 1)))
  {
    var i := |s.loops| - 1;
    var s' := Apply(s, LoopStep(i));
    forall j | 0 <= j < |s'.loops|
      ensures HoldsPrivately(s', j)
      ensures j < i && s'.loops[j].ClearedBoth? && s'.loops[i].ClearedBoth? ==>
                s'.loops[j].stopping != s'.loops[i].stopping
    {
      assert HoldsPrivately(s, j);
    }
  }

  /** The last loop closes the channel it took, on which Stop may be waiting. */
  lemma LastLoopQuits(s: State)
    requires Inv(s) && s.loops != [] && Last(s).ClearedBoth?
    ensures Inv(Apply(s, LoopStep(|s.loops| - 1)))
  {
    var i := |s.loops| - 1;
    var s' := Apply(s, LoopStep(i));
    assert HoldsPrivately(s, i);
    forall j | 0 <= j < |s'.loops|
      ensures HoldsPrivately(s', j)
    {
      assert HoldsPrivately(s, j);
    }
  }

  lemma CallerMoves(s: State, e: Event)
    requires Inv(s) && Enabled(s, e) && !e.LoopStep? && (e == Forget ==> SafeToForget(s))
    ensures Inv(Apply(s, e))
  {
    var s' := Apply(s, e);
    forall j | 0 <= j < |s'.loops|
      ensures HoldsPrivately(s', j)
    {
      if j < |s.loops| {
        assert HoldsPrivately(s, j);
      }
    }
  }

  lemma StepKeepsInv(s: State, e: Event)
    requires Inv(s) && Enabled(s, e) && (e == Forget ==> SafeToForget(s))
    ensures Inv(Apply(s, e))
  {
    if e.LoopStep? && e.i < |s.loops| - 1 {
      OldLoopQuits(s, e.i);
    } else if e.LoopStep? && Done(Last(s)) {
      LastLoopQuits(s);
    } else if e.LoopStep? {
      LastLoopLeaves(s);
    } else {
      CallerMoves(s, e);
    }
  }

  /** The caller's discipline: Start only when idle, Stop once per Start, and after a Stop that did not
      return nil no Start before the loop it left behind is done. */
  predicate Disciplined(s: State, es: seq<Event>)
    requires Legal(s, es)
    decreases |es|
  {
    es != [] ==> (es[0] == Forget ==> SafeToForget(s)) && Disciplined(Apply(s, es[0]), es[1..])
  }

  lemma {:induction false} RunKeepsInv(s: State, es: seq<Event>)
    requires Inv(s) && Legal(s, es) && Disciplined(s, es)
    ensures Inv(Exec(s, es))
    decreases |es|
  {
    if es != [] {
      StepKeepsInv(s, es[0]);
      RunKeepsInv(Apply(s, es[0]), es[1..]);
    }
  }

  /** Under that discipline, in every interleaving: nothing panics, no Start is refused, at most one
      loop is not done, and once Stop has returned nil every loop is. */
  lemma HandshakeIsSafe(es: seq<Event>)
    requires Legal(INIT, es) && Disciplined(INIT, es)
    ensures var end := Exec(INIT, es);
            && !end.panicked && !end.refused
            && (forall i, j | 0 <= i < j < |end.loops| :: Done(end.loops[i]) || Done(end.loops[j]))
            && (end.caller == Idle ==> AllDone(end) && end.stop == None)
  {
    RunKeepsInv(INIT, es);
  }

  lemma ExecOne(s: State, e: Event, es: seq<Event>)
    requires Enabled(s, e)
    ensures Legal(s, [e] + es) <==> Legal(Apply(s, e), es)
    ensures Legal(s, [e] + es) ==> Exec(s, [e] + es) == Exec(Apply(s, e), es)
  {
    assert ([e] + es)[1..] == es;
  }

  /** How many steps a loop told to stop still has to take. */
  function StepsLeft(l: Loop): nat {
    match l
    case Running => 5
    case SawStop => 4
    case Took(_) => 3
    case ClearedStop(_) => 2
    case ClearedBoth(_) => 1
    case Quit => 0
  }

  function Finish(i: nat, n: nat): seq<Event> {
    if n == 0 then [StopReturnsNil] else [LoopStep(i)] + Finish(i, n - 1)
  }

  /** A waiting Stop is never stuck: once the loop takes its remaining steps, Stop returns nil
      and the next Start is accepted. */
  lemma {:induction false} StopCanReturn(s: State)
    requires Inv(s) && s.caller.Waiting?
    ensures var es := Finish(|s.loops| - 1, StepsLeft(Last(s)));
            Legal(s, es) && Exec(s, es).caller == Idle && Exec(s, es).stop == None
    decreases StepsLeft(Last(s))
  {
    var i := |s.loops| - 1;
    var n := StepsLeft(Last(s));
    if n == 0 {
      assert Legal(Apply(s, StopReturnsNil), []);
      ExecOne(s, StopReturnsNil, []);
      assert [StopReturnsNil] + [] == [StopReturnsNil];
    } else {
      StepKeepsInv(s, LoopStep(i));
      assert Apply(s, LoopStep(i)).caller == s.caller;
      StopCanReturn(Apply(s, LoopStep(i)));
      ExecOne(s, LoopStep(i), Finish(i, n - 1));
    }
  }

  // ---- Any caller ----

  /** The loop can still mine, or has yet to clear `stop`. */
  predicate HasStop(l: Loop) {
    l.Running? || l.SawStop? || l.Took?
  }

  /** At most one loop can, and only while `stop` is set; a Start past its check finds none. */
  predicate OneHasStop(s: State) {
    && (forall i, j | 0 <= i < j < |s.loops| :: !HasStop(s.loops[i]) || !HasStop(s.loops[j]))
    && (s.stop.None? || s.caller.Starting? ==> forall i | 0 <= i < |s.loops| :: !HasStop(s.loops[i]))
    && (s.caller.Starting? ==> s.stop.None?)
  }

  lemma StepKeepsOneHasStop(s: State, e: Event)
    requires OneHasStop(s) && Enabled(s, e)
    ensures OneHasStop(Apply(s, e))
  {
  }

  lemma {:induction false} RunKeepsOneHasStop(s: State, es: seq<Event>)
    requires OneHasStop(s) && Legal(s, es)
    ensures OneHasStop(Exec(s, es))
    decreases |es|
  {
    if es != [] {
      StepKeepsOneHasStop(s, es[0]);
      RunKeepsOneHasStop(Apply(s, es[0]), es[1..]);
    }
  }

  /** Whatever the callers do, disciplined or not: two loops never mine at once, because a Start that finds
      `stop` set is refused and starts none. */
  lemma NeverTwoLoopsMine(es: seq<Event>)
    requires Legal(INIT, es)
    ensures var end := Exec(INIT, es);
            && (forall i, j | 0 <= i < j < |end.loops| :: !HasStop(end.loops[i]) || !HasStop(end.loops[j]))
            && (Enabled(end, CheckStart) && end.stop.Some? ==>
                  Apply(end, CheckStart) == end.(refused := true))
  {
    RunKeepsOneHasStop(INIT, es);
  }

  // ---- Forgetting an expired Stop ----

  /** Some disciplined run leads from `s` to `t`. */
  ghost predicate Reaches(s: State, t: State) {
    exists es :: Legal(s, es) && Disciplined(s, es) && Exec(s, es) == t
  }

  lemma ReachesItself(s: State)
    ensures Reaches(s, s)
  {
    assert Legal(s, []) && Disciplined(s, []) && Exec(s, []) == s;
  }

  lemma ReachesBefore(s: State, e: Event, t: State)
    requires Enabled(s, e) && e != Forget && Reaches(Apply(s, e), t)
    ensures Reaches(s, t)
  {
    var s' := Apply(s, e);
    var es :| Legal(s', es) && Disciplined(s', es) && Exec(s', es) == t;
    ExecOne(s, e, es);
    assert ([e] + es)[0] == e && ([e] + es)[1..] == es;
    assert Disciplined(s, [e] + es);
  }

  /** Some disciplined continuation closes a nil or closed channel. */
  ghost predicate CanPanic(s: State) {
    exists t :: Reaches(s, t) && t.panicked
  }

  /** Some disciplined continuation panics, or has a Start refused. */
  ghost predicate CanGoWrong(s: State) {
    exists t :: Reaches(s, t) && (t.panicked || t.refused)
  }

  lemma PanicLater(s: State, e: Event)
    requires Enabled(s, e) && e != Forget && CanPanic(Apply(s, e))
    ensures CanPanic(s)
  {
    var t :| Reaches(Apply(s, e), t) && t.panicked;
    ReachesBefore(s, e, t);
  }

  /** A loop that took a nil channel closes it. */
  lemma {:induction false} TookNil(s: State, i: nat)
    requires i < |s.loops| && s.loops[i] in {Took(None), ClearedStop(None), ClearedBoth(None)}
    ensures CanPanic(s)
    decreases StepsLeft(s.loops[i])
  {
    if s.panicked {
      ReachesItself(s);
    } else {
      var s' := Apply(s, LoopStep(i));
      if s.loops[i] == ClearedBoth(None) {
        ReachesItself(s');
      } else {
        TookNil(s', i);
      }
      PanicLater(s, LoopStep(i));
    }
  }

  /** A loop that is told to stop while the channel to report on is missing takes nil. */
  lemma {:induction false} StoppedWithoutChannel(s: State, i: nat)
    requires !s.panicked && i < |s.loops| && s.loops[i] in {Running, SawStop}
    requires StopClosed(s) && s.stopping == None
    ensures CanPanic(s)
    decreases StepsLeft(s.loops[i])
  {
    if s.loops[i] == Running {
      StoppedWithoutChannel(Apply(s, LoopStep(i)), i);
    } else {
      TookNil(Apply(s, LoopStep(i)), i);
    }
    PanicLater(s, LoopStep(i));
  }

  /** A loop about to clear `stopping` can clear it between the two halves of the next Stop, and then the
      loop of the next Start closes nil. */
  lemma NewLoopTakesNil(s: State, i: nat)
    requires !s.panicked && s.caller == Idle && s.stop == None && (forall c | c in s.closed :: c < s.made)
    requires i < |s.loops| && s.loops[i].ClearedStop?
    ensures CanPanic(s)
  {
    var n := |s.loops|;
    var s1 := Apply(s, CheckStart);
    var s2 := Apply(s1, LaunchLoop);
    var s3 := Apply(s2, MakeStopping);
    var s4 := Apply(s3, LoopStep(i));
    var s5 := Apply(s4, CloseStop);
    StoppedWithoutChannel(s5, n);
    PanicLater(s4, CloseStop);
    PanicLater(s3, LoopStep(i));
    PanicLater(s2, MakeStopping);
    PanicLater(s1, LaunchLoop);
    PanicLater(s, CheckStart);
  }

  /** So does a loop that has still to get there. */
  lemma {:induction false} LoopLeftBehind(s: State, i: nat)
    requires !s.panicked && s.caller == Idle && (forall c | c in s.closed :: c < s.made)
    requires i < |s.loops| && !Done(s.loops[i])
    requires s.loops[i] in {Running, SawStop} ==> StopClosed(s)
    requires s.loops[i].ClearedStop? ==> s.stop == None
    ensures CanPanic(s)
    decreases StepsLeft(s.loops[i])
  {
    if s.loops[i].ClearedStop? {
      NewLoopTakesNil(s, i);
    } else {
      LoopLeftBehind(Apply(s, LoopStep(i)), i);
      PanicLater(s, LoopStep(i));
    }
  }

  /** In every state that disciplined callers reach: after a Stop that ended with an error what follows
      can panic, or go wrong at all, if and only if the loop that Stop left behind is not done. */
  lemma ForgettingIsSafeIff(s: State)
    requires Inv(s) && s.caller.Abandoned?
    ensures CanPanic(Apply(s, Forget)) <==> !SafeToForget(s)
    ensures CanGoWrong(Apply(s, Forget)) <==> !SafeToForget(s)
  {
    var s' := Apply(s, Forget);
    if SafeToForget(s) {
      StepKeepsInv(s, Forget);
      forall t | Reaches(s', t)
        ensures !t.panicked && !t.refused
      {
        var es :| Legal(s', es) && Disciplined(s', es) && Exec(s', es) == t;
        RunKeepsInv(s', es);
      }
    } else {
      LoopLeftBehind(s', |s.loops| - 1);
    }
  }

  /** The channel of the abandoned Stop tells: once it is closed a Start is safe. */
  lemma ClosedChannelIsSafe(s: State)
    requires Inv(s) && s.caller.Abandoned? && s.caller.stopping in s.closed
    ensures !CanGoWrong(Apply(s, Forget))
  {
    ForgettingIsSafeIff(s);
  }

  /** A Stop expires while the loop is on its way out. */
  lemma OldLoopLeftBehind()
    ensures Reaches(INIT, State(None, Some(1), {0}, 2, [ClearedStop(Some(1))], Abandoned(1), false, false))
  {
    var s3 := State(Some(0), Some(1), {}, 2, [Running], Stopping(1), false, false);
    var s4 := Apply(s3, CloseStop);
    var s7 := State(None, Some(1), {0}, 2, [ClearedStop(Some(1))], Waiting(1), false, false);
    var s8 := State(None, Some(1), {0}, 2, [ClearedStop(Some(1))], Abandoned(1), false, false);
    ReachesItself(s8);
    ReachesBefore(s7, StopExpires, s8);
    LoopClearsStop(s4, s8);
    ReachesBefore(s3, CloseStop, s8);
    assert Apply(Apply(Apply(INIT, CheckStart), LaunchLoop), MakeStopping) == s3;
    ReachesBefore(Apply(Apply(INIT, CheckStart), LaunchLoop), MakeStopping, s8);
    ReachesBefore(Apply(INIT, CheckStart), LaunchLoop, s8);
    ReachesBefore(INIT, CheckStart, s8);
  }

  lemma LoopClearsStop(s: State, t: State)
    requires s == State(Some(0), Some(1), {0}, 2, [Running], Waiting(1), false, false)
    requires Reaches(State(None, Some(1), {0}, 2, [ClearedStop(Some(1))], Waiting(1), false, false), t)
    ensures Reaches(s, t)
  {
    var s' := Apply(s, LoopStep(0));
    assert Apply(Apply(s', LoopStep(0)), LoopStep(0)).loops == [ClearedStop(Some(1))];
    ReachesBefore(Apply(s', LoopStep(0)), LoopStep(0), t);
    ReachesBefore(s', LoopStep(0), t);
    ReachesBefore(s, LoopStep(0), t);
  }

  /** So a caller that forgets an expired Stop too early can make a later Start and Stop panic. */
  lemma ForgettingCanPanic()
    ensures exists t :: Reaches(INIT, t) && Enabled(t, Forget) && CanPanic(Apply(t, Forget))
  {
    OldLoopLeftBehind();
    var t := State(None, Some(1), {0}, 2, [ClearedStop(Some(1))], Abandoned(1), false, false);
    LoopLeftBehind(Apply(t, Forget), 0);
  }
}
