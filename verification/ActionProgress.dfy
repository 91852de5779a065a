/**
  Progress of the action loop, whatever other clients do in between: how many steps of the loop thread
  until an action has been notified, how many steps of its caller after that, and when a call can be
  kept out by a full observer channel.
 */
module ActionProgress {
  import opened Wrappers
  import opened ActionLoop
  import opened ActionRuns

  // ---------------------------------------------------------------- the loop thread

  predicate LoopStep<A>(step: Step<A>) {
    step.Take? || step.Publish? || step.Emit? || step.Notify?
  }

  function LoopSteps<A>(run: seq<Step<A>>): nat {
    if run == [] then 0 else (if LoopStep(run[0]) then 1 else 0) + LoopSteps(run[1..])
  }

  /** Steps that the loop thread has taken so far: four for every notified action. */
  function LoopProgress<T, A>(w: World<T, A>): nat {
    4 * w.notified + (match w.phase case Idle => 0 case Reduced(_, _) => 1 case Published(_) => 2 case Signalled => 3)
  }

  lemma ProgressOfStep<T, A>(r: Reducers<T, A>, w: World<T, A>, step: Step<A>)
    requires Enabled(w, step)
    ensures LoopProgress(Next(r, w, step)) == LoopProgress(w) + if LoopStep(step) then 1 else 0
    ensures w.sent <= Next(r, w, step).sent
  {
  }

  /** In every run, only the loop thread makes progress, one step at a time, and nothing sent is taken back. */
  lemma {:induction false} ProgressOfRun<T, A>(r: Reducers<T, A>, w: World<T, A>, run: seq<Step<A>>)
    requires Feasible(r, w, run)
    ensures LoopProgress(After(r, w, run)) == LoopProgress(w) + LoopSteps(run)
    ensures w.sent <= After(r, w, run).sent
    decreases |run|
  {
    hide Next, Enabled, LoopProgress, LoopStep;
    if run != [] {
      ProgressOfStep(r, w, run[0]);
      ProgressOfRun(r, Next(r, w, run[0]), run[1..]);
    }
  }

  /** The action at place `i` of the dispatch order has been published and its observers have been ticked. */
  predicate NotifiedAt<T, A>(w: World<T, A>, i: nat) {
    i < w.notified <= |w.done|
  }

  /** Whatever else happens, `4 * (i + 1)` steps of the loop thread in all get the action at place `i` notified. */
  lemma {:induction false} NotifiedAfter<T, A>(
    r: Reducers<T, A>, s0: State<T>, w: World<T, A>, run: seq<Step<A>>, i: nat)
    requires s0.history == {} && Inv(r, s0, w) && Feasible(r, w, run) && i < |w.sent|
    ensures var w' := After(r, w, run);
            && (NotifiedAt(w', i) <==> LoopProgress(w) + LoopSteps(run) >= 4 * (i + 1))
            && (NotifiedAt(w', i) ==> w'.done[i] == w.sent[i])
  {
    var w' := After(r, w, run);
    ProgressOfRun(r, w, run);
    InvRun(r, s0, w, run);
    assert OrderInv(r, s0, w');
    if NotifiedAt(w', i) {
      assert w'.sent[i] == w'.done[i];
    }
  }

  /** Until then the loop thread can always take its next step. */
  lemma LoopNotBlocked<T, A>(r: Reducers<T, A>, s0: State<T>, w: World<T, A>, i: nat)
    requires Inv(r, s0, w) && i < |w.sent| && !NotifiedAt(w, i)
    ensures exists step: Step<A> :: LoopStep(step) && Enabled(w, step)
  {
    assert OrderInv(r, s0, w);
    var step: Step<A> :=
      if w.phase.Reduced? then Publish
      else if w.phase.Published? then Emit
      else if w.phase.Signalled? then Notify
      else Take;
    if w.phase.Idle? {
      assert w.sent == w.done + w.actions;
    }
    assert LoopStep(step) && Enabled(w, step);
  }

  // ---------------------------------------------------------------- the waiting call

  /** A call of `dispatch_action_and_wait` whose action is at place `i` of the dispatch order. */
  ghost predicate Awaits<T, A>(w: World<T, A>, c: ClientId, i: nat) {
    && c in w.clients && w.clients[c].kind.Await? && w.clients[c].pc in {Checking, Waiting, Finished}
    && i < |w.sent| && w.sent[i] == w.clients[c].kind.aw
  }

  function OwnSteps<A>(run: seq<Step<A>>, c: ClientId): nat {
    if run == [] then 0 else (if OwnStep(run[0], c) then 1 else 0) + OwnSteps(run[1..], c)
  }

  /** Own steps to go once the action has been notified. */
  function OwnLeft<T, A>(w: World<T, A>, c: ClientId): nat {
    if At(w, c, Waiting) then 2 else if At(w, c, Checking) then 1 else 0
  }

  lemma {:induction false} StillAwaits<T, A>(r: Reducers<T, A>, w: World<T, A>, step: Step<A>, c: ClientId, i: nat)
    requires ObserverInv(w) && Enabled(w, step) && Awaits(w, c, i)
    ensures Awaits(Next(r, w, step), c, i)
  {
    var w' := Next(r, w, step);
    if !OwnStep(step, c) {
      OthersStep(r, w, step, c);
    }
  }

  lemma {:induction false} AwaitsThroughout<T, A>(
    r: Reducers<T, A>, s0: State<T>, w: World<T, A>, run: seq<Step<A>>, c: ClientId, i: nat)
    requires s0.history == {} && Inv(r, s0, w) && Feasible(r, w, run) && Awaits(w, c, i)
    ensures Awaits(After(r, w, run), c, i)
    decreases |run|
  {
    if run != [] {
      StillAwaits(r, w, run[0], c, i);
      InvStep(r, s0, w, run[0]);
      AwaitsThroughout(r, s0, Next(r, w, run[0]), run[1..], c, i);
    }
  }

  /** A notified action is in the history, and its waiting caller has a tick. */
  lemma {:induction false} NotifiedCaller<T, A>(r: Reducers<T, A>, s0: State<T>, w: World<T, A>, c: ClientId, i: nat)
    requires s0.history == {} && Inv(r, s0, w) && Awaits(w, c, i) && NotifiedAt(w, i)
    ensures w.clients[c].kind.aw.id in w.state.history
    ensures At(w, c, Waiting) ==> Count(w.ticks, c) > 0
  {
    var k := w.clients[c];
    assert OrderInv(r, s0, w) && AwaitInv(w, c) && TickOk(w, c);
    assert w.done[i] == w.sent[i];
    HistoryOfReduceAll(r, s0, w.done);
    if At(w, c, Waiting) {
      assert k.kind.aw in w.done[..i + 1];
      NotSeen(w.done, k.seen, k.kind.aw);
    }
  }

  /** Once notified: every own step counts down, and it is never the timeout. */
  lemma {:induction false} NotifiedStep<T, A>(
    r: Reducers<T, A>, s0: State<T>, w: World<T, A>, step: Step<A>, c: ClientId, i: nat)
    requires s0.history == {} && Inv(r, s0, w) && Enabled(w, step) && Awaits(w, c, i) && NotifiedAt(w, i)
    ensures var w' := Next(r, w, step);
            OwnLeft(w', c) == OwnLeft(w, c) - (if OwnStep(step, c) then 1 else 0) && NotifiedAt(w', i)
    ensures step != Timeout(c)
  {
    NotifiedCaller(r, s0, w, c, i);
    var w' := Next(r, w, step);
    if !OwnStep(step, c) {
      OthersStep(r, w, step, c);
    }
    InvStep(r, s0, w, step);
    assert OrderInv(r, s0, w');
  }

  /** In every run after the notify step, the own steps of the call count down to its end, without a timeout. */
  lemma {:induction false} CountsDown<T, A>(
    r: Reducers<T, A>, s0: State<T>, w: World<T, A>, run: seq<Step<A>>, c: ClientId, i: nat)
    requires s0.history == {} && Inv(r, s0, w) && Feasible(r, w, run) && Awaits(w, c, i) && NotifiedAt(w, i)
    ensures OwnLeft(After(r, w, run), c) + OwnSteps(run, c) == OwnLeft(w, c)
    ensures forall j | 0 <= j < |run| :: run[j] != Timeout(c)
    decreases |run|
  {
    hide Next, Enabled, OrderInv, ObserverInv, TickInv, ClientInv, Awaits, NotifiedAt, OwnStep, OwnLeft;
    if run != [] {
      var w' := Next(r, w, run[0]);
      NotifiedStep(r, s0, w, run[0], c, i);
      StillAwaits(r, w, run[0], c, i);
      InvStep(r, s0, w, run[0]);
      CountsDown(r, s0, w', run[1..], c, i);
    }
  }

  /** Once notified, the call itself can always take its next step, until it has returned. */
  lemma CallNotBlocked<T, A>(r: Reducers<T, A>, s0: State<T>, w: World<T, A>, c: ClientId, i: nat)
    requires s0.history == {} && Inv(r, s0, w) && Awaits(w, c, i) && NotifiedAt(w, i) && !At(w, c, Finished)
    ensures exists step: Step<A> :: OwnStep(step, c) && Enabled(w, step)
  {
    NotifiedCaller(r, s0, w, c, i);
    var step: Step<A> := if At(w, c, Waiting) then Recv(c) else Check(c);
    assert OwnStep(step, c) && Enabled(w, step);
  }

  /**
    A dispatched call returns in every run, with any number of other clients moving in between, that
    holds enough steps of the loop thread for its place in the queue and then two steps of its own.
   */
  lemma {:induction false} FinishesAmidOthers<T, A>(
    r: Reducers<T, A>, s0: State<T>, w: World<T, A>, c: ClientId, i: nat, first: seq<Step<A>>, then': seq<Step<A>>)
    requires s0.history == {} && Inv(r, s0, w) && Awaits(w, c, i)
    requires Feasible(r, w, first) && LoopProgress(w) + LoopSteps(first) >= 4 * (i + 1)
    requires Feasible(r, After(r, w, first), then') && OwnSteps(then', c) >= 2
    ensures At(After(r, After(r, w, first), then'), c, Finished)
    ensures forall j | 0 <= j < |then'| :: then'[j] != Timeout(c)
  {
    var w' := After(r, w, first);
    InvRun(r, s0, w, first);
    NotifiedAfter(r, s0, w, first, i);
    AwaitsThroughout(r, s0, w, first, c, i);
    CountsDown(r, s0, w', then', c, i);
    InvRun(r, s0, w', then');
    AwaitsThroughout(r, s0, w', then', c, i);
  }

  // ---------------------------------------------------------------- a full observer channel

  /** The observer channel is emptied by notify steps only. */
  lemma {:induction false} OnlyNotifyDrains<T, A>(r: Reducers<T, A>, w: World<T, A>, run: seq<Step<A>>)
    requires Feasible(r, w, run) && forall j | 0 <= j < |run| :: !run[j].Notify?
    ensures w.pending <= After(r, w, run).pending
    decreases |run|
  {
    if run != [] {
      OnlyNotifyDrains(r, Next(r, w, run[0]), run[1..]);
    }
  }

  ghost predicate LoopOnly<A>(run: seq<Step<A>>) {
    forall j | 0 <= j < |run| :: LoopStep(run[j])
  }

  /** The steps of the loop thread up to the end of the next notify step. */
  function ToNotify<T, A>(w: World<T, A>): seq<Step<A>> {
    match w.phase
    case Idle => [Take, Publish, Emit, Notify]
    case Reduced(_, _) => [Publish, Emit, Notify]
    case Published(_) => [Emit, Notify]
    case Signalled => [Notify]
  }

  lemma {:induction false} NotifyComes<T, A>(r: Reducers<T, A>, w: World<T, A>)
    requires !w.phase.Idle? || w.actions != []
    ensures Feasible(r, w, ToNotify(w)) && After(r, w, ToNotify(w)).pending == []
    ensures After(r, w, ToNotify(w)).clients == w.clients
    decreases 4 - LoopProgress(w) % 4
  {
    var run: seq<Step<A>> := ToNotify(w);
    var w' := Next(r, w, run[0]);
    if w.phase.Signalled? {
      assert run[1..] == [];
      assert Feasible(r, w', run[1..]) && After(r, w', run[1..]) == w';
    } else {
      NotifyComes(r, w');
      assert run[1..] == ToNotify(w');
    }
  }

  /**
    The loop thread alone can make room for a registering call exactly when there is room already or it
    has an action to work on.
   */
  lemma {:induction false} RegisterExactly<T, A(!new)>(r: Reducers<T, A>, w: World<T, A>, c: ClientId)
    requires At(w, c, Registering)
    ensures (exists run :: Feasible(r, w, run) && LoopOnly(run) && Enabled(After(r, w, run), Register(c))) <==>
            |w.pending| < CHANNEL_SIZE || !w.phase.Idle? || w.actions != []
  {
    if |w.pending| < CHANNEL_SIZE {
      var run: seq<Step<A>> := [];
      assert Feasible(r, w, run) && LoopOnly(run) && Enabled(After(r, w, run), Register(c));
    } else if !w.phase.Idle? || w.actions != [] {
      var run: seq<Step<A>> := ToNotify(w);
      NotifyComes(r, w);
      assert Feasible(r, w, run) && LoopOnly(run) && Enabled(After(r, w, run), Register(c));
    } else {
      forall run | Feasible(r, w, run) && LoopOnly(run)
        ensures !Enabled(After(r, w, run), Register(c))
      {
        assert run != [] ==> LoopStep(run[0]);
      }
    }
  }

  /** The run of `n` calls of `block_on` whose futures are ready at once. */
  function Polls<A>(n: nat): seq<Step<A>> {
    if n == 0 then [] else Polls(n - 1) + [Call(n - 1, BlockOn), Register(n - 1), Poll(n - 1, true)]
  }

  lemma {:induction false} Append<T, A>(r: Reducers<T, A>, w: World<T, A>, run: seq<Step<A>>, step: Step<A>)
    requires Feasible(r, w, run) && Enabled(After(r, w, run), step)
    ensures Feasible(r, w, run + [step]) && After(r, w, run + [step]) == Next(r, After(r, w, run), step)
    decreases |run|
  {
    var more := run + [step];
    if run == [] {
      assert more[1..] == [];
      assert After(r, Next(r, w, step), more[1..]) == Next(r, w, step);
    } else {
      assert more[1..] == run[1..] + [step];
      Append(r, Next(r, w, run[0]), run[1..], step);
    }
  }

  /** `n` calls of `block_on` have returned, their observers are in the channel, and nothing else has happened. */
  ghost predicate Polled<T, A>(w: World<T, A>, n: nat) {
    && |w.pending| == n && w.phase.Idle? && w.actions == []
    && (forall c: ClientId :: c in w.clients <==> c < n)
    && (forall c | c in w.clients :: w.clients[c] == Client(BlockOn, Finished, 0))
  }

  lemma {:induction false} PollOnce<T, A>(r: Reducers<T, A>, w: World<T, A>, n: nat)
    requires Polled(w, n) && n < CHANNEL_SIZE
    ensures Enabled(w, Call(n, BlockOn))
    ensures var w1 := Next(r, w, Call(n, BlockOn));
            && Enabled(w1, Register(n))
            && var w2 := Next(r, w1, Register(n));
               Enabled(w2, Poll(n, true)) && Polled(Next(r, w2, Poll(n, true)), n + 1)
  {
  }

  /** After the polls the channel holds their observers, although every call has returned. */
  lemma {:induction false} AfterPolls<T, A>(r: Reducers<T, A>, s0: State<T>, n: nat)
    requires n <= CHANNEL_SIZE
    ensures Feasible(r, Initial(s0), Polls<A>(n)) && Polled(After(r, Initial(s0), Polls<A>(n)), n)
  {
    hide Polled, Next, Enabled, Feasible, After, Initial, Polls;
    if n == 0 {
      NoPolls<T, A>(r, s0);
    } else {
      AfterPolls<T, A>(r, s0, n - 1);
      OneMorePoll<T, A>(r, s0, n - 1);
    }
  }

  lemma NoPolls<T, A>(r: Reducers<T, A>, s0: State<T>)
    ensures Feasible(r, Initial(s0), Polls<A>(0)) && Polled(After(r, Initial(s0), Polls<A>(0)), 0)
  {
  }

  lemma {:induction false} OneMorePoll<T, A>(r: Reducers<T, A>, s0: State<T>, n: nat)
    requires n < CHANNEL_SIZE
    requires Feasible(r, Initial(s0), Polls<A>(n)) && Polled(After(r, Initial(s0), Polls<A>(n)), n)
    ensures Feasible(r, Initial(s0), Polls<A>(n + 1)) && Polled(After(r, Initial(s0), Polls<A>(n + 1)), n + 1)
  {
    hide Polled, Next, Enabled, Feasible, After, Initial;
    var run: seq<Step<A>> := Polls(n);
    var a: Step<A>, b: Step<A>, d: Step<A> := Call(n, BlockOn), Register(n), Poll(n, true);
    PollOnce(r, After(r, Initial(s0), run), n);
    Append(r, Initial(s0), run, a);
    Append(r, Initial(s0), run + [a], b);
    Append(r, Initial(s0), run + [a] + [b], d);
    assert run + [a] + [b] + [d] == run + [a, b, d];
  }

  /**
    The calls before `c` were all of `block_on` and have returned; call `c` waits for the action, has still
    to register, and no steps of the loop thread make room for it.
   */
  ghost predicate Jammed<T, A(!new)>(r: Reducers<T, A>, w: World<T, A>, c: ClientId, aw: Wrapper<A>) {
    && At(w, c, Registering) && w.clients[c].kind == Await(aw) && aw !in w.sent
    && (forall d: ClientId :: d in w.clients <==> d <= c)
    && (forall d | d in w.clients && d != c :: w.clients[d].kind.BlockOn? && w.clients[d].pc.Finished?)
    && !exists run :: Feasible(r, w, run) && LoopOnly(run) && Enabled(After(r, w, run), Register(c))
  }

  lemma {:induction false} JamStep<T, A(!new)>(r: Reducers<T, A>, w: World<T, A>, c: ClientId, aw: Wrapper<A>)
    requires Polled(w, c) && c == CHANNEL_SIZE && w.sent == []
    ensures Enabled(w, Call(c, Await(aw))) && Jammed(r, Next(r, w, Call(c, Await(aw))), c, aw)
  {
    RegisterExactly(r, Next(r, w, Call(c, Await(aw))), c);
  }

  lemma {:induction false} PollsSendNothing<T, A>(r: Reducers<T, A>, w: World<T, A>, run: seq<Step<A>>)
    requires Feasible(r, w, run) && forall i | 0 <= i < |run| :: !run[i].Dispatch? && !run[i].Fire?
    ensures After(r, w, run).sent == w.sent
    decreases |run|
  {
    if run != [] {
      PollsSendNothing(r, Next(r, w, run[0]), run[1..]);
    }
  }

  lemma {:induction false} OnlyPolls<A>(n: nat)
    ensures forall i | 0 <= i < |Polls<A>(n)| :: !Polls<A>(n)[i].Dispatch? && !Polls<A>(n)[i].Fire?
  {
    if n > 0 {
      OnlyPolls<A>(n - 1);
    }
  }

  /**
    A hundred calls of `block_on` that have all returned keep a `dispatch_action_and_wait` from
    dispatching: the loop thread has nothing to do and no steps of it make room.
   */
  lemma {:induction false} JammedByFinishedCalls<T, A(!new)>(r: Reducers<T, A>, s0: State<T>, aw: Wrapper<A>)
    requires s0.history == {}
    ensures exists w: World<T, A> :: Reachable(r, s0, w) && Jammed(r, w, CHANNEL_SIZE, aw)
  {
    hide Jammed, Next, Enabled, Polled, Polls, Feasible, After;
    AfterPolls<T, A>(r, s0, CHANNEL_SIZE);
    var run: seq<Step<A>>, call: Step<A> := Polls(CHANNEL_SIZE), Call(CHANNEL_SIZE, Await(aw));
    OnlyPolls<A>(CHANNEL_SIZE);
    PollsSendNothing(r, Initial(s0), run);
    JamStep(r, After(r, Initial(s0), run), CHANNEL_SIZE, aw);
    Append(r, Initial(s0), run, call);
    assert Reachable(r, s0, After(r, Initial(s0), run + [call]));
  }
}
