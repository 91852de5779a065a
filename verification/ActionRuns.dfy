/**
  All interleavings of the loop thread with its clients, one atomic step at a time.  Reducing into a
  local value, publishing it, emitting the trace signal and notifying the observers are separate
  steps of the loop thread, so that clients may run in between.
 */
module ActionRuns {
  import opened Wrappers
  import opened ActionLoop

  /** `Await` is `dispatch_action_and_wait`; `BlockOn` polls a future whenever it is ticked. */
  datatype Kind<A> = Await(aw: Wrapper<A>) | BlockOn

  datatype Pc = Registering | Dispatching | Checking | Waiting | Finished

  /** A client call; `seen` is the number of published actions at its last unsuccessful check. */
  datatype Client<A> = Client(kind: Kind<A>, pc: Pc, seen: nat)

  datatype Phase<T, A> =
    | Idle
    | Reduced(aw: Wrapper<A>, next: State<T>)
    | Published(aw: Wrapper<A>)
    | Signalled

  /**
    `sent` is the dispatch order, `done` the published actions and `notified` the number of finished
    notify steps; the other fields are what the threads share.
   */
  datatype World<T, A> = World(
    state: State<T>, phase: Phase<T, A>, actions: seq<Wrapper<A>>, pending: seq<ClientId>,
    observers: seq<ClientId>, ticks: map<ClientId, nat>, clients: map<ClientId, Client<A>>,
    sent: seq<Wrapper<A>>, done: seq<Wrapper<A>>, signals: seq<Wrapper<A>>, notified: nat)

  datatype Step<A> =
    | Call(c: ClientId, kind: Kind<A>)   // a client enters, nothing sent yet
    | Register(c: ClientId)              // create_observer: the observer enters its channel
    | Dispatch(c: ClientId)              // the awaited action enters its channel
    | Fire(aw: Wrapper<A>)               // dispatch_action without waiting
    | Check(c: ClientId)                 // look the action up in the published history
    | Poll(c: ClientId, ready: bool)     // poll a future
    | Recv(c: ClientId)                  // take a tick
    | Timeout(c: ClientId)               // no tick within ten milliseconds
    | Take                               // receive an action and reduce it into a local state
    | Publish                            // replace the shared state
    | Emit                               // send the trace signal
    | Notify                             // drain the observer channel and tick everybody

  function At<T, A>(w: World<T, A>, c: ClientId, pc: Pc): bool {
    c in w.clients && w.clients[c].pc == pc
  }

  predicate Enabled<T, A>(w: World<T, A>, step: Step<A>) {
    match step
    case Call(c, kind) => c !in w.clients
    case Register(c) => At(w, c, Registering) && |w.pending| < CHANNEL_SIZE
    case Dispatch(c) =>
      At(w, c, Dispatching) && w.clients[c].kind.Await? && |w.actions| < CHANNEL_SIZE &&
      w.clients[c].kind.aw.id !in Ids(w.sent)
    case Fire(aw) => |w.actions| < CHANNEL_SIZE && aw.id !in Ids(w.sent)
    case Check(c) => At(w, c, Checking) && w.clients[c].kind.Await?
    case Poll(c, _) => At(w, c, Checking) && w.clients[c].kind.BlockOn?
    case Recv(c) => At(w, c, Waiting) && Count(w.ticks, c) > 0
    case Timeout(c) => At(w, c, Waiting) && Count(w.ticks, c) == 0
    case Take => w.phase.Idle? && w.actions != []
    case Publish => w.phase.Reduced?
    case Emit => w.phase.Published?
    case Notify => w.phase.Signalled?
  }

  function Move<T, A>(w: World<T, A>, c: ClientId, pc: Pc, seen: nat): World<T, A>
    requires c in w.clients
  {
    w.(clients := w.clients[c := w.clients[c].(pc := pc, seen := seen)])
  }

  /** The clients whose tick receiver has not been dropped. */
  function Alive<T, A>(w: World<T, A>): set<ClientId> {
    set c | c in w.clients && !w.clients[c].pc.Finished?
  }

  function Next<T, A>(r: Reducers<T, A>, w: World<T, A>, step: Step<A>): World<T, A>
    requires Enabled(w, step)
  {
    match step
    case Call(c, kind) => w.(clients := w.clients[c := Client(kind, Registering, 0)])
    case Register(c) =>
      Move(w, c, if w.clients[c].kind.Await? then Dispatching else Checking, 0).(pending := w.pending + [c])
    case Dispatch(c) =>
      var aw := w.clients[c].kind.aw;
      Move(w, c, Checking, 0).(actions := w.actions + [aw], sent := w.sent + [aw])
    case Fire(aw) => w.(actions := w.actions + [aw], sent := w.sent + [aw])
    case Check(c) =>
      if w.clients[c].kind.aw.id in w.state.history then Move(w, c, Finished, 0) else Move(w, c, Waiting, |w.done|)
    case Poll(c, ready) => if ready then Move(w, c, Finished, 0) else Move(w, c, Waiting, |w.done|)
    case Recv(c) => Move(w, c, Checking, 0).(ticks := w.ticks[c := Count(w.ticks, c) - 1])
    case Timeout(c) => Move(w, c, Checking, 0)
    case Take => w.(phase := Reduced(w.actions[0], Reduce(r, w.state, w.actions[0])), actions := w.actions[1..])
    case Publish => w.(state := w.phase.next, phase := Published(w.phase.aw), done := w.done + [w.phase.aw])
    case Emit => w.(signals := w.signals + [w.phase.aw], phase := Signalled)
    case Notify =>
      var all := w.observers + w.pending;
      w.(observers := Keep(all, Alive(w)), pending := [], ticks := Tick(w.ticks, all, Alive(w)),
         phase := Idle, notified := w.notified + 1)
  }

  function Initial<T, A>(s: State<T>): World<T, A> {
    World(s, Idle, [], [], [], map[], map[], [], [], [], 0)
  }

  predicate Feasible<T, A>(r: Reducers<T, A>, w: World<T, A>, run: seq<Step<A>>)
    decreases |run|
  {
    run == [] || (Enabled(w, run[0]) && Feasible(r, Next(r, w, run[0]), run[1..]))
  }

  function After<T, A>(r: Reducers<T, A>, w: World<T, A>, run: seq<Step<A>>): World<T, A>
    requires Feasible(r, w, run)
    decreases |run|
  {
    if run == [] then w else After(r, Next(r, w, run[0]), run[1..])
  }

  // ---------------------------------------------------------------- invariants

  function InFlight<T, A>(w: World<T, A>): seq<Wrapper<A>> {
    if w.phase.Reduced? then [w.phase.aw] else []
  }

  ghost predicate DistinctIds<A>(aws: seq<Wrapper<A>>) {
    forall i, j | 0 <= i < j < |aws| :: aws[i].id != aws[j].id
  }

  /** The loop thread works through the dispatch order and folds it into the state. */
  ghost predicate OrderInv<T, A>(r: Reducers<T, A>, s0: State<T>, w: World<T, A>) {
    && w.sent == w.done + InFlight(w) + w.actions
    && DistinctIds(w.sent)
    && w.state == ReduceAll(r, s0, w.done)
    && (w.phase.Reduced? ==> w.phase.next == Reduce(r, w.state, w.phase.aw))
    && w.done == w.signals + (if w.phase.Published? then [w.phase.aw] else [])
    && |w.done| == w.notified + (if w.phase.Published? || w.phase.Signalled? then 1 else 0)
  }

  /** Every started call that is not finished owns exactly one observer, installed or in the channel. */
  ghost predicate ObserverInv<T, A>(w: World<T, A>) {
    && Distinct(w.observers + w.pending)
    && (forall c | c in w.observers + w.pending :: c in w.clients && !w.clients[c].pc.Registering?)
    && (forall c | c in w.clients && w.clients[c].pc !in {Registering, Finished} :: c in w.observers + w.pending)
  }

  /** A waiting client has a tick as soon as a notify step has followed what it has not seen. */
  ghost predicate TickOk<T, A>(w: World<T, A>, c: ClientId) {
    At(w, c, Waiting) ==>
      w.clients[c].seen <= |w.done| && (w.notified > w.clients[c].seen ==> Count(w.ticks, c) > 0)
  }

  ghost predicate TickInv<T, A>(w: World<T, A>) {
    forall c :: TickOk(w, c)
  }

  ghost predicate AwaitInv<T, A>(w: World<T, A>, c: ClientId)
    requires c in w.clients
  {
    var k := w.clients[c];
    k.kind.Await? ==>
      && (k.pc in {Checking, Waiting, Finished} ==> k.kind.aw in w.sent)
      && (k.pc.Waiting? ==> k.seen <= |w.done| && k.kind.aw.id !in Ids(w.done[..k.seen]))
      && (k.pc.Finished? ==> k.kind.aw in w.done)
  }

  ghost predicate ClientInv<T, A>(w: World<T, A>) {
    && (forall c | c in w.clients :: AwaitInv(w, c))
    && (forall c | At(w, c, Dispatching) :: w.clients[c].kind.Await?)
  }

  ghost predicate Inv<T, A>(r: Reducers<T, A>, s0: State<T>, w: World<T, A>) {
    OrderInv(r, s0, w) && ObserverInv(w) && TickInv(w) && ClientInv(w)
  }

  lemma InitialInv<T, A>(r: Reducers<T, A>, s0: State<T>)
    ensures Inv(r, s0, Initial(s0))
  {
    hide OrderInv, ObserverInv;
    InitialOrder(r, s0);
    InitialObservers<T, A>(s0);
  }

  lemma InitialOrder<T, A>(r: Reducers<T, A>, s0: State<T>)
    ensures OrderInv(r, s0, Initial(s0))
  {
    hide Reduce;
  }

  lemma InitialObservers<T, A>(s0: State<T>)
    ensures ObserverInv(Initial<T, A>(s0))
  {
  }

  lemma OrderFrame<T, A>(r: Reducers<T, A>, s0: State<T>, w: World<T, A>, w': World<T, A>)
    requires OrderInv(r, s0, w)
    requires w'.state == w.state && w'.phase == w.phase && w'.actions == w.actions && w'.sent == w.sent
    requires w'.done == w.done && w'.signals == w.signals && w'.notified == w.notified
    ensures OrderInv(r, s0, w')
  {
  }

  lemma {:induction false} OrderStep<T, A>(r: Reducers<T, A>, s0: State<T>, w: World<T, A>, step: Step<A>)
    requires OrderInv(r, s0, w) && Enabled(w, step)
    ensures OrderInv(r, s0, Next(r, w, step))
  {
    var w' := Next(r, w, step);
    match step
    case Dispatch(c) => OrderSend(r, s0, w, w.clients[c].kind.aw, w');
    case Fire(aw) => OrderSend(r, s0, w, aw, w');
    case Take => OrderTake(r, s0, w);
    case Publish => OrderPublish(r, s0, w);
    case Emit => OrderEmit(r, s0, w);
    case Notify => OrderFrame(r, s0, w.(phase := Idle, notified := w.notified + 1), w');
    case _ => OrderFrame(r, s0, w, w');
  }

  lemma OrderSend<T, A>(r: Reducers<T, A>, s0: State<T>, w: World<T, A>, aw: Wrapper<A>, w': World<T, A>)
    requires OrderInv(r, s0, w) && aw.id !in Ids(w.sent)
    requires w'.state == w.state && w'.phase == w.phase && w'.done == w.done && w'.signals == w.signals
    requires w'.actions == w.actions + [aw] && w'.sent == w.sent + [aw] && w'.notified == w.notified
    ensures OrderInv(r, s0, w')
  {
    SendKeepsIds(w.sent, aw);
  }

  lemma OrderTake<T, A>(r: Reducers<T, A>, s0: State<T>, w: World<T, A>)
    requires OrderInv(r, s0, w) && w.phase.Idle? && w.actions != []
    ensures OrderInv(r, s0, w.(phase := Reduced(w.actions[0], Reduce(r, w.state, w.actions[0])),
                               actions := w.actions[1..]))
  {
    assert w.actions == [w.actions[0]] + w.actions[1..];
    assert w.done + [] + w.actions == w.done + [w.actions[0]] + w.actions[1..];
  }

  lemma OrderPublish<T, A>(r: Reducers<T, A>, s0: State<T>, w: World<T, A>)
    requires OrderInv(r, s0, w) && w.phase.Reduced?
    ensures OrderInv(r, s0, w.(state := w.phase.next, phase := Published(w.phase.aw), done := w.done + [w.phase.aw]))
  {
    var done := w.done + [w.phase.aw];
    assert done[..|done| - 1] == w.done;
    assert done + [] + w.actions == w.sent;
    assert w.signals + [] == w.done;
  }

  lemma OrderEmit<T, A>(r: Reducers<T, A>, s0: State<T>, w: World<T, A>)
    requires OrderInv(r, s0, w) && w.phase.Published?
    ensures OrderInv(r, s0, w.(signals := w.signals + [w.phase.aw], phase := Signalled))
  {
    assert w.signals + [w.phase.aw] + [] == w.done;
  }

  lemma SendKeepsIds<A>(sent: seq<Wrapper<A>>, aw: Wrapper<A>)
    requires DistinctIds(sent) && aw.id !in Ids(sent)
    ensures DistinctIds(sent + [aw])
  {
  }

  lemma {:induction false} ObserverStep<T, A>(r: Reducers<T, A>, w: World<T, A>, step: Step<A>)
    requires ObserverInv(w) && Enabled(w, step)
    ensures ObserverInv(Next(r, w, step))
  {
    var w' := Next(r, w, step);
    match step
    case Register(c) =>
      assert w'.observers + w'.pending == (w.observers + w.pending) + [c];
    case Notify =>
      KeepMembers(w.observers + w.pending, Alive(w));
      assert w'.observers + w'.pending == w'.observers;
    case _ =>
  }

  lemma TickFrame<T, A>(w: World<T, A>, w': World<T, A>, c: ClientId)
    requires TickOk(w, c) && c in w.clients && c in w'.clients && w'.clients[c] == w.clients[c]
    requires |w.done| <= |w'.done| && w'.notified == w.notified && Count(w'.ticks, c) == Count(w.ticks, c)
    ensures TickOk(w', c)
  {
  }

  lemma AwaitFrame<T, A>(w: World<T, A>, w': World<T, A>, c: ClientId)
    requires c in w.clients && AwaitInv(w, c) && c in w'.clients && w'.clients[c] == w.clients[c]
    requires w.done <= w'.done && w.sent <= w'.sent
    ensures AwaitInv(w', c)
  {
    var k := w.clients[c];
    if k.kind.Await? && k.pc.Waiting? {
      assert w'.done[..k.seen] == w.done[..k.seen];
    }
  }

  /** Steps by which client `c` itself moves. */
  predicate OwnStep<A>(step: Step<A>, c: ClientId) {
    match step
    case Register(d) => c == d
    case Dispatch(d) => c == d
    case Check(d) => c == d
    case Poll(d, _) => c == d
    case Recv(d) => c == d
    case Timeout(d) => c == d
    case _ => false
  }

  lemma {:induction false} OthersStep<T, A>(r: Reducers<T, A>, w: World<T, A>, step: Step<A>, c: ClientId)
    requires ObserverInv(w) && Enabled(w, step) && c in w.clients && !OwnStep(step, c)
    ensures var w' := Next(r, w, step);
            && c in w'.clients && w'.clients[c] == w.clients[c]
            && w.done <= w'.done && w.sent <= w'.sent
            && (!step.Notify? ==> w'.notified == w.notified && Count(w'.ticks, c) == Count(w.ticks, c))
            && (step.Notify? && At(w, c, Waiting) ==> Count(w'.ticks, c) > 0)
  {
    if step.Notify? && At(w, c, Waiting) {
      TickOnce(w.ticks, w.observers + w.pending, Alive(w), c);
      assert c in Alive(w);
    }
  }

  /** A client that starts to wait has seen everything that is published, and no more has been notified. */
  lemma {:induction false} OwnTick<T, A>(r: Reducers<T, A>, s0: State<T>, w: World<T, A>, step: Step<A>, c: ClientId)
    requires OrderInv(r, s0, w) && Enabled(w, step) && c in w.clients && OwnStep(step, c)
    ensures var w' := Next(r, w, step);
            && c in w'.clients && TickOk(w', c)
            && (At(w', c, Dispatching) ==> w'.clients[c].kind.Await?)
  {
    hide OrderInv, Reduce, ReduceAll, Keep, Tick, Alive, Ids, Count;
    NotifiedIsPublished(r, s0, w);
  }

  lemma NotifiedIsPublished<T, A>(r: Reducers<T, A>, s0: State<T>, w: World<T, A>)
    requires OrderInv(r, s0, w)
    ensures w.notified <= |w.done|
  {
    hide Reduce, ReduceAll, DistinctIds;
  }

  lemma {:induction false} OwnStepOk<T, A>(r: Reducers<T, A>, s0: State<T>, w: World<T, A>, step: Step<A>, c: ClientId)
    requires s0.history == {} && OrderInv(r, s0, w) && Enabled(w, step)
    requires c in w.clients && AwaitInv(w, c) && OwnStep(step, c)
    ensures var w' := Next(r, w, step); c in w'.clients && AwaitInv(w', c)
  {
    hide OrderInv;
    if step.Check? {
      CheckedClient(r, s0, w, c);
    } else if step.Dispatch? {
      assert Next(r, w, step).sent[|w.sent|] == w.clients[c].kind.aw;
    }
  }

  /** What a look at the published history tells the client. */
  lemma {:induction false} CheckedClient<T, A>(r: Reducers<T, A>, s0: State<T>, w: World<T, A>, c: ClientId)
    requires s0.history == {} && OrderInv(r, s0, w) && Enabled(w, Check(c)) && AwaitInv(w, c)
    ensures AwaitInv(Next(r, w, Check(c)), c)
  {
    var aw := w.clients[c].kind.aw;
    HistoryOfReduceAll(r, s0, w.done);
    assert w.done[..|w.done|] == w.done;
    if aw.id in w.state.history {
      var i :| 0 <= i < |w.done| && w.done[i].id == aw.id;
      var j :| 0 <= j < |w.sent| && w.sent[j] == aw;
      assert w.sent[i] == w.done[i];
    }
  }

  /** What the invariants say of one client. */
  ghost predicate ClientOk<T, A>(w: World<T, A>, c: ClientId) {
    && TickOk(w, c)
    && (c in w.clients ==> AwaitInv(w, c) && (At(w, c, Dispatching) ==> w.clients[c].kind.Await?))
  }

  lemma {:induction false} OwnClient<T, A>(r: Reducers<T, A>, s0: State<T>, w: World<T, A>, step: Step<A>, c: ClientId)
    requires s0.history == {} && OrderInv(r, s0, w) && Enabled(w, step)
    requires c in w.clients && ClientOk(w, c) && OwnStep(step, c)
    ensures ClientOk(Next(r, w, step), c)
  {
    hide OrderInv, Next, AwaitInv, TickOk, OwnStep;
    OwnTick(r, s0, w, step, c);
    OwnStepOk(r, s0, w, step, c);
  }

  lemma {:induction false} OthersClient<T, A>(
    r: Reducers<T, A>, s0: State<T>, w: World<T, A>, step: Step<A>, c: ClientId)
    requires OrderInv(r, s0, w) && ObserverInv(w) && Enabled(w, step)
    requires c in w.clients && ClientOk(w, c) && !OwnStep(step, c)
    ensures ClientOk(Next(r, w, step), c)
  {
    hide OrderInv, ObserverInv, Next, AwaitInv, OwnStep;
    var w' := Next(r, w, step);
    OthersStep(r, w, step, c);
    AwaitFrame(w, w', c);
  }

  lemma NewClient<T, A>(r: Reducers<T, A>, w: World<T, A>, step: Step<A>, c: ClientId)
    requires Enabled(w, step) && c !in w.clients
    ensures ClientOk(Next(r, w, step), c)
  {
  }

  lemma {:induction false} ClientStep<T, A>(r: Reducers<T, A>, s0: State<T>, w: World<T, A>, step: Step<A>)
    requires s0.history == {} && Inv(r, s0, w) && Enabled(w, step)
    ensures TickInv(Next(r, w, step)) && ClientInv(Next(r, w, step))
  {
    hide OrderInv, ObserverInv, Next, AwaitInv, TickOk, OwnStep, Enabled;
    forall c
      ensures ClientOk(Next(r, w, step), c)
    {
      assert TickOk(w, c);
      assert At(w, c, Dispatching) ==> w.clients[c].kind.Await?;
      if c !in w.clients {
        NewClient(r, w, step, c);
      } else if OwnStep(step, c) {
        OwnClient(r, s0, w, step, c);
      } else {
        OthersClient(r, s0, w, step, c);
      }
    }
    AllClientsOk(Next(r, w, step));
  }

  lemma AllClientsOk<T, A>(w: World<T, A>)
    requires forall c :: ClientOk(w, c)
    ensures TickInv(w) && ClientInv(w)
  {
    hide AwaitInv, TickOk;
    forall c
      ensures TickOk(w, c)
      ensures c in w.clients ==> AwaitInv(w, c)
      ensures At(w, c, Dispatching) ==> w.clients[c].kind.Await?
    {
      assert ClientOk(w, c);
    }
  }

  lemma {:induction false} InvStep<T, A>(r: Reducers<T, A>, s0: State<T>, w: World<T, A>, step: Step<A>)
    requires s0.history == {} && Inv(r, s0, w) && Enabled(w, step)
    ensures Inv(r, s0, Next(r, w, step))
  {
    OrderStep(r, s0, w, step);
    ObserverStep(r, w, step);
    ClientStep(r, s0, w, step);
  }

  lemma {:induction false} InvRun<T, A>(r: Reducers<T, A>, s0: State<T>, w: World<T, A>, run: seq<Step<A>>)
    requires s0.history == {} && Inv(r, s0, w) && Feasible(r, w, run)
    ensures Inv(r, s0, After(r, w, run))
    decreases |run|
  {
    if run != [] {
      InvStep(r, s0, w, run[0]);
      InvRun(r, s0, Next(r, w, run[0]), run[1..]);
    }
  }

  // ---------------------------------------------------------------- what every run guarantees

  ghost predicate Reachable<T, A(!new)>(r: Reducers<T, A>, s0: State<T>, w: World<T, A>) {
    s0.history == {} && exists run :: Feasible(r, Initial(s0), run) && After(r, Initial(s0), run) == w
  }

  lemma {:induction false} ReachableInv<T, A(!new)>(r: Reducers<T, A>, s0: State<T>, w: World<T, A>)
    requires Reachable(r, s0, w)
    ensures Inv(r, s0, w)
  {
    var run :| Feasible(r, Initial(s0), run) && After(r, Initial(s0), run) == w;
    InitialInv(r, s0);
    InvRun(r, s0, Initial(s0), run);
  }

  /**
    The published actions are a prefix of the dispatch order, the state is their fold, the history holds
    exactly their ids, and the trace signals follow the same order.
   */
  lemma {:induction false} DispatchOrder<T, A(!new)>(r: Reducers<T, A>, s0: State<T>, w: World<T, A>)
    requires Reachable(r, s0, w)
    ensures w.sent == w.done + InFlight(w) + w.actions
    ensures w.state == ReduceAll(r, s0, w.done)
    ensures w.state.history == Ids(w.done)
    ensures w.signals <= w.done
  {
    ReachableInv(r, s0, w);
    HistoryOfReduceAll(r, s0, w.done);
  }

  lemma NotSeen<A>(done: seq<Wrapper<A>>, n: nat, aw: Wrapper<A>)
    requires n <= |done| && aw.id !in Ids(done[..n])
    ensures forall m | 0 <= m <= n :: aw !in done[..m]
  {
    forall m | 0 <= m <= n
      ensures aw !in done[..m]
    {
      assert done[..m] == done[..n][..m];
      assert forall i | 0 <= i < m :: done[..n][i].id in Ids(done[..n]);
    }
  }

  /**
    No lost wake-up: a client still waiting after the notify step of an action it has not seen finds a
    tick.  For `dispatch_action_and_wait` the awaited action itself is such an action.
   */
  lemma {:induction false} NoLostWakeUp<T, A(!new)>(r: Reducers<T, A>, s0: State<T>, w: World<T, A>, c: ClientId)
    requires Reachable(r, s0, w) && At(w, c, Waiting)
    ensures w.notified > w.clients[c].seen ==> Count(w.ticks, c) > 0
    ensures w.notified <= |w.done|
    ensures w.clients[c].kind.Await? && w.clients[c].kind.aw in w.done[..w.notified] ==> Count(w.ticks, c) > 0
  {
    ReachableInv(r, s0, w);
    var k := w.clients[c];
    assert AwaitInv(w, c) && TickOk(w, c);
    if k.kind.Await? {
      NotSeen(w.done, k.seen, k.kind.aw);
    }
  }

  /** `dispatch_action_and_wait` returns only after its action is part of the published state. */
  lemma {:induction false} ReturnMeansProcessed<T, A(!new)>(
    r: Reducers<T, A>, s0: State<T>, w: World<T, A>, c: ClientId)
    requires Reachable(r, s0, w) && At(w, c, Finished) && w.clients[c].kind.Await?
    ensures w.clients[c].kind.aw in w.done && w.clients[c].kind.aw.id in w.state.history
  {
    ReachableInv(r, s0, w);
    HistoryOfReduceAll(r, s0, w.done);
    assert AwaitInv(w, c);
  }

  /** A notify step keeps every live observer, ticks it once, and ticks nobody else. */
  lemma {:induction false} NotifyReachesAll<T, A(!new)>(r: Reducers<T, A>, s0: State<T>, w: World<T, A>, c: ClientId)
    requires Reachable(r, s0, w) && Enabled(w, Notify)
    ensures var w' := Next(r, w, Notify);
            var live := c in w.observers + w.pending && c in Alive(w);
            && (c in w'.observers <==> live)
            && Count(w'.ticks, c) == Count(w.ticks, c) + (if live then 1 else 0)
  {
    ReachableInv(r, s0, w);
    KeepMembers(w.observers + w.pending, Alive(w));
    TickOnce(w.ticks, w.observers + w.pending, Alive(w), c);
  }

  /** Uninterrupted, the four steps of the loop thread are one `process_action`. */
  lemma LoopRound<T, A>(r: Reducers<T, A>, w: World<T, A>)
    requires w.phase.Idle? && w.actions != []
    ensures var round: seq<Step<A>> := [Take, Publish, Emit, Notify];
            && Feasible(r, w, round)
            && var w' := After(r, w, round);
               && w'.state == Reduce(r, w.state, w.actions[0])
               && w'.signals == w.signals + [w.actions[0]]
               && w'.observers == Keep(w.observers + w.pending, Alive(w))
               && w'.ticks == Tick(w.ticks, w.observers + w.pending, Alive(w))
               && w'.pending == [] && w'.phase.Idle? && w'.actions == w.actions[1..]
  {
    var round: seq<Step<A>> := [Take, Publish, Emit, Notify];
    var w1 := Next(r, w, Take);
    var w2 := Next(r, w1, Publish);
    var w3 := Next(r, w2, Emit);
    var w4 := Next(r, w3, Notify);
    assert round[1..] == [Publish, Emit, Notify];
    assert round[1..][1..] == [Emit, Notify] && round[1..][1..][1..] == [Notify];
    assert After(r, w3, [Notify]) == w4;
    assert After(r, w2, [Emit, Notify]) == w4;
    assert After(r, w1, [Publish, Emit, Notify]) == w4;
  }
}
