/**
  The redux action loop of an instance: one loop thread takes actions from a bounded channel, reduces
  them into a new state, publishes it and ticks the registered observers, while any number of clients
  register observers, dispatch actions and wait.  The pieces that the loop thread runs in place are
  the class at the end; the interleavings of all threads are the module `ActionRuns`.
 */
module ActionLoop {

  import opened Wrappers

  type ClientId = nat

  /** `Instance::DEFAULT_CHANNEL_BUF_SIZE`, the bound of the action and of the observer channel. */
  const CHANNEL_SIZE: nat := 100

  /** An action with its process-unique id; the id alone decides equality and history membership. */
  datatype Wrapper<A> = Wrapper(id: nat, action: A)

  datatype State<T> = State(nucleus: T, agent: T, dht: T, network: T, history: set<nat>)

  /** The reducers of the four state slices; the dht reducer does not see the other slices. */
  datatype Reducers<!T, !A> = Reducers(
    nucleus: (State<T>, Wrapper<A>) -> T,
    agent: (State<T>, Wrapper<A>) -> T,
    dht: (T, Wrapper<A>) -> T,
    network: (State<T>, Wrapper<A>) -> T)

  /** `State::reduce`: every slice is reduced from the old state, then the action enters the history. */
  function Reduce<T, A>(r: Reducers<T, A>, s: State<T>, aw: Wrapper<A>): State<T> {
    State(r.nucleus(s, aw), r.agent(s, aw), r.dht(s.dht, aw), r.network(s, aw), s.history + {aw.id})
  }

  function ReduceAll<T, A>(r: Reducers<T, A>, s: State<T>, aws: seq<Wrapper<A>>): State<T> {
    if aws == [] then s else Reduce(r, ReduceAll(r, s, aws[..|aws| - 1]), aws[|aws| - 1])
  }

  function Ids<A>(aws: seq<Wrapper<A>>): set<nat> {
    set i | 0 <= i < |aws| :: aws[i].id
  }

  /** The history is exactly the ids of the actions reduced so far. */
  lemma {:induction false} HistoryOfReduceAll<T, A>(r: Reducers<T, A>, s: State<T>, aws: seq<Wrapper<A>>)
    ensures ReduceAll(r, s, aws).history == s.history + Ids(aws)
  {
    if aws != [] {
      var init := aws[..|aws| - 1];
      HistoryOfReduceAll(r, s, init);
      assert aws == init + [aws[|aws| - 1]];
      IdsAppend(init, aws[|aws| - 1]);
    }
  }

  lemma IdsAppend<A>(aws: seq<Wrapper<A>>, aw: Wrapper<A>)
    ensures Ids(aws + [aw]) == Ids(aws) + {aw.id}
  {
    var more := aws + [aw];
    forall x | x in Ids(aws) + {aw.id}
      ensures x in Ids(more)
    {
      if x == aw.id {
        assert more[|aws|].id == x;
      } else {
        var i :| 0 <= i < |aws| && aws[i].id == x;
        assert more[i].id == x;
      }
    }
  }

  // ---------------------------------------------------------------- ticking observers

  function Keep(all: seq<ClientId>, alive: set<ClientId>): seq<ClientId> {
    if all == [] then []
    else Keep(all[..|all| - 1], alive) + if all[|all| - 1] in alive then [all[|all| - 1]] else []
  }

  function Count(ticks: map<ClientId, nat>, c: ClientId): nat {
    if c in ticks then ticks[c] else 0
  }

  /** One tick is sent to every observer in `all` whose receiver is alive. */
  function Tick(ticks: map<ClientId, nat>, all: seq<ClientId>, alive: set<ClientId>): map<ClientId, nat> {
    if all == [] then ticks
    else
      var t := Tick(ticks, all[..|all| - 1], alive);
      var c := all[|all| - 1];
      if c in alive then t[c := Count(t, c) + 1] else t
  }

  /** Live observers stay, in order; the others go. */
  lemma {:induction false} KeepMembers(all: seq<ClientId>, alive: set<ClientId>)
    ensures forall c :: c in Keep(all, alive) <==> c in all && c in alive
    ensures Distinct(all) ==> Distinct(Keep(all, alive))
  {
    if all != [] {
      var init, c := all[..|all| - 1], all[|all| - 1];
      assert all == init + [c];
      KeepMembers(init, alive);
      assert Distinct(all) ==> c !in init;
    }
  }

  /** Every live observer gets exactly one tick, nobody else gets any. */
  lemma {:induction false} TickOnce(ticks: map<ClientId, nat>, all: seq<ClientId>, alive: set<ClientId>, c: ClientId)
    requires Distinct(all)
    ensures Count(Tick(ticks, all, alive), c) == Count(ticks, c) + if c in all && c in alive then 1 else 0
  {
    if all != [] {
      var init, last := all[..|all| - 1], all[|all| - 1];
      assert all == init + [last];
      assert last !in init;
      TickOnce(ticks, init, alive, c);
    }
  }

  // ---------------------------------------------------------------- rounds of the loop

  /** One turn of the loop: the observers that have arrived, the clients whose receivers are alive, an action. */
  datatype Round<A> = Round(arrived: seq<ClientId>, alive: set<ClientId>, aw: Wrapper<A>)

  function Actions<A>(rounds: seq<Round<A>>): seq<Wrapper<A>> {
    seq(|rounds|, i requires 0 <= i < |rounds| => rounds[i].aw)
  }

  function Arrivals<A>(rounds: seq<Round<A>>): seq<ClientId> {
    if rounds == [] then [] else Arrivals(rounds[..|rounds| - 1]) + rounds[|rounds| - 1].arrived
  }

  function Installed<A>(observers: seq<ClientId>, rounds: seq<Round<A>>): seq<ClientId> {
    if rounds == [] then observers
    else
      var last := rounds[|rounds| - 1];
      Keep(Installed(observers, rounds[..|rounds| - 1]) + last.arrived, last.alive)
  }

  function TicksAfter<A>(ticks: map<ClientId, nat>, observers: seq<ClientId>, rounds: seq<Round<A>>)
    : map<ClientId, nat>
  {
    if rounds == [] then ticks
    else
      var front, last := rounds[..|rounds| - 1], rounds[|rounds| - 1];
      Tick(TicksAfter(ticks, observers, front), Installed(observers, front) + last.arrived, last.alive)
  }

  predicate Registered<A>(c: ClientId, observers: seq<ClientId>, rounds: seq<Round<A>>) {
    c in observers + Arrivals(rounds)
  }

  /** In every round since it was registered the client was alive. */
  predicate Lasting<A>(c: ClientId, observers: seq<ClientId>, rounds: seq<Round<A>>) {
    rounds != [] ==>
      && Lasting(c, observers, rounds[..|rounds| - 1])
      && (Registered(c, observers, rounds) ==> c in rounds[|rounds| - 1].alive)
  }

  /** The rounds up to which `c` has been registered and alive, the one of its arrival included. */
  function RoundsSince<A>(c: ClientId, observers: seq<ClientId>, rounds: seq<Round<A>>): nat {
    if rounds == [] then 0
    else
      RoundsSince(c, observers, rounds[..|rounds| - 1]) +
      if Registered(c, observers, rounds) && Lasting(c, observers, rounds) then 1 else 0
  }

  lemma DistinctParts(a: seq<ClientId>, b: seq<ClientId>)
    requires Distinct(a + b)
    ensures Distinct(a) && Distinct(b) && forall c | c in b :: c !in a
  {
    assert forall i | 0 <= i < |a| :: (a + b)[i] == a[i];
    assert forall i | 0 <= i < |b| :: (a + b)[|a| + i] == b[i];
  }

  lemma DistinctJoin(a: seq<ClientId>, b: seq<ClientId>)
    requires Distinct(a) && Distinct(b) && forall c | c in b :: c !in a
    ensures Distinct(a + b)
  {
    forall i, j | 0 <= i < j < |a + b|
      ensures (a + b)[i] != (a + b)[j]
    {
      if j >= |a| {
        assert (a + b)[j] == b[j - |a|] && b[j - |a|] in b;
        assert i < |a| ==> a[i] in a;
      }
    }
  }

  lemma {:induction false} UnregisteredLasts<A>(c: ClientId, observers: seq<ClientId>, rounds: seq<Round<A>>)
    requires !Registered(c, observers, rounds)
    ensures Lasting(c, observers, rounds)
  {
    if rounds != [] {
      UnregisteredLasts(c, observers, rounds[..|rounds| - 1]);
    }
  }

  /** The installed observers are, each once, those that have been alive in every round since they registered. */
  lemma {:induction false} InstalledMembers<A>(observers: seq<ClientId>, rounds: seq<Round<A>>)
    requires Distinct(observers + Arrivals(rounds))
    ensures Distinct(Installed(observers, rounds))
    ensures forall c :: c in Installed(observers, rounds) <==>
                        Registered(c, observers, rounds) && Lasting(c, observers, rounds)
    decreases |rounds|, 1
  {
    DistinctParts(observers, Arrivals(rounds));
    if rounds != [] {
      NextObservers(observers, rounds);
      var front, last := rounds[..|rounds| - 1], rounds[|rounds| - 1];
      KeepMembers(Installed(observers, front) + last.arrived, last.alive);
      forall c
        ensures c in Installed(observers, rounds) <==>
                Registered(c, observers, rounds) && Lasting(c, observers, rounds)
      {
        hide Keep, Installed, Arrivals;
        assert Installed(observers, rounds) == Keep(Installed(observers, front) + last.arrived, last.alive);
      }
    }
  }

  /** Who is ticked in the last round, if alive then. */
  lemma {:induction false} NextObservers<A>(observers: seq<ClientId>, rounds: seq<Round<A>>)
    requires Distinct(observers + Arrivals(rounds)) && rounds != []
    ensures var front, last := rounds[..|rounds| - 1], rounds[|rounds| - 1];
            var all := Installed(observers, front) + last.arrived;
            && Distinct(all)
            && (forall c :: c in all <==> Registered(c, observers, rounds) && Lasting(c, observers, front))
    decreases |rounds|, 0
  {
    var front, last := rounds[..|rounds| - 1], rounds[|rounds| - 1];
    var before := observers + Arrivals(front);
    assert observers + Arrivals(rounds) == before + last.arrived;
    DistinctParts(before, last.arrived);
    InstalledMembers(observers, front);
    DistinctJoin(Installed(observers, front), last.arrived);
    forall c | c in last.arrived
      ensures Lasting(c, observers, front)
    {
      UnregisteredLasts(c, observers, front);
    }
  }

  /** An observer is ticked once in every round since its arrival for as long as it is alive, nobody else ever. */
  lemma {:induction false} TickedEveryRound<A>(
    ticks: map<ClientId, nat>, observers: seq<ClientId>, rounds: seq<Round<A>>, c: ClientId)
    requires Distinct(observers + Arrivals(rounds))
    ensures Count(TicksAfter(ticks, observers, rounds), c) == Count(ticks, c) + RoundsSince(c, observers, rounds)
  {
    if rounds != [] {
      var front, last := rounds[..|rounds| - 1], rounds[|rounds| - 1];
      assert observers + Arrivals(rounds) == (observers + Arrivals(front)) + last.arrived;
      DistinctParts(observers + Arrivals(front), last.arrived);
      TickedEveryRound(ticks, observers, front, c);
      NextObservers(observers, rounds);
      TickOnce(TicksAfter(ticks, observers, front), Installed(observers, front) + last.arrived, last.alive, c);
    }
  }

  lemma NoRound<T, A>(
    r: Reducers<T, A>, s: State<T>, observers: seq<ClientId>, ticks: map<ClientId, nat>, rounds: seq<Round<A>>)
    ensures var none := rounds[..0];
            && Actions(none) == [] && ReduceAll(r, s, Actions(none)) == s
            && Installed(observers, none) == observers && TicksAfter(ticks, observers, none) == ticks
  {
  }

  /** One round after the first `i`. */
  lemma OneMoreRound<T, A>(
    r: Reducers<T, A>, s: State<T>, observers: seq<ClientId>, ticks: map<ClientId, nat>, rounds: seq<Round<A>>, i: nat)
    requires i < |rounds|
    ensures var some, more, x := rounds[..i], rounds[..i + 1], rounds[i];
            && Actions(more) == Actions(some) + [x.aw]
            && ReduceAll(r, s, Actions(more)) == Reduce(r, ReduceAll(r, s, Actions(some)), x.aw)
            && Installed(observers, more) == Keep(Installed(observers, some) + x.arrived, x.alive)
            && TicksAfter(ticks, observers, more) ==
               Tick(TicksAfter(ticks, observers, some), Installed(observers, some) + x.arrived, x.alive)
  {
    hide Reduce, Keep, Tick;
    assert rounds[..i + 1][..i] == rounds[..i];
    assert Actions(rounds[..i + 1]) == Actions(rounds[..i]) + [rounds[i].aw];
    assert Actions(rounds[..i + 1])[..i] == Actions(rounds[..i]);
  }

  // ---------------------------------------------------------------- the loop thread

  /** What the loop thread works on: the shared state, the observer channel and the installed observers. */
  class LoopThread<T, A> {
    const reducers: Reducers<T, A>
    var state: State<T>
    var pending: seq<ClientId>
    var observers: seq<ClientId>
    var alive: set<ClientId>
    var ticks: map<ClientId, nat>
    var signals: seq<Wrapper<A>>

    constructor (reducers: Reducers<T, A>, state: State<T>)
      ensures this.reducers == reducers && this.state == state
      ensures pending == [] && observers == [] && alive == {} && ticks == map[] && signals == []
    {
      this.reducers, this.state := reducers, state;
      pending, observers, alive, ticks, signals := [], [], {}, map[], [];
    }

    /** `process_action`. */
    method ProcessAction(aw: Wrapper<A>)
      modifies this
      ensures state == Reduce(reducers, old(state), aw)
      ensures signals == old(signals) + [aw]
      ensures pending == [] && alive == old(alive)
      ensures observers == Keep(old(observers + pending), alive)
      ensures ticks == Tick(old(ticks), old(observers + pending), alive)
    {
      var newState := Reduce(reducers, state, aw);
      state := newState;
      signals := signals + [aw];
      ghost var all := observers + pending;
      while pending != []
        invariant observers + pending == all
        invariant state == newState && signals == old(signals) + [aw] && alive == old(alive) && ticks == old(ticks)
      {
        observers, pending := observers + [pending[0]], pending[1..];
      }
      assert observers == all;
      var kept: seq<ClientId> := [];
      for i := 0 to |observers|
        invariant observers == all && pending == []
        invariant state == newState && signals == old(signals) + [aw] && alive == old(alive)
        invariant kept == Keep(all[..i], alive)
        invariant ticks == Tick(old(ticks), all[..i], alive)
      {
        var c := observers[i];
        assert all[..i + 1][..i] == all[..i];
        if c in alive {
          ticks := ticks[c := Count(ticks, c) + 1];
          kept := kept + [c];
        }
      }
      assert all[..|all|] == all;
      observers := kept;
    }

    /** The body of the spawned thread, until the action channel closes. */
    method Run(rounds: seq<Round<A>>)
      requires pending == []
      modifies this
      ensures state == ReduceAll(reducers, old(state), Actions(rounds))
      ensures signals == old(signals) + Actions(rounds) && pending == []
      ensures observers == Installed(old(observers), rounds)
      ensures ticks == TicksAfter(old(ticks), old(observers), rounds)
    {
      hide ReduceAll, Reduce, Actions, Installed, TicksAfter, Keep, Tick;
      NoRound(reducers, state, observers, ticks, rounds);
      for i := 0 to |rounds|
        invariant state == ReduceAll(reducers, old(state), Actions(rounds[..i]))
        invariant signals == old(signals) + Actions(rounds[..i]) && pending == []
        invariant observers == Installed(old(observers), rounds[..i])
        invariant ticks == TicksAfter(old(ticks), old(observers), rounds[..i])
      {
        OneMoreRound(reducers, old(state), old(observers), old(ticks), rounds, i);
        pending, alive := rounds[i].arrived, rounds[i].alive;
        ProcessAction(rounds[i].aw);
      }
      assert rounds[..|rounds|] == rounds;
    }
  }
}
