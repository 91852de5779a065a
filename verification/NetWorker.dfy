/** The IPC network worker: readiness, configuration and bootstrapping, driven by messages of the p2p process. */
module NetWorker {

  type Peer = string
  type Config = string

  /** The states of the p2p process that the worker tells apart. */
  datatype NetState = Ready | NeedConfig | Named(name: string)

  datatype Message =
    | StateResult(state: NetState)
    | DefaultConfigResult(config: Config)
    | Terminated
    | OtherMessage(tag: nat)

  datatype Event = Received(msg: Message) | Connected | Closed | TransportError

  /** What the worker does, in order: messages passed on to the handler, its own ready notice, messages sent. */
  datatype Output =
    | Forward(msg: Message)
    | OwnP2pReady
    | GetState
    | GetDefaultConfig
    | SetConfig(config: Config)
    | Connect(peer: Peer)

  datatype Net = Net(ready: bool, state: NetState, lastAsked: int, bootstrap: seq<Peer>, out: seq<Output>)

  function Initial(bootstrap: seq<Peer>): Net {
    Net(false, Named("undefined"), 0, bootstrap, [])
  }

  // ---------------------------------------------------------------- one step, as a function

  /** `priv_request_state`, guarded as at the start of a tick. */
  function Asked(n: Net, now: int): Net {
    if n.state != Ready && now - n.lastAsked > 500 then n.(lastAsked := now, out := n.out + [GetState]) else n
  }

  function Handled(n: Net, m: Message): Net {
    match m
    case StateResult(s) =>
      n.(state := s, out := if s == NeedConfig then n.out + [GetDefaultConfig] else n.out)
    case DefaultConfigResult(c) =>
      if n.state == NeedConfig then n.(out := n.out + [SetConfig(c)]) else n
    case _ => n
  }

  function Forwarded(n: Net, m: Message): Net {
    var f := n.(out := n.out + [Forward(m)]);
    if m.Terminated? then f.(ready := false, state := Named("terminated")) else f
  }

  function Connects(peers: seq<Peer>): (r: seq<Output>)
    ensures |r| == |peers| && forall i | 0 <= i < |r| :: r[i] == Connect(peers[i])
  {
    seq(|peers|, i requires 0 <= i < |peers| => Connect(peers[i]))
  }

  function Announced(n: Net): Net {
    if !n.ready && n.state == Ready
    then n.(ready := true, bootstrap := [], out := n.out + [OwnP2pReady] + Connects(n.bootstrap))
    else n
  }

  function AfterEvent(n: Net, e: Event): Net {
    if e.Received? then Announced(Forwarded(Handled(n, e.msg), e.msg)) else n
  }

  /** A run is a list of ticks, each at some time and with some events. */
  datatype Tick = Tick(now: int, events: seq<Event>)

  function AfterEvents(n: Net, events: seq<Event>): Net {
    if events == [] then n else AfterEvent(AfterEvents(n, events[..|events| - 1]), events[|events| - 1])
  }

  function AfterTick(n: Net, t: Tick): Net {
    AfterEvents(Asked(n, t.now), t.events)
  }

  function Run(n: Net, ticks: seq<Tick>): Net {
    if ticks == [] then n else AfterTick(Run(n, ticks[..|ticks| - 1]), ticks[|ticks| - 1])
  }

  // ---------------------------------------------------------------- what the log says

  /** The state last told by the p2p process. */
  function LastState(out: seq<Output>): NetState {
    if out == [] then Named("undefined")
    else
      var last := out[|out| - 1];
      if last.Forward? && last.msg.StateResult? then last.msg.state
      else if last == Forward(Terminated) then Named("terminated")
      else LastState(out[..|out| - 1])
  }

  /** The worker has announced readiness and the process has not terminated since. */
  function Announcing(out: seq<Output>): bool {
    if out == [] then false
    else
      var last := out[|out| - 1];
      if last == OwnP2pReady then true
      else if last == Forward(Terminated) then false
      else Announcing(out[..|out| - 1])
  }

  /** The peers that Connect was sent to, in order. */
  function Contacted(out: seq<Output>): seq<Peer> {
    if out == [] then []
    else Contacted(out[..|out| - 1]) + if out[|out| - 1].Connect? then [out[|out| - 1].peer] else []
  }

  /** Every entry of the log was due when it was made. */
  ghost predicate Due(out: seq<Output>, k: nat)
    requires k < |out|
  {
    match out[k]
    case OwnP2pReady => !Announcing(out[..k]) && LastState(out[..k]) == Ready
    case SetConfig(_) => LastState(out[..k]) == NeedConfig
    case GetState => LastState(out[..k]) != Ready
    case Connect(_) => Announcing(out[..k])
    case _ => true
  }

  /** The log accounts for the worker's fields; `waiting` are the peers not contacted yet. */
  ghost predicate Log(out: seq<Output>, state: NetState, ready: bool, waiting: seq<Peer>, bootstrap: seq<Peer>) {
    && Announcing(out) == ready && LastState(out) == state
    && (forall k | 0 <= k < |out| :: Due(out, k))
    && Contacted(out) + waiting == bootstrap
    && (OwnP2pReady in out ==> waiting == [])
    && (OwnP2pReady !in out ==> Contacted(out) == [])
  }

  ghost predicate Inv(n: Net, bootstrap: seq<Peer>) {
    Log(n.out, n.state, n.ready, n.bootstrap, bootstrap) && (n.state == Ready ==> n.ready)
  }

  lemma DueKept(out: seq<Output>, o: Output)
    requires forall k | 0 <= k < |out| :: Due(out, k)
    ensures forall k | 0 <= k < |out| :: Due(out + [o], k)
    ensures (out + [o])[..|out|] == out
  {
    forall k | 0 <= k < |out|
      ensures Due(out + [o], k)
    {
      assert (out + [o])[..k] == out[..k];
      assert Due(out, k);
    }
  }

  /** One more entry that is neither the ready notice nor a Connect. */
  lemma LogPlain(out: seq<Output>, state: NetState, ready: bool, waiting: seq<Peer>, bootstrap: seq<Peer>, o: Output)
    requires Log(out, state, ready, waiting, bootstrap)
    requires o != OwnP2pReady && !o.Connect?
    requires (o.SetConfig? ==> state == NeedConfig) && (o.GetState? ==> state != Ready)
    ensures var told := o.Forward? && o.msg.StateResult?;
            Log(out + [o],
                if told then o.msg.state else if o == Forward(Terminated) then Named("terminated") else state,
                if o == Forward(Terminated) then false else ready, waiting, bootstrap)
  {
    DueKept(out, o);
    assert Due(out + [o], |out|);
  }

  lemma LogNotice(out: seq<Output>, waiting: seq<Peer>, bootstrap: seq<Peer>)
    requires Log(out, Ready, false, waiting, bootstrap)
    ensures Notified(out + [OwnP2pReady], waiting, bootstrap)
  {
    DueKept(out, OwnP2pReady);
    assert Due(out + [OwnP2pReady], |out|);
    assert (out + [OwnP2pReady])[|out|] == OwnP2pReady;
  }

  /** After the ready notice, with some peers still to contact. */
  ghost predicate Notified(out: seq<Output>, waiting: seq<Peer>, bootstrap: seq<Peer>) {
    && Announcing(out) && LastState(out) == Ready && OwnP2pReady in out
    && (forall k | 0 <= k < |out| :: Due(out, k))
    && Contacted(out) + waiting == bootstrap
  }

  lemma LogConnect(out: seq<Output>, waiting: seq<Peer>, bootstrap: seq<Peer>)
    requires Notified(out, waiting, bootstrap) && waiting != []
    ensures Notified(out + [Connect(waiting[0])], waiting[1..], bootstrap)
  {
    var o := Connect(waiting[0]);
    DueKept(out, o);
    assert Due(out + [o], |out|);
    assert Contacted(out) + [waiting[0]] + waiting[1..] == Contacted(out) + waiting;
    assert (out + [o])[..|out|] == out && OwnP2pReady in out;
  }

  lemma {:induction false} LogConnects(out: seq<Output>, waiting: seq<Peer>, bootstrap: seq<Peer>)
    requires Notified(out, waiting, bootstrap)
    ensures Log(out + Connects(waiting), Ready, true, [], bootstrap)
    decreases |waiting|
  {
    if waiting == [] {
      assert out + Connects(waiting) == out;
      assert Contacted(out) + [] == Contacted(out);
    } else {
      LogConnect(out, waiting, bootstrap);
      LogConnects(out + [Connect(waiting[0])], waiting[1..], bootstrap);
      assert out + [Connect(waiting[0])] + Connects(waiting[1..]) == out + Connects(waiting);
    }
  }

  lemma AnnouncedInv(n: Net, bootstrap: seq<Peer>)
    requires Log(n.out, n.state, n.ready, n.bootstrap, bootstrap)
    ensures Inv(Announced(n), bootstrap)
  {
    if !n.ready && n.state == Ready {
      LogNotice(n.out, n.bootstrap, bootstrap);
      LogConnects(n.out + [OwnP2pReady], n.bootstrap, bootstrap);
    }
  }

  lemma ReceivedLog(n: Net, m: Message, bootstrap: seq<Peer>)
    requires Inv(n, bootstrap)
    ensures var f := Forwarded(Handled(n, m), m); Log(f.out, f.state, f.ready, f.bootstrap, bootstrap)
  {
    hide Log;
    var h := Handled(n, m);
    if h.out != n.out {
      LogPlain(n.out, n.state, n.ready, n.bootstrap, bootstrap, h.out[|n.out|]);
    }
    LogPlain(h.out, n.state, n.ready, n.bootstrap, bootstrap, Forward(m));
  }

  lemma {:induction false} EventsInv(n: Net, events: seq<Event>, bootstrap: seq<Peer>)
    requires Inv(n, bootstrap)
    ensures Inv(AfterEvents(n, events), bootstrap)
  {
    if events != [] {
      var last := events[|events| - 1];
      EventsInv(n, events[..|events| - 1], bootstrap);
      var u := AfterEvents(n, events[..|events| - 1]);
      if last.Received? {
        ReceivedLog(u, last.msg, bootstrap);
        AnnouncedInv(Forwarded(Handled(u, last.msg), last.msg), bootstrap);
      }
    }
  }

  lemma {:induction false} RunInv(bootstrap: seq<Peer>, ticks: seq<Tick>)
    ensures Inv(Run(Initial(bootstrap), ticks), bootstrap)
  {
    if ticks == [] {
      assert Contacted([]) + bootstrap == bootstrap;
    } else {
      RunInv(bootstrap, ticks[..|ticks| - 1]);
      var u, t := Run(Initial(bootstrap), ticks[..|ticks| - 1]), ticks[|ticks| - 1];
      if Asked(u, t.now) != u {
        LogPlain(u.out, u.state, u.ready, u.bootstrap, bootstrap, GetState);
      }
      EventsInv(Asked(u, t.now), t.events, bootstrap);
    }
  }

  // ---------------------------------------------------------------- what holds over every run

  lemma {:induction false} StillAnnouncing(out: seq<Output>, i: nat, j: nat)
    requires i < j <= |out| && out[i] == OwnP2pReady
    requires forall k | i < k < j :: out[k] != Forward(Terminated)
    ensures Announcing(out[..j])
    decreases j
  {
    assert out[..j][..j - 1] == out[..j - 1];
    if j > i + 1 {
      StillAnnouncing(out, i, j - 1);
    }
  }

  /** Two ready notices always have a Terminated message between them. */
  lemma NoticesSeparated(bootstrap: seq<Peer>, ticks: seq<Tick>, i: nat, j: nat)
    requires var out := Run(Initial(bootstrap), ticks).out;
             i < j < |out| && out[i] == OwnP2pReady && out[j] == OwnP2pReady
    ensures exists k | i < k < j :: Run(Initial(bootstrap), ticks).out[k] == Forward(Terminated)
  {
    var out := Run(Initial(bootstrap), ticks).out;
    RunInv(bootstrap, ticks);
    assert Due(out, j);
    if forall k | i < k < j :: out[k] != Forward(Terminated) {
      StillAnnouncing(out, i, j);
    }
  }

  /** Between messages the worker is ready whenever the last state it was told is ready, and never before it said so. */
  lemma ReadyWhenTold(bootstrap: seq<Peer>, ticks: seq<Tick>)
    ensures var n := Run(Initial(bootstrap), ticks);
            && n.state == LastState(n.out) && n.ready == Announcing(n.out)
            && (n.state == Ready ==> n.ready)
  {
    RunInv(bootstrap, ticks);
  }

  /** Every bootstrap node is sent exactly one Connect, in order, once the first ready notice is out. */
  lemma BootstrapOnce(bootstrap: seq<Peer>, ticks: seq<Tick>)
    ensures var out := Run(Initial(bootstrap), ticks).out;
            && Contacted(out) == (if OwnP2pReady in out then bootstrap else [])
            && (forall j | 0 <= j < |out| && out[j].Connect? :: OwnP2pReady in out[..j])
  {
    var n := Run(Initial(bootstrap), ticks);
    RunInv(bootstrap, ticks);
    assert Contacted(n.out) + [] == Contacted(n.out);
    forall j | 0 <= j < |n.out| && n.out[j].Connect?
      ensures OwnP2pReady in n.out[..j]
    {
      assert Due(n.out, j);
      AnnouncingMeansNotice(n.out[..j]);
    }
  }

  lemma {:induction false} AnnouncingMeansNotice(out: seq<Output>)
    requires Announcing(out)
    ensures OwnP2pReady in out
  {
    if out[|out| - 1] != OwnP2pReady {
      AnnouncingMeansNotice(out[..|out| - 1]);
    }
  }

  /** A configuration goes only to a process that last said it needs one; state is only asked for when not ready. */
  lemma ConfigOnlyWhenNeeded(bootstrap: seq<Peer>, ticks: seq<Tick>, k: nat)
    requires k < |Run(Initial(bootstrap), ticks).out|
    ensures var out := Run(Initial(bootstrap), ticks).out;
            && (out[k].SetConfig? ==> LastState(out[..k]) == NeedConfig)
            && (out[k].GetState? ==> LastState(out[..k]) != Ready)
  {
    RunInv(bootstrap, ticks);
    assert Due(Run(Initial(bootstrap), ticks).out, k);
  }

  /** A default config was passed back, unchanged, exactly if one was needed when it came. */
  ghost predicate Echo(out: seq<Output>, k: nat)
    requires k < |out|
  {
    match out[k]
    case SetConfig(c) => k + 1 < |out| && out[k + 1] == Forward(DefaultConfigResult(c))
    case Forward(m) =>
      m.DefaultConfigResult? ==> ((k > 0 && out[k - 1] == SetConfig(m.config)) <==> LastState(out[..k]) == NeedConfig)
    case _ => true
  }

  ghost predicate Echoes(out: seq<Output>) {
    forall k | 0 <= k < |out| :: Echo(out, k)
  }

  /** Entries that are neither configs nor answered by one. */
  lemma EchoPlain(out: seq<Output>, more: seq<Output>)
    requires Echoes(out)
    requires forall i | 0 <= i < |more| ::
               !more[i].SetConfig? && !(more[i].Forward? && more[i].msg.DefaultConfigResult?)
    ensures Echoes(out + more)
  {
    forall k | 0 <= k < |out + more|
      ensures Echo(out + more, k)
    {
      if k < |out| {
        assert Echo(out, k) && (out + more)[..k] == out[..k];
      }
    }
  }

  lemma EchoConfig(out: seq<Output>, c: Config)
    requires Echoes(out)
    ensures Echoes(out + (if LastState(out) == NeedConfig then [SetConfig(c)] else []) +
                   [Forward(DefaultConfigResult(c))])
  {
    var w := out + (if LastState(out) == NeedConfig then [SetConfig(c)] else []) + [Forward(DefaultConfigResult(c))];
    forall k | 0 <= k < |w|
      ensures Echo(w, k)
    {
      assert k <= |out| ==> w[..k] == out[..k];
      if k < |out| {
        assert Echo(out, k);
      } else if k == |out| + 1 {
        assert w[..k][..|out|] == out == w[..|out|];
      } else {
        assert k == |out| && w[..k] == out;
        assert k > 0 ==> Echo(out, k - 1);
      }
    }
  }

  lemma EchoForwarded(n: Net, m: Message)
    requires n.state == LastState(n.out) && Echoes(n.out)
    ensures Echoes(Forwarded(Handled(n, m), m).out)
  {
    var f := Forwarded(Handled(n, m), m);
    if m.DefaultConfigResult? {
      EchoConfig(n.out, m.config);
      assert n.out + [] == n.out;
    } else {
      EchoPlain(n.out, f.out[|n.out|..]);
      assert f.out == n.out + f.out[|n.out|..];
    }
  }

  lemma EchoAnnounced(n: Net)
    requires Echoes(n.out)
    ensures Echoes(Announced(n).out)
  {
    var a := Announced(n);
    EchoPlain(n.out, a.out[|n.out|..]);
    assert a.out == n.out + a.out[|n.out|..];
  }

  lemma EchoEvent(n: Net, e: Event)
    requires n.state == LastState(n.out) && Echoes(n.out)
    ensures Echoes(AfterEvent(n, e).out)
  {
    hide Echoes, Forwarded, Handled, Announced;
    if e.Received? {
      EchoForwarded(n, e.msg);
      EchoAnnounced(Forwarded(Handled(n, e.msg), e.msg));
    }
  }

  lemma {:induction false} EchoEvents(n: Net, events: seq<Event>, bootstrap: seq<Peer>)
    requires Inv(n, bootstrap) && Echoes(n.out)
    ensures Echoes(AfterEvents(n, events).out)
  {
    if events != [] {
      var front := events[..|events| - 1];
      EchoEvents(n, front, bootstrap);
      EventsInv(n, front, bootstrap);
      EchoEvent(AfterEvents(n, front), events[|events| - 1]);
    }
  }

  /** Over every run: a config goes out exactly in answer to a default config that came while one was needed. */
  lemma {:induction false} ConfigEchoed(bootstrap: seq<Peer>, ticks: seq<Tick>)
    ensures Echoes(Run(Initial(bootstrap), ticks).out)
  {
    if ticks != [] {
      var front, t := ticks[..|ticks| - 1], ticks[|ticks| - 1];
      var u := Run(Initial(bootstrap), front);
      ConfigEchoed(bootstrap, front);
      RunInv(bootstrap, front);
      if Asked(u, t.now) != u {
        EchoPlain(u.out, [GetState]);
        LogPlain(u.out, u.state, u.ready, u.bootstrap, bootstrap, GetState);
      }
      EchoEvents(Asked(u, t.now), t.events, bootstrap);
    }
  }

  // ---------------------------------------------------------------- asking for the state

  /** When the state was asked for, in a run. */
  function AskTimes(bootstrap: seq<Peer>, ticks: seq<Tick>): seq<int> {
    if ticks == [] then []
    else
      var front, now := ticks[..|ticks| - 1], ticks[|ticks| - 1].now;
      var u := Run(Initial(bootstrap), front);
      AskTimes(bootstrap, front) + if Asked(u, now) != u then [now] else []
  }

  function Asks(out: seq<Output>): nat {
    if out == [] then 0 else Asks(out[..|out| - 1]) + if out[|out| - 1].GetState? then 1 else 0
  }

  lemma {:induction false} AsksConcat(out: seq<Output>, more: seq<Output>)
    ensures Asks(out + more) == Asks(out) + Asks(more)
  {
    if more == [] {
      assert out + more == out;
    } else {
      AsksConcat(out, more[..|more| - 1]);
      assert (out + more)[..|out + more| - 1] == out + more[..|more| - 1];
    }
  }

  lemma {:induction false} ConnectsAskNothing(peers: seq<Peer>)
    ensures Asks(Connects(peers)) == 0
  {
    if peers != [] {
      assert Connects(peers)[..|peers| - 1] == Connects(peers[..|peers| - 1]);
      ConnectsAskNothing(peers[..|peers| - 1]);
    }
  }

  lemma AsksOneMore(out: seq<Output>, o: Output)
    ensures Asks(out + [o]) == Asks(out) + if o.GetState? then 1 else 0
  {
    assert (out + [o])[..|out|] == out;
  }

  lemma HandlingAsksNothing(n: Net, m: Message)
    ensures var f := Forwarded(Handled(n, m), m); Asks(f.out) == Asks(n.out) && f.lastAsked == n.lastAsked
  {
    hide Asks;
    var h := Handled(n, m);
    if h.out != n.out {
      AsksOneMore(n.out, h.out[|n.out|]);
    }
    AsksOneMore(h.out, Forward(m));
  }

  lemma NoticeAsksNothing(n: Net)
    ensures Asks(Announced(n).out) == Asks(n.out) && Announced(n).lastAsked == n.lastAsked
  {
    hide Asks;
    AsksOneMore(n.out, OwnP2pReady);
    AsksConcat(n.out + [OwnP2pReady], Connects(n.bootstrap));
    ConnectsAskNothing(n.bootstrap);
  }

  lemma EventAsksNothing(n: Net, e: Event)
    ensures Asks(AfterEvent(n, e).out) == Asks(n.out) && AfterEvent(n, e).lastAsked == n.lastAsked
  {
    hide Asks;
    if e.Received? {
      HandlingAsksNothing(n, e.msg);
      NoticeAsksNothing(Forwarded(Handled(n, e.msg), e.msg));
    }
  }

  lemma {:induction false} EventsAskNothing(n: Net, events: seq<Event>)
    ensures Asks(AfterEvents(n, events).out) == Asks(n.out) && AfterEvents(n, events).lastAsked == n.lastAsked
  {
    if events != [] {
      EventsAskNothing(n, events[..|events| - 1]);
      EventAsksNothing(AfterEvents(n, events[..|events| - 1]), events[|events| - 1]);
    }
  }

  /** Over every run the state is asked for exactly at the ask times, and these are more than half a second apart. */
  lemma {:induction false} AsksSpaced(bootstrap: seq<Peer>, ticks: seq<Tick>)
    ensures var times, n := AskTimes(bootstrap, ticks), Run(Initial(bootstrap), ticks);
            && |times| == Asks(n.out)
            && n.lastAsked == (if times == [] then 0 else times[|times| - 1])
            && forall i | 0 < i < |times| :: times[i] - times[i - 1] > 500
  {
    hide Asks, AfterEvents, Asked;
    if ticks == [] {
      NoAsks();
    } else {
      var front, t := ticks[..|ticks| - 1], ticks[|ticks| - 1];
      AsksSpaced(bootstrap, front);
      var u := Run(Initial(bootstrap), front);
      AskedOnce(u, t.now);
      EventsAskNothing(Asked(u, t.now), t.events);
    }
  }

  lemma NoAsks()
    ensures Asks([]) == 0
  {
  }

  lemma AskedOnce(n: Net, now: int)
    ensures var asks := n.state != Ready && now - n.lastAsked > 500;
            && (Asked(n, now) != n <==> asks)
            && Asks(Asked(n, now).out) == Asks(n.out) + (if asks then 1 else 0)
            && Asked(n, now).lastAsked == if asks then now else n.lastAsked
  {
    hide Asks;
    AsksOneMore(n.out, GetState);
  }

  // ---------------------------------------------------------------- the worker in place

  class Worker {
    var ready: bool
    var state: NetState
    var lastAsked: int
    var bootstrap: seq<Peer>
    var out: seq<Output>

    ghost function Abs(): Net
      reads this
    {
      Net(ready, state, lastAsked, bootstrap, out)
    }

    constructor (bootstrap: seq<Peer>)
      ensures Abs() == Initial(bootstrap)
    {
      ready, state, lastAsked, this.bootstrap, out := false, Named("undefined"), 0, bootstrap, [];
    }

    method RequestState(now: int)
      requires state != Ready
      modifies this`lastAsked, this`out
      ensures Abs() == Asked(old(Abs()), now)
    {
      if now - lastAsked > 500 {
        out := out + [GetState];
        lastAsked := now;
      }
    }

    method HandleState(s: NetState)
      modifies this`state, this`out
      ensures Abs() == Handled(old(Abs()), StateResult(s))
    {
      state := s;
      if state == NeedConfig {
        out := out + [GetDefaultConfig];
      }
    }

    method HandleDefaultConfig(c: Config)
      modifies this`out
      ensures Abs() == Handled(old(Abs()), DefaultConfigResult(c))
    {
      if state == NeedConfig {
        out := out + [SetConfig(c)];
      }
    }

    /** Drains the list of bootstrap nodes. */
    method SendConnects()
      modifies this`bootstrap, this`out
      ensures bootstrap == [] && out == old(out) + Connects(old(bootstrap))
    {
      var peers := bootstrap;
      bootstrap := [];
      for i := 0 to |peers|
        invariant bootstrap == [] && out == old(out) + Connects(peers[..i])
      {
        out := out + [Connect(peers[i])];
        assert Connects(peers[..i + 1]) == Connects(peers[..i]) + [Connect(peers[i])];
      }
      assert peers[..|peers|] == peers;
    }

    method OnMessage(m: Message)
      modifies this
      ensures Abs() == AfterEvent(old(Abs()), Received(m))
    {
      if m.StateResult? {
        HandleState(m.state);
      } else if m.DefaultConfigResult? {
        HandleDefaultConfig(m.config);
      }
      out := out + [Forward(m)];
      if m.Terminated? {
        ready, state := false, Named("terminated");
      }
      if !ready && state == Ready {
        ready := true;
        out := out + [OwnP2pReady];
        SendConnects();
      }
    }

    /** `tick`, without transport failures; closing and reconnecting leaves these fields alone. */
    method OnTick(now: int, events: seq<Event>)
      modifies this
      ensures Abs() == AfterTick(old(Abs()), Tick(now, events))
    {
      if state != Ready {
        RequestState(now);
      }
      ghost var n := Abs();
      for i := 0 to |events|
        invariant Abs() == AfterEvents(n, events[..i])
      {
        assert events[..i + 1][..i] == events[..i];
        if events[i].Received? {
          OnMessage(events[i].msg);
        }
      }
      assert events[..|events|] == events;
    }
  }
}
