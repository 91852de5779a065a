/**
  The waiter against the whole trace. A call is accepted when a sender is waiting for it; from then
  on it owes its return and whatever the actions traced while it is the current call oblige it to.
  The waiter stops the call at the first position where everything owed has been seen often enough.
 */
module WaiterTrace {

  import opened Wrappers
  import opened Waiter

  /** What the waiter can meet: a control sender arriving, a trace signal, any other signal. */
  datatype Event = NewSender(tx: Sender) | Traced(action: Action) | OtherSignal

  type Trace = seq<Event>

  function Initial(): View {
    View(map[], None, [], map[])
  }

  function Step(v: View, e: Event, instances: nat): View {
    match e
    case NewSender(tx) => Registered(v, tx)
    case Traced(a) => ProcessTrace(v, instances, a)
    case OtherSignal => v
  }

  /** The waiter after the first `n` events. */
  function Replay(t: Trace, n: nat, instances: nat): View
    requires n <= |t|
  {
    if n == 0 then Initial() else Step(Replay(t, n - 1, instances), t[n - 1], instances)
  }

  // ---------------------------------------------------------------- the specification

  predicate Signals(e: Event) {
    e.Traced? && e.action.SignalZomeFunctionCall?
  }

  /** Control channels are made afresh for every call. */
  ghost predicate FreshSenders(t: Trace) {
    forall i, j | 0 <= i < j < |t| && t[i].NewSender? && t[j].NewSender? :: t[i].tx != t[j].tx
  }

  /** Call keys carry a process-unique id. */
  ghost predicate DistinctCalls(t: Trace) {
    forall i, j | 0 <= i < j < |t| && Signals(t[i]) && Signals(t[j]) :: t[i].action.call != t[j].action.call
  }

  /** The senders registered by the first `n` events, in order. */
  function Queue(t: Trace, n: nat): seq<Sender>
    requires n <= |t|
  {
    if n == 0 then [] else Queue(t, n - 1) + if t[n - 1].NewSender? then [t[n - 1].tx] else []
  }

  /** How many of the first `n` events are accepted calls. */
  function Accepted(t: Trace, n: nat): nat
    requires n <= |t|
    decreases n, 0
  {
    if n == 0 then 0 else Accepted(t, n - 1) + if Accepts(t, n - 1) then 1 else 0
  }

  /** Event `a` signals a call and some registered sender has not been handed out. */
  predicate Accepts(t: Trace, a: nat)
    requires a < |t|
    decreases a, 1
  {
    Signals(t[a]) && Accepted(t, a) < |Queue(t, a)|
  }

  /** Senders are handed out in the order of registration. */
  function SenderOf(t: Trace, a: nat): Sender
    requires a < |t| && Accepts(t, a)
  {
    Queue(t, a)[Accepted(t, a)]
  }

  /** The last call signalled, if it was accepted. */
  function Current(t: Trace, n: nat): Option<Call>
    requires n <= |t|
  {
    if n == 0 then None
    else if !Signals(t[n - 1]) then Current(t, n - 1)
    else if Accepts(t, n - 1) then Some(t[n - 1].action.call)
    else None
  }

  /** What event `j` adds to the debt of the call signalled by event `a`. */
  function Owed(t: Trace, instances: nat, a: nat, j: nat): seq<Condition>
    requires a <= j < |t| && Signals(t[a])
  {
    if j == a then [Condition(1, Returns(t[a].action.call))]
    else if t[j].Traced? && Current(t, j) == Some(t[a].action.call) then Obligations(t[j].action, instances)
    else []
  }

  /** The number of events from `lo` up to `hi` that match. */
  function Seen(t: Trace, p: Pattern, lo: nat, hi: nat): nat
    requires lo <= hi <= |t|
    decreases hi
  {
    if lo == hi then 0
    else Seen(t, p, lo, hi - 1) + if t[hi - 1].Traced? && Matches(p, t[hi - 1].action) then 1 else 0
  }

  /** The obligations of event `j` have had their number of later matches by `n`. */
  ghost predicate Met(t: Trace, instances: nat, a: nat, j: nat, n: nat)
    requires a <= j < n <= |t| && Signals(t[a])
  {
    forall o | o in Owed(t, instances, a, j) :: Seen(t, o.pattern, j + 1, n) >= o.count
  }

  ghost predicate Discharged(t: Trace, instances: nat, a: nat, n: nat)
    requires a < n <= |t| && Signals(t[a])
  {
    forall j | a <= j < n :: Met(t, instances, a, j, n)
  }

  /** Some position up to `n` had every obligation met. */
  ghost predicate Done(t: Trace, instances: nat, a: nat, n: nat)
    requires a < n <= |t| && Signals(t[a])
  {
    exists m | a < m <= n :: Discharged(t, instances, a, m)
  }

  // ---------------------------------------------------------------- what is left of the debt

  function Remaining(o: Condition, seen: nat): seq<Condition> {
    if seen >= o.count then [] else [Condition(o.count - seen, o.pattern)]
  }

  function AllRemaining(cs: seq<Condition>, t: Trace, lo: nat, hi: nat): seq<Condition>
    requires lo <= hi <= |t|
  {
    if cs == [] then []
    else AllRemaining(cs[..|cs| - 1], t, lo, hi) +
         Remaining(cs[|cs| - 1], Seen(t, cs[|cs| - 1].pattern, lo, hi))
  }

  /** What every event adds to the debt of the call signalled by event `a`. */
  function Debts(t: Trace, instances: nat, a: nat): seq<seq<Condition>>
    requires a < |t| && Signals(t[a])
  {
    seq(|t|, j requires 0 <= j < |t| => if j < a then [] else Owed(t, instances, a, j))
  }

  /** The debt made by events `a` to `j`, as it stands at `n`. */
  function Left(debts: seq<seq<Condition>>, t: Trace, a: nat, j: nat, n: nat): seq<Condition>
    requires a <= j <= n <= |t| == |debts|
    decreases j
  {
    if j == a then []
    else Left(debts, t, a, j - 1, n) + AllRemaining(debts[j - 1], t, j, n)
  }

  function Advances(cs: seq<Condition>, e: Event): seq<Condition> {
    if e.Traced? then Advance(cs, e.action) else cs
  }

  lemma OneAdvances(o: Condition, t: Trace, lo: nat, hi: nat)
    requires lo <= hi < |t|
    ensures Advances(Remaining(o, Seen(t, o.pattern, lo, hi)), t[hi]) == Remaining(o, Seen(t, o.pattern, lo, hi + 1))
  {
    var r := Remaining(o, Seen(t, o.pattern, lo, hi));
    if r != [] && t[hi].Traced? {
      AdvanceOne(r[0], t[hi].action);
    }
  }

  lemma {:induction false} AllAdvance(cs: seq<Condition>, t: Trace, lo: nat, hi: nat)
    requires lo <= hi < |t|
    ensures Advances(AllRemaining(cs, t, lo, hi), t[hi]) == AllRemaining(cs, t, lo, hi + 1)
  {
    if cs != [] {
      var front, last := cs[..|cs| - 1], cs[|cs| - 1];
      AllAdvance(front, t, lo, hi);
      OneAdvances(last, t, lo, hi);
      if t[hi].Traced? {
        AdvanceConcat(AllRemaining(front, t, lo, hi), Remaining(last, Seen(t, last.pattern, lo, hi)), t[hi].action);
      }
    }
  }

  lemma {:induction false} LeftAdvances(debts: seq<seq<Condition>>, t: Trace, a: nat, j: nat, n: nat)
    requires a <= j <= n < |t| == |debts|
    ensures Advances(Left(debts, t, a, j, n), t[n]) == Left(debts, t, a, j, n + 1)
    decreases j
  {
    if j > a {
      LeftAdvances(debts, t, a, j - 1, n);
      AllAdvance(debts[j - 1], t, j, n);
      if t[n].Traced? {
        AdvanceConcat(Left(debts, t, a, j - 1, n), AllRemaining(debts[j - 1], t, j, n), t[n].action);
      }
    }
  }

  /** Conditions that the action does not match are kept, except those with nothing to wait for. */
  lemma {:induction false} FreshRemaining(cs: seq<Condition>, t: Trace, n: nat)
    requires n < |t| && t[n].Traced?
    requires forall o | o in cs :: !Matches(o.pattern, t[n].action)
    ensures AllRemaining(cs, t, n + 1, n + 1) == Advance(cs, t[n].action)
  {
    if cs != [] {
      assert cs[|cs| - 1] in cs;
      FreshRemaining(cs[..|cs| - 1], t, n);
    }
  }

  lemma LeftGrows(debts: seq<seq<Condition>>, t: Trace, a: nat, n: nat)
    requires a <= n < |t| == |debts|
    requires t[n].Traced? ==> forall o | o in debts[n] :: !Matches(o.pattern, t[n].action)
    requires !t[n].Traced? ==> debts[n] == []
    ensures Left(debts, t, a, n + 1, n + 1) == Advances(Left(debts, t, a, n, n) + debts[n], t[n])
  {
    LeftAdvances(debts, t, a, n, n);
    if t[n].Traced? {
      FreshRemaining(debts[n], t, n);
      AdvanceConcat(Left(debts, t, a, n, n), debts[n], t[n].action);
    } else {
      assert Left(debts, t, a, n, n) + debts[n] == Left(debts, t, a, n, n);
    }
  }

  /** What the call signalled by event `a` still owes at `n`. */
  function Balance(t: Trace, instances: nat, a: nat, n: nat): seq<Condition>
    requires a <= n <= |t| && a < |t| && Signals(t[a])
  {
    Left(Debts(t, instances, a), t, a, n, n)
  }

  /** One event advances the debt together with what the event itself adds. */
  lemma BalanceStep(t: Trace, instances: nat, a: nat, n: nat)
    requires a <= n < |t| && Signals(t[a])
    ensures Balance(t, instances, a, n + 1) ==
            Advances(Balance(t, instances, a, n) + Owed(t, instances, a, n), t[n])
  {
    if t[n].Traced? {
      OwnActionNeverMatches(t[n].action, instances);
    }
    LeftGrows(Debts(t, instances, a), t, a, n);
  }

  lemma {:induction false} NothingRemains(cs: seq<Condition>, t: Trace, lo: nat, hi: nat)
    requires lo <= hi <= |t|
    ensures AllRemaining(cs, t, lo, hi) == [] <==> forall o | o in cs :: Seen(t, o.pattern, lo, hi) >= o.count
  {
    if cs != [] {
      var front, last := cs[..|cs| - 1], cs[|cs| - 1];
      NothingRemains(front, t, lo, hi);
      assert cs == front + [last];
    }
  }

  lemma EmptyBefore(debts: seq<seq<Condition>>, t: Trace, a: nat, j: nat, n: nat)
    requires a < j <= n <= |t| == |debts| && Left(debts, t, a, j, n) == []
    ensures Left(debts, t, a, j - 1, n) == [] && AllRemaining(debts[j - 1], t, j, n) == []
  {
    hide AllRemaining;
    assert |Left(debts, t, a, j, n)| == |Left(debts, t, a, j - 1, n)| + |AllRemaining(debts[j - 1], t, j, n)|;
  }

  lemma {:induction false} EmptyMeansMet(debts: seq<seq<Condition>>, t: Trace, a: nat, i: nat, j: nat, n: nat)
    requires a <= i < j <= n <= |t| == |debts| && Left(debts, t, a, j, n) == []
    ensures AllRemaining(debts[i], t, i + 1, n) == []
    decreases j
  {
    hide Left, AllRemaining;
    EmptyBefore(debts, t, a, j, n);
    if i < j - 1 {
      EmptyMeansMet(debts, t, a, i, j - 1, n);
    }
  }

  lemma {:induction false} MetMeansEmpty(debts: seq<seq<Condition>>, t: Trace, a: nat, j: nat, n: nat)
    requires a <= j <= n <= |t| == |debts|
    requires forall i | a <= i < n :: AllRemaining(debts[i], t, i + 1, n) == []
    ensures Left(debts, t, a, j, n) == []
    decreases j
  {
    if j > a {
      MetMeansEmpty(debts, t, a, j - 1, n);
      assert AllRemaining(debts[j - 1], t, (j - 1) + 1, n) == [];
    }
  }

  lemma MetExactly(t: Trace, instances: nat, a: nat, j: nat, n: nat)
    requires a <= j < n <= |t| && Signals(t[a])
    ensures Met(t, instances, a, j, n) <==> AllRemaining(Debts(t, instances, a)[j], t, j + 1, n) == []
  {
    NothingRemains(Debts(t, instances, a)[j], t, j + 1, n);
  }

  /** The running account is empty exactly when everything owed has been seen. */
  lemma NothingLeft(t: Trace, instances: nat, a: nat, n: nat)
    requires a < n <= |t| && Signals(t[a])
    ensures Balance(t, instances, a, n) == [] <==> Discharged(t, instances, a, n)
  {
    var debts := Debts(t, instances, a);
    forall j | a <= j < n
      ensures Met(t, instances, a, j, n) <==> AllRemaining(debts[j], t, j + 1, n) == []
      ensures Balance(t, instances, a, n) == [] ==> AllRemaining(debts[j], t, j + 1, n) == []
    {
      MetExactly(t, instances, a, j, n);
      if Balance(t, instances, a, n) == [] {
        EmptyMeansMet(debts, t, a, j, n, n);
      }
    }
    if Discharged(t, instances, a, n) {
      MetMeansEmpty(debts, t, a, n, n);
    }
  }

  // ---------------------------------------------------------------- the waiter follows the specification

  lemma {:induction false} QueueOk(t: Trace, n: nat, instances: nat)
    requires n <= |t|
    ensures Accepted(t, n) <= |Queue(t, n)|
    ensures Replay(t, n, instances).current == Current(t, n)
    ensures Replay(t, n, instances).senders == Queue(t, n)[Accepted(t, n)..]
  {
    if n > 0 {
      QueueOk(t, n - 1, instances);
    }
  }

  /** The registered channels are exactly those that have arrived. */
  lemma {:induction false} MailKnown(t: Trace, n: nat, instances: nat, tx: Sender)
    requires n <= |t|
    ensures tx in Replay(t, n, instances).mail <==> exists i | 0 <= i < n :: t[i] == NewSender(tx)
  {
    if n > 0 {
      MailKnown(t, n - 1, instances, tx);
      if t[n - 1] == NewSender(tx) {
        assert tx in Replay(t, n, instances).mail;
      }
      assert tx in Replay(t, n, instances).mail <==>
             tx in Replay(t, n - 1, instances).mail || t[n - 1] == NewSender(tx);
    }
  }

  lemma {:induction false} ReplayInv(t: Trace, n: nat, instances: nat)
    requires n <= |t| && FreshSenders(t)
    ensures ViewInv(Replay(t, n, instances))
  {
    if n > 0 {
      ReplayInv(t, n - 1, instances);
      var v := Replay(t, n - 1, instances);
      match t[n - 1] {
        case NewSender(tx) => MailKnown(t, n - 1, instances, tx); RegisterKeepsInv(v, tx);
        case Traced(a) => ProcessKeepsInv(v, instances, a);
        case OtherSignal =>
      }
    }
  }

  lemma RegisterKeepsInv(v: View, tx: Sender)
    requires ViewInv(v) && tx !in v.mail
    ensures ViewInv(Registered(v, tx))
  {
  }

  /** No Stop is in the channel of an active checker or of a queued sender. */
  ghost predicate Quiet(v: View)
    requires SendersApart(v)
  {
    && (forall c | c in v.checkers :: v.mail[v.checkers[c].tx] == 0)
    && (forall i | 0 <= i < |v.senders| :: v.mail[v.senders[i]] == 0)
  }

  /** What the checks do to one checker and its channel. */
  lemma RunChecksOwn(u: View, x: Action, c: Call)
    requires SendersApart(u) && c in u.checkers
    ensures var w, k := RunChecks(u, x), u.checkers[c];
            if Survives(k, x) then
              && c in w.checkers && w.checkers[c] == k.(conditions := Advance(k.conditions, x))
              && w.mail[k.tx] == u.mail[k.tx]
            else
              && c !in w.checkers
              && w.mail[k.tx] == u.mail[k.tx] + 1
  {
    var fired := Fired(u.checkers, u.checkers.Keys, x);
    assert c in fired <==> !Survives(u.checkers[c], x);
  }

  /** A channel that no checker writes to is left alone. */
  lemma RunChecksOther(u: View, x: Action, tx: Sender)
    requires tx in u.mail && forall c | c in u.checkers :: u.checkers[c].tx != tx
    ensures RunChecks(u, x).mail[tx] == u.mail[tx]
  {
  }

  lemma AttributeQuiet(v: View, instances: nat, x: Action)
    requires ViewInv(v) && Quiet(v)
    ensures SendersApart(Attribute(v, instances, x)) && Quiet(Attribute(v, instances, x))
  {
    AttributeOk(v, instances, x);
  }

  lemma ChecksQuiet(u: View, x: Action)
    requires SendersApart(u) && Quiet(u) && SendersApart(RunChecks(u, x))
    ensures Quiet(RunChecks(u, x))
  {
    var w := RunChecks(u, x);
    forall c | c in w.checkers
      ensures w.mail[w.checkers[c].tx] == 0
    {
      RunChecksOwn(u, x, c);
    }
    forall i | 0 <= i < |w.senders|
      ensures w.mail[w.senders[i]] == 0
    {
      RunChecksOther(u, x, u.senders[i]);
    }
  }

  lemma {:induction false} ReplayQuiet(t: Trace, n: nat, instances: nat)
    requires n <= |t| && FreshSenders(t)
    ensures ViewInv(Replay(t, n, instances)) && Quiet(Replay(t, n, instances))
  {
    ReplayInv(t, n, instances);
    if n > 0 {
      ReplayQuiet(t, n - 1, instances);
      var v := Replay(t, n - 1, instances);
      if t[n - 1].Traced? {
        AttributeQuiet(v, instances, t[n - 1].action);
        ChecksQuiet(Attribute(v, instances, t[n - 1].action), t[n - 1].action);
      }
    }
  }

  lemma AttributeOwn(v: View, instances: nat, x: Action, c: Call)
    requires !(x.SignalZomeFunctionCall? && x.call == c)
    ensures var u := Attribute(v, instances, x);
            && u.mail == v.mail
            && (c in u.checkers <==> c in v.checkers)
            && (c in v.checkers ==>
                  u.checkers[c] == v.checkers[c].(conditions :=
                    v.checkers[c].conditions + if v.current == Some(c) then Obligations(x, instances) else []))
  {
    if c in v.checkers {
      assert v.checkers[c].conditions + [] == v.checkers[c].conditions;
    }
  }

  lemma DoneStep(t: Trace, instances: nat, a: nat, n: nat)
    requires a < n < |t| && Signals(t[a])
    ensures Done(t, instances, a, n + 1) <==> Done(t, instances, a, n) || Discharged(t, instances, a, n + 1)
  {
  }

  /** How the waiter stands to an accepted call, given whether it is done and what it still owes. */
  ghost predicate Stands(v: View, c: Call, tx: Sender, done: bool, balance: seq<Condition>) {
    && tx in v.mail && tx !in v.senders
    && (c in v.checkers <==> !done)
    && (c in v.checkers ==> v.checkers[c] == Checker(tx, balance))
    && v.mail[tx] == if done then 1 else 0
  }

  lemma StandsAccepted(v: View, instances: nat, x: Action)
    requires ViewInv(v) && Quiet(v) && x.SignalZomeFunctionCall? && v.senders != []
    ensures Stands(ProcessTrace(v, instances, x), x.call, v.senders[0], false, [Condition(1, Returns(x.call))])
  {
    AttributeQuiet(v, instances, x);
    var u := Attribute(v, instances, x);
    AdvanceOne(Condition(1, Returns(x.call)), x);
    RunChecksOwn(u, x, x.call);
  }

  lemma StandsTraced(v: View, instances: nat, x: Action, c: Call, tx: Sender, done: bool,
                     balance: seq<Condition>, owed: seq<Condition>)
    requires ViewInv(v) && Quiet(v) && !(x.SignalZomeFunctionCall? && x.call == c)
    requires Stands(v, c, tx, done, balance)
    requires owed == if v.current == Some(c) then Obligations(x, instances) else []
    ensures var left := Advance(balance + owed, x);
            Stands(ProcessTrace(v, instances, x), c, tx, done || left == [], left)
  {
    AttributeQuiet(v, instances, x);
    AttributeOwn(v, instances, x, c);
    var u := Attribute(v, instances, x);
    if c in v.checkers {
      assert u.checkers[c] == Checker(tx, balance + owed);
      assert balance + owed != [] by { assert |balance + owed| == |balance| + |owed|; }
      RunChecksOwn(u, x, c);
    } else {
      RunChecksOther(u, x, tx);
    }
  }

  lemma StandsRegistered(v: View, c: Call, tx: Sender, done: bool, balance: seq<Condition>, new': Sender)
    requires Stands(v, c, tx, done, balance) && new' !in v.mail
    ensures Stands(Registered(v, new'), c, tx, done, balance)
  {
  }

  /** The waiter after `n` events, and the call accepted by event `a`. */
  ghost predicate Status(t: Trace, instances: nat, a: nat, n: nat)
    requires a < n <= |t| && Accepts(t, a)
  {
    Stands(Replay(t, n, instances), t[a].action.call, SenderOf(t, a),
           Done(t, instances, a, n), Balance(t, instances, a, n))
  }

  lemma FirstBalance(t: Trace, instances: nat, a: nat)
    requires a < |t| && Signals(t[a])
    ensures Balance(t, instances, a, a + 1) == [Condition(1, Returns(t[a].action.call))]
    ensures !Done(t, instances, a, a + 1)
  {
    var owed := Owed(t, instances, a, a);
    BalanceStep(t, instances, a, a);
    assert Balance(t, instances, a, a) + owed == owed;
    AdvanceOne(Condition(1, Returns(t[a].action.call)), t[a].action);
    NothingLeft(t, instances, a, a + 1);
  }

  lemma AcceptStatus(t: Trace, instances: nat, a: nat)
    requires a < |t| && Accepts(t, a) && FreshSenders(t)
    ensures Status(t, instances, a, a + 1)
  {
    ReplayQuiet(t, a, instances);
    var v, x := Replay(t, a, instances), t[a].action;
    assert v.senders != [] && v.senders[0] == SenderOf(t, a) by { QueueOk(t, a, instances); }
    StandsAccepted(v, instances, x);
    assert Replay(t, a + 1, instances) == ProcessTrace(v, instances, x);
    FirstBalance(t, instances, a);
  }

  lemma DoneIsEmpty(t: Trace, instances: nat, a: nat, n: nat)
    requires a < n < |t| && Signals(t[a])
    ensures Done(t, instances, a, n + 1) <==> Done(t, instances, a, n) || Balance(t, instances, a, n + 1) == []
  {
    hide *;
    DoneStep(t, instances, a, n);
    NothingLeft(t, instances, a, n + 1);
  }

  lemma TracedStatus(t: Trace, instances: nat, a: nat, n: nat)
    requires a < n < |t| && Accepts(t, a) && FreshSenders(t) && DistinctCalls(t)
    requires t[n].Traced? && Status(t, instances, a, n)
    ensures Status(t, instances, a, n + 1)
  {
    ReplayQuiet(t, n, instances);
    QueueOk(t, n, instances);
    DoneIsEmpty(t, instances, a, n);
    BalanceStep(t, instances, a, n);
    StandsTraced(Replay(t, n, instances), instances, t[n].action, t[a].action.call, SenderOf(t, a),
                 Done(t, instances, a, n), Balance(t, instances, a, n), Owed(t, instances, a, n));
  }

  lemma OtherStatus(t: Trace, instances: nat, a: nat, n: nat)
    requires a < n < |t| && Accepts(t, a) && FreshSenders(t)
    requires !t[n].Traced? && Status(t, instances, a, n)
    ensures Status(t, instances, a, n + 1)
  {
    var v, balance := Replay(t, n, instances), Balance(t, instances, a, n);
    DoneIsEmpty(t, instances, a, n);
    BalanceStep(t, instances, a, n);
    assert balance + [] == balance;
    NothingLeft(t, instances, a, n);
    if t[n].NewSender? {
      MailKnown(t, n, instances, t[n].tx);
      StandsRegistered(v, t[a].action.call, SenderOf(t, a), Done(t, instances, a, n), balance, t[n].tx);
    }
  }

  lemma StatusStep(t: Trace, instances: nat, a: nat, n: nat)
    requires a < n < |t| && Accepts(t, a) && FreshSenders(t) && DistinctCalls(t)
    requires Status(t, instances, a, n)
    ensures Status(t, instances, a, n + 1)
  {
    if t[n].Traced? {
      TracedStatus(t, instances, a, n);
    } else {
      OtherStatus(t, instances, a, n);
    }
  }

  lemma {:induction false} StatusHolds(t: Trace, instances: nat, a: nat, n: nat)
    requires a < n <= |t| && Accepts(t, a) && FreshSenders(t) && DistinctCalls(t)
    ensures Status(t, instances, a, n)
  {
    if n == a + 1 {
      AcceptStatus(t, instances, a);
    } else {
      StatusHolds(t, instances, a, n - 1);
      StatusStep(t, instances, a, n - 1);
    }
  }

  lemma QueuedAtAcceptance(t: Trace, instances: nat, a: nat)
    requires a < |t| && Accepts(t, a) && FreshSenders(t)
    ensures SenderOf(t, a) in Replay(t, a, instances).mail
  {
    QueueOk(t, a, instances);
    ReplayInv(t, a, instances);
    assert Replay(t, a, instances).senders[0] == SenderOf(t, a);
  }

  lemma MailAfter(t: Trace, instances: nat, a: nat, n: nat)
    requires a < n <= |t| && Accepts(t, a) && FreshSenders(t) && DistinctCalls(t)
    ensures var mail := Replay(t, n, instances).mail;
            SenderOf(t, a) in mail && mail[SenderOf(t, a)] == if Done(t, instances, a, n) then 1 else 0
  {
    StatusHolds(t, instances, a, n);
  }

  /**
    The waiter sends Stop for a call at exactly the first position where everything the call owes has
    been seen.
   */
  lemma StopsAtFirstDischarge(t: Trace, instances: nat, a: nat, n: nat)
    requires a < n <= |t| && Accepts(t, a) && FreshSenders(t) && DistinctCalls(t)
    ensures var before, after, tx := Replay(t, n - 1, instances).mail, Replay(t, n, instances).mail, SenderOf(t, a);
            && tx in before && tx in after
            && (before[tx] == 0 && after[tx] == 1 <==>
                  Discharged(t, instances, a, n) && forall m | a < m < n :: !Discharged(t, instances, a, m))
  {
    hide Discharged, Replay, SenderOf;
    MailAfter(t, instances, a, n);
    if n == a + 1 {
      FirstBalance(t, instances, a);
      QueuedAtAcceptance(t, instances, a);
    } else {
      MailAfter(t, instances, a, n - 1);
      DoneStep(t, instances, a, n - 1);
    }
  }

  /** Until then the call is active and its checker holds exactly what is still owed. */
  lemma ActiveUntilDischarge(t: Trace, instances: nat, a: nat, n: nat)
    requires a < n <= |t| && Accepts(t, a) && FreshSenders(t) && DistinctCalls(t)
    ensures var checkers, c := Replay(t, n, instances).checkers, t[a].action.call;
            && (c in checkers <==> forall m | a < m <= n :: !Discharged(t, instances, a, m))
            && (c in checkers ==> checkers[c] == Checker(SenderOf(t, a), Balance(t, instances, a, n)))
  {
    StatusHolds(t, instances, a, n);
  }

  // ---------------------------------------------------------------- conservation

  ghost predicate AcceptedSender(t: Trace, n: nat, tx: Sender)
    requires n <= |t|
  {
    exists a | 0 <= a < n && Accepts(t, a) :: SenderOf(t, a) == tx
  }

  ghost predicate Active(v: View, tx: Sender) {
    exists c | c in v.checkers :: v.checkers[c].tx == tx
  }

  /** A registered sender that was not handed out is still queued. */
  lemma {:induction false} StillQueued(t: Trace, n: nat, instances: nat, tx: Sender)
    requires n <= |t| && tx in Replay(t, n, instances).mail && !AcceptedSender(t, n, tx)
    ensures tx in Replay(t, n, instances).senders
  {
    MailKnown(t, n, instances, tx);
    QueueStep(t, n - 1, instances);
    var v, w := Replay(t, n - 1, instances), Replay(t, n, instances);
    hide Replay, Accepts, SenderOf;
    if t[n - 1] == NewSender(tx) {
      assert w.senders[|v.senders|] == tx;
    } else {
      MailKnown(t, n - 1, instances, tx);
      StillQueued(t, n - 1, instances, tx);
      var i :| 0 <= i < |v.senders| && v.senders[i] == tx;
      if Accepts(t, n - 1) {
        assert i > 0 && w.senders[i - 1] == tx;
      } else {
        assert w.senders[i] == tx;
      }
    }
  }

  /** What one event does to the queue of senders. */
  lemma QueueStep(t: Trace, n: nat, instances: nat)
    requires n < |t|
    ensures var v, w := Replay(t, n, instances), Replay(t, n + 1, instances);
            && (t[n].NewSender? ==> w.senders == v.senders + [t[n].tx])
            && (Accepts(t, n) ==> v.senders != [] && v.senders[0] == SenderOf(t, n) && w.senders == v.senders[1..])
            && (!t[n].NewSender? && !Accepts(t, n) ==> w.senders == v.senders)
  {
    QueueOk(t, n, instances);
    hide RunChecks;
  }

  /** Every accepted sender is either active or has had exactly one Stop; no other sender has had any. */
  lemma StopConservation(t: Trace, n: nat, instances: nat, tx: Sender)
    requires n <= |t| && FreshSenders(t) && DistinctCalls(t)
    requires tx in Replay(t, n, instances).mail
    ensures var v := Replay(t, n, instances);
            && v.mail[tx] <= 1
            && (AcceptedSender(t, n, tx) <==> v.mail[tx] == 1 || Active(v, tx))
            && !(v.mail[tx] == 1 && Active(v, tx))
            && Post(v.mail, v.checkers, v.checkers.Keys)[tx] == if AcceptedSender(t, n, tx) then 1 else 0
  {
    var v := Replay(t, n, instances);
    ReplayQuiet(t, n, instances);
    assert Active(v, tx) ==> v.mail[tx] == 0;
    if AcceptedSender(t, n, tx) {
      var a :| 0 <= a < n && Accepts(t, a) && SenderOf(t, a) == tx;
      StatusHolds(t, instances, a, n);
      assert t[a].action.call in v.checkers ==> Active(v, tx);
    } else {
      StillQueued(t, n, instances, tx);
      assert !Active(v, tx);
    }
  }

  /**
    `MainBackgroundTask::perform`: the events until the conductor stops it, then the shutdown, after
    which every accepted sender has exactly one Stop. When the signal channel is closed instead, it
    returns an error and the calls that are still active get no Stop. No other sender ever gets one.
   */
  method Perform(t: Trace, instances: nat, closed: bool) returns (task: WaiterTask, ok: bool)
    requires FreshSenders(t) && DistinctCalls(t)
    ensures ok == !closed
    ensures forall tx :: NewSender(tx) in t ==> tx in task.mail
    ensures forall tx | tx in task.mail ::
              task.mail[tx] ==
              if AcceptedSender(t, |t|, tx) && !(closed && Active(Replay(t, |t|, instances), tx)) then 1 else 0
  {
    hide ViewInv, AcceptedSender, Active, Attribute, RunChecks;
    task := new WaiterTask(instances);
    for i := 0 to |t|
      invariant fresh(task) && task.Valid() && task.instances == instances
      invariant task.Abs() == Replay(t, i, instances)
    {
      match t[i] {
        case NewSender(tx) =>
          MailKnown(t, i, instances, tx);
          task.Register(tx);
        case Traced(a) => task.ProcessSignal(a);
        case OtherSignal =>
      }
    }
    ok := !closed;
    ghost var v := task.Abs();
    if !closed {
      task.Shutdown();
    }
    forall tx | tx in task.mail
      ensures task.mail[tx] ==
              if AcceptedSender(t, |t|, tx) && !(closed && Active(Replay(t, |t|, instances), tx)) then 1 else 0
    {
      StopConservation(t, |t|, instances, tx);
    }
    forall tx | NewSender(tx) in t
      ensures tx in v.mail
    {
      MailKnown(t, |t|, instances, tx);
    }
  }

  /** For any number of instances, zero included, no count is decremented below zero and no checker is empty. */
  lemma CountsNeverUnderflow(t: Trace, n: nat, instances: nat)
    requires n < |t| && FreshSenders(t) && t[n].Traced?
    ensures var u := Attribute(Replay(t, n, instances), instances, t[n].action);
            forall c | c in u.checkers ::
              u.checkers[c].conditions != [] && NoUnderflow(u.checkers[c].conditions, t[n].action)
    ensures forall c | c in Replay(t, n, instances).checkers :: Replay(t, n, instances).checkers[c].conditions != []
  {
    ReplayInv(t, n, instances);
    AttributeOk(Replay(t, n, instances), instances, t[n].action);
  }

  // ---------------------------------------------------------------- confluence

  predicate CreatesObligations(a: Action) {
    a.SignalZomeFunctionCall? || a.Commit? || a.AddPendingValidation?
  }

  lemma NothingAttributed(v: View, instances: nat, x: Action)
    requires !CreatesObligations(x)
    ensures Attribute(v, instances, x) == v
  {
    if HasChecker(v) {
      var c := v.current.value;
      assert v.checkers[c].conditions + [] == v.checkers[c].conditions;
      assert v.checkers[c := v.checkers[c]] == v.checkers;
    }
  }

  lemma OneCommutes(o: Condition, x: Action, y: Action)
    ensures Advance(Advanced(o, x), y) == Advance(Advanced(o, y), x)
  {
    AdvanceTwice(o, x, y);
    AdvanceTwice(o, y, x);
  }

  /** The count drops by one for each of the two that matches. */
  lemma AdvanceTwice(o: Condition, x: Action, y: Action)
    ensures var seen := (if Matches(o.pattern, x) then 1 else 0) + (if Matches(o.pattern, y) then 1 else 0);
            Advance(Advanced(o, x), y) == Remaining(o, seen)
  {
    hide Advance, Matches;
    if Advanced(o, x) == [] {
      AdvanceNone(y);
    } else {
      AdvanceOne(Advanced(o, x)[0], y);
    }
  }

  lemma AdvanceNone(a: Action)
    ensures Advance([], a) == []
  {
  }

  lemma {:induction false} AdvanceCommutes(cs: seq<Condition>, x: Action, y: Action)
    ensures Advance(Advance(cs, x), y) == Advance(Advance(cs, y), x)
  {
    if cs != [] {
      var front, last := cs[..|cs| - 1], cs[|cs| - 1];
      AdvanceCommutes(front, x, y);
      OneCommutes(last, x, y);
      AdvanceConcat(Advance(front, x), Advanced(last, x), y);
      AdvanceConcat(Advance(front, y), Advanced(last, y), x);
    }
  }

  lemma ChecksKeepInv(v: View, x: Action)
    requires ViewInv(v)
    ensures ViewInv(RunChecks(v, x))
  {
    forall c | c in v.checkers
      ensures Positive(Advance(v.checkers[c].conditions, x))
    {
      AdvancePositive(v.checkers[c].conditions, x);
    }
  }

  /** One call under two actions: it survives both with the same conditions in either order. */
  lemma CallCommutes(v: View, x: Action, y: Action, c: Call)
    requires ViewInv(v) && c in v.checkers
    ensures var xy, k := RunChecks(RunChecks(v, x), y), v.checkers[c];
            && (c in xy.checkers <==> Advance(Advance(k.conditions, x), y) != [])
            && (c in xy.checkers ==> xy.checkers[c] == k.(conditions := Advance(Advance(k.conditions, x), y)))
            && xy.mail[k.tx] == v.mail[k.tx] + if c in xy.checkers then 0 else 1
  {
    hide Advance;
    var u, k := RunChecks(v, x), v.checkers[c];
    ChecksKeepInv(v, x);
    RunChecksOwn(v, x, c);
    if c in u.checkers {
      RunChecksOwn(u, y, c);
    } else {
      AdvanceNone(y);
      RunChecksOther(u, y, k.tx);
    }
  }

  lemma ChannelCommutes(v: View, x: Action, y: Action, tx: Sender)
    requires ViewInv(v) && tx in v.mail
    ensures RunChecks(RunChecks(v, x), y).mail[tx] == RunChecks(RunChecks(v, y), x).mail[tx]
  {
    if c :| c in v.checkers && v.checkers[c].tx == tx {
      CallCommutes(v, x, y, c);
      CallCommutes(v, y, x, c);
      AdvanceCommutes(v.checkers[c].conditions, x, y);
    } else {
      RunChecksOther(v, x, tx);
      RunChecksOther(v, y, tx);
      RunChecksOther(RunChecks(v, x), y, tx);
      RunChecksOther(RunChecks(v, y), x, tx);
    }
  }

  ghost predicate SameAt<K, V>(m: map<K, V>, n: map<K, V>, k: K) {
    (k in m <==> k in n) && (k in m ==> m[k] == n[k])
  }

  lemma SameMap<K, V>(m: map<K, V>, n: map<K, V>, keys: set<K>)
    requires m.Keys <= keys && n.Keys <= keys && forall k | k in keys :: SameAt(m, n, k)
    ensures m == n
  {
    assert forall k | k in keys :: SameAt(m, n, k);
  }

  lemma CheckerCommutes(v: View, x: Action, y: Action, c: Call)
    requires ViewInv(v) && c in v.checkers
    ensures SameAt(RunChecks(RunChecks(v, x), y).checkers, RunChecks(RunChecks(v, y), x).checkers, c)
  {
    CallCommutes(v, x, y, c);
    CallCommutes(v, y, x, c);
    AdvanceCommutes(v.checkers[c].conditions, x, y);
  }

  lemma NoNewCheckers(v: View, x: Action, y: Action)
    ensures RunChecks(RunChecks(v, x), y).checkers.Keys <= v.checkers.Keys
  {
  }

  lemma CheckersCommute(v: View, x: Action, y: Action)
    requires ViewInv(v)
    ensures RunChecks(RunChecks(v, x), y).checkers == RunChecks(RunChecks(v, y), x).checkers
  {
    forall c | c in v.checkers.Keys
      ensures SameAt(RunChecks(RunChecks(v, x), y).checkers, RunChecks(RunChecks(v, y), x).checkers, c)
    {
      CheckerCommutes(v, x, y, c);
    }
    NoNewCheckers(v, x, y);
    NoNewCheckers(v, y, x);
    SameMap(RunChecks(RunChecks(v, x), y).checkers, RunChecks(RunChecks(v, y), x).checkers, v.checkers.Keys);
  }

  lemma MailCommutes(v: View, x: Action, y: Action)
    requires ViewInv(v)
    ensures RunChecks(RunChecks(v, x), y).mail == RunChecks(RunChecks(v, y), x).mail
  {
    forall tx | tx in v.mail
      ensures RunChecks(RunChecks(v, x), y).mail[tx] == RunChecks(RunChecks(v, y), x).mail[tx]
    {
      ChannelCommutes(v, x, y, tx);
    }
  }

  lemma ChecksCommute(v: View, x: Action, y: Action)
    requires ViewInv(v)
    ensures RunChecks(RunChecks(v, x), y) == RunChecks(RunChecks(v, y), x)
  {
    CheckersCommute(v, x, y);
    MailCommutes(v, x, y);
  }

  lemma {:induction false} SamePrefix(t: Trace, u: Trace, n: nat, instances: nat)
    requires n <= |t| && n <= |u| && t[..n] == u[..n]
    ensures Replay(t, n, instances) == Replay(u, n, instances)
  {
    if n > 0 {
      assert t[..n][..n - 1] == t[..n - 1] && u[..n][..n - 1] == u[..n - 1];
      assert t[n - 1] == t[..n][n - 1] == u[n - 1];
      SamePrefix(t, u, n - 1, instances);
    }
  }

  lemma {:induction false} SameSuffix(t: Trace, u: Trace, m: nat, n: nat, instances: nat)
    requires m <= n <= |t| == |u| && Replay(t, m, instances) == Replay(u, m, instances)
    requires forall i | m <= i < n :: t[i] == u[i]
    ensures Replay(t, n, instances) == Replay(u, n, instances)
    decreases n
  {
    if n > m {
      SameSuffix(t, u, m, n - 1, instances);
    }
  }

  lemma TwoChecks(t: Trace, i: nat, instances: nat)
    requires i + 2 <= |t| && t[i].Traced? && t[i + 1].Traced?
    requires !CreatesObligations(t[i].action) && !CreatesObligations(t[i + 1].action)
    ensures Replay(t, i + 2, instances) ==
            RunChecks(RunChecks(Replay(t, i, instances), t[i].action), t[i + 1].action)
  {
    var v, x, y := Replay(t, i, instances), t[i].action, t[i + 1].action;
    NothingAttributed(v, instances, x);
    assert Replay(t, i + 1, instances) == RunChecks(v, x);
    NothingAttributed(RunChecks(v, x), instances, y);
  }

  ghost predicate Swapped(t: Trace, u: Trace, i: nat) {
    && i + 2 <= |t| == |u| && u[i] == t[i + 1] && u[i + 1] == t[i]
    && forall j | 0 <= j < |t| && j != i && j != i + 1 :: u[j] == t[j]
  }

  /** Swapping two neighbouring actions that create no obligations never changes the outcome. */
  lemma Confluence(t: Trace, u: Trace, i: nat, n: nat, instances: nat)
    requires i + 2 <= n <= |t| && Swapped(t, u, i) && FreshSenders(t)
    requires t[i].Traced? && t[i + 1].Traced?
    requires !CreatesObligations(t[i].action) && !CreatesObligations(t[i + 1].action)
    ensures Replay(t, n, instances) == Replay(u, n, instances)
  {
    hide RunChecks, Replay;
    assert t[..i] == u[..i];
    SamePrefix(t, u, i, instances);
    ReplayInv(t, i, instances);
    ChecksCommute(Replay(t, i, instances), t[i].action, t[i + 1].action);
    TwoChecks(t, i, instances);
    TwoChecks(u, i, instances);
    SameSuffix(t, u, i + 2, n, instances);
  }
}
