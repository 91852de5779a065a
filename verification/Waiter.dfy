/**
  The test conductor's waiter: it watches the trace of actions, attributes wait conditions to the
  current zome call and sends Stop to a call's sender when the last of its conditions is met.
 */
module Waiter {

  import opened Wrappers

  type Address = nat
  type Link = nat
  type Call = nat     // a ZomeFnCall, identified by its process-unique id
  type Sender = nat   // the sending half of a control channel

  /** Entries compare by address. */
  datatype Entry =
    | App(addr: Address)
    | Deletion(addr: Address, deleted: Address)
    | LinkAdd(addr: Address, link: Link)
    | LinkRemove(addr: Address, link: Link)
    | OtherEntry(addr: Address)

  datatype Workflow = HoldEntry | HoldLink

  datatype Action =
    | SignalZomeFunctionCall(call: Call)
    | ReturnZomeFunctionResult(call: Call)
    | Commit(entry: Entry, update: Option<Address>)
    | Hold(entry: Entry)
    | UpdateEntry(base: Address, successor: Address)
    | RemoveEntry(target: Address, deletion: Address)
    | AddLink(link: Link)
    | RemoveLink(link: Link)
    | AddPendingValidation(addr: Address, workflow: Workflow)
    | RemovePendingValidation(addr: Address, workflow: Workflow)
    | OtherAction(tag: nat)

  /** The predicates that conditions are made of. */
  datatype Pattern = Returns(call: Call) | Holds(addr: Address) | Is(action: Action)

  predicate Matches(p: Pattern, a: Action) {
    match p
    case Returns(call) => a == ReturnZomeFunctionResult(call)
    case Holds(addr) => a.Hold? && a.entry.addr == addr
    case Is(b) => a == b
  }

  datatype Condition = Condition(count: nat, pattern: Pattern)

  datatype Checker = Checker(tx: Sender, conditions: seq<Condition>)

  // ---------------------------------------------------------------- conditions

  /** What an action obliges the current call to wait for, besides its own return. */
  function Obligations(a: Action, instances: nat): seq<Condition> {
    match a
    case Commit(e, update) =>
      [Condition(instances, Holds(e.addr))] +
      (match e
       case App(addr) =>
         if update.Some? then [Condition(instances, Is(UpdateEntry(update.value, addr)))] else []
       case Deletion(addr, deleted) => [Condition(instances, Is(RemoveEntry(deleted, addr)))]
       case LinkAdd(_, link) => [Condition(instances, Is(AddLink(link)))]
       case LinkRemove(_, link) => [Condition(instances, Is(RemoveLink(link)))]
       case OtherEntry(_) => [])
    case AddPendingValidation(addr, workflow) => [Condition(1, Is(RemovePendingValidation(addr, workflow)))]
    case _ => []
  }

  /** An action never meets a condition that it has itself created, so a zero count is never decremented. */
  lemma OwnActionNeverMatches(a: Action, instances: nat)
    ensures forall o | o in Obligations(a, instances) :: !Matches(o.pattern, a)
  {
  }

  /** A condition after one more action; a satisfied condition is dropped. */
  function Advanced(o: Condition, a: Action): seq<Condition> {
    var count := if Matches(o.pattern, a) && o.count > 0 then o.count - 1 else o.count;
    if count == 0 then [] else [Condition(count, o.pattern)]
  }

  function Advance(cs: seq<Condition>, a: Action): seq<Condition> {
    if cs == [] then [] else Advance(cs[..|cs| - 1], a) + Advanced(cs[|cs| - 1], a)
  }

  predicate Positive(cs: seq<Condition>) {
    forall i | 0 <= i < |cs| :: cs[i].count > 0
  }

  /** The decrement in `CallFxCondition::run` cannot underflow on these conditions. */
  predicate NoUnderflow(cs: seq<Condition>, a: Action) {
    forall i | 0 <= i < |cs| :: Matches(cs[i].pattern, a) ==> cs[i].count > 0
  }

  lemma {:induction false} AdvancePositive(cs: seq<Condition>, a: Action)
    ensures Positive(Advance(cs, a))
  {
    if cs != [] {
      AdvancePositive(cs[..|cs| - 1], a);
    }
  }

  /** Advancing the first `i + 1` conditions, or none. */
  lemma NextAdvance(cs: seq<Condition>, i: nat, a: Action)
    ensures Advance([], a) == []
    ensures i < |cs| ==> Advance(cs[..i + 1], a) == Advance(cs[..i], a) + Advanced(cs[i], a)
  {
    if i < |cs| {
      assert cs[..i + 1][..i] == cs[..i];
    }
  }

  lemma AdvanceOne(o: Condition, a: Action)
    ensures Advance([o], a) == Advanced(o, a)
  {
    assert [o][..0] == [];
    assert Advance([o], a) == Advance([o][..0], a) + Advanced(o, a);
  }

  lemma {:induction false} AdvanceConcat(cs: seq<Condition>, ds: seq<Condition>, a: Action)
    ensures Advance(cs + ds, a) == Advance(cs, a) + Advance(ds, a)
  {
    if ds == [] {
      assert cs + ds == cs;
    } else {
      var front, last := ds[..|ds| - 1], ds[|ds| - 1];
      calc {
        Advance(cs + ds, a);
        { assert (cs + ds)[..|cs + ds| - 1] == cs + front; }
        Advance(cs + front, a) + Advanced(last, a);
        { AdvanceConcat(cs, front, a); }
        (Advance(cs, a) + Advance(front, a)) + Advanced(last, a);
        Advance(cs, a) + (Advance(front, a) + Advanced(last, a));
        Advance(cs, a) + Advance(ds, a);
      }
    }
  }

  // ---------------------------------------------------------------- the waiter as a value

  /** `mail` counts the Stop messages in the control channel of every registered sender. */
  datatype View = View(
    checkers: map<Call, Checker>, current: Option<Call>, senders: seq<Sender>, mail: map<Sender, nat>)

  /** `run_checks` on one checker: it stays unless its last condition was just met. */
  predicate Survives(k: Checker, a: Action) {
    Advance(k.conditions, a) != [] || k.conditions == []
  }

  /** The checkers among `calls` that stay after the action. */
  function Kept(checkers: map<Call, Checker>, calls: set<Call>, a: Action): map<Call, Checker> {
    map c | c in calls && c in checkers && Survives(checkers[c], a) ::
      checkers[c].(conditions := Advance(checkers[c].conditions, a))
  }

  /** The checkers among `calls` whose last condition was just met. */
  function Fired(checkers: map<Call, Checker>, calls: set<Call>, a: Action): set<Call> {
    set c | c in calls && c in checkers && !Survives(checkers[c], a)
  }

  /** Every checker among `calls` sends one Stop. */
  function Post(mail: map<Sender, nat>, checkers: map<Call, Checker>, calls: set<Call>): map<Sender, nat> {
    map tx | tx in mail :: mail[tx] + if exists c | c in calls && c in checkers :: checkers[c].tx == tx then 1 else 0
  }

  function RunChecks(v: View, a: Action): View {
    v.(checkers := Kept(v.checkers, v.checkers.Keys, a),
       mail := Post(v.mail, v.checkers, Fired(v.checkers, v.checkers.Keys, a)))
  }

  lemma PostOneMore(mail: map<Sender, nat>, checkers: map<Call, Checker>, calls: set<Call>, c: Call)
    requires c in checkers && c !in calls && checkers[c].tx in mail
    requires forall d | d in checkers && d != c :: checkers[d].tx != checkers[c].tx
    ensures var before := Post(mail, checkers, calls);
            Post(mail, checkers, calls + {c}) == before[checkers[c].tx := before[checkers[c].tx] + 1]
  {
    assert c in calls + {c};
    assert forall d | d in calls :: d in calls + {c};
  }

  lemma SurvivorOneMore(checkers: map<Call, Checker>, calls: set<Call>, c: Call, a: Action)
    requires c in checkers && c !in calls && Survives(checkers[c], a)
    ensures Kept(checkers, calls + {c}, a) ==
            Kept(checkers, calls, a)[c := checkers[c].(conditions := Advance(checkers[c].conditions, a))]
    ensures Fired(checkers, calls + {c}, a) == Fired(checkers, calls, a)
  {
  }

  lemma FiredOneMore(checkers: map<Call, Checker>, calls: set<Call>, c: Call, a: Action)
    requires c in checkers && c !in calls && !Survives(checkers[c], a)
    ensures Kept(checkers, calls + {c}, a) == Kept(checkers, calls, a)
    ensures Fired(checkers, calls + {c}, a) == Fired(checkers, calls, a) + {c}
  {
  }

  lemma StopOneMore(mail: map<Sender, nat>, checkers: map<Call, Checker>, calls: set<Call>, c: Call, a: Action)
    requires c in checkers && c !in calls && checkers[c].tx in mail && !Survives(checkers[c], a)
    requires forall d | d in checkers && d != c :: checkers[d].tx != checkers[c].tx
    ensures Kept(checkers, calls + {c}, a) == Kept(checkers, calls, a)
    ensures var before := Post(mail, checkers, Fired(checkers, calls, a));
            && checkers[c].tx in before
            && Post(mail, checkers, Fired(checkers, calls + {c}, a)) ==
               before[checkers[c].tx := before[checkers[c].tx] + 1]
  {
    FiredOneMore(checkers, calls, c, a);
    PostOneMore(mail, checkers, Fired(checkers, calls, a), c);
  }

  lemma NoneYet(mail: map<Sender, nat>, checkers: map<Call, Checker>, a: Action)
    ensures Kept(checkers, {}, a) == map[] && Post(mail, checkers, Fired(checkers, {}, a)) == mail
  {
    assert Fired(checkers, {}, a) == {};
    assert Post(mail, checkers, {}) == mail;
  }

  function HasChecker(v: View): bool {
    v.current.Some? && v.current.value in v.checkers
  }

  /** The conditions that an action adds before the checks run. */
  function Attribute(v: View, instances: nat, a: Action): View {
    if a.SignalZomeFunctionCall? then
      if v.senders != [] then
        v.(checkers := v.checkers[a.call := Checker(v.senders[0], [Condition(1, Returns(a.call))])],
           current := Some(a.call), senders := v.senders[1..])
      else v.(current := None)
    else if HasChecker(v) then
      var k := v.checkers[v.current.value];
      v.(checkers := v.checkers[v.current.value := k.(conditions := k.conditions + Obligations(a, instances))])
    else v
  }

  function Registered(v: View, tx: Sender): View {
    v.(senders := v.senders + [tx], mail := v.mail[tx := 0])
  }

  function ProcessTrace(v: View, instances: nat, a: Action): View {
    RunChecks(Attribute(v, instances, a), a)
  }

  /** No two checkers or queued senders share a channel. */
  ghost predicate SendersApart(v: View) {
    && (forall c, d | c in v.checkers && d in v.checkers && c != d :: v.checkers[c].tx != v.checkers[d].tx)
    && (forall c | c in v.checkers :: v.checkers[c].tx !in v.senders && v.checkers[c].tx in v.mail)
    && (forall i | 0 <= i < |v.senders| :: v.senders[i] in v.mail)
    && (forall i, j | 0 <= i < j < |v.senders| :: v.senders[i] != v.senders[j])
  }

  /** No active checker is empty or holds a satisfied condition. */
  ghost predicate ViewInv(v: View) {
    && SendersApart(v)
    && (forall c | c in v.checkers :: v.checkers[c].conditions != [] && Positive(v.checkers[c].conditions))
  }

  lemma AttributeOk(v: View, instances: nat, a: Action)
    requires ViewInv(v)
    ensures var u := Attribute(v, instances, a);
            && SendersApart(u)
            && (forall c | c in u.checkers ::
                  u.checkers[c].conditions != [] && NoUnderflow(u.checkers[c].conditions, a))
  {
    hide Attribute, SendersApart, NoUnderflow, Positive;
    AttributeApart(v, instances, a);
    AttributeOwes(v, instances, a);
  }

  lemma AttributeApart(v: View, instances: nat, a: Action)
    requires SendersApart(v)
    ensures SendersApart(Attribute(v, instances, a))
  {
    hide Obligations;
  }

  lemma AttributeOwes(v: View, instances: nat, a: Action)
    requires forall c | c in v.checkers :: v.checkers[c].conditions != [] && Positive(v.checkers[c].conditions)
    ensures var u := Attribute(v, instances, a);
            forall c | c in u.checkers ::
              u.checkers[c].conditions != [] && NoUnderflow(u.checkers[c].conditions, a)
  {
    hide Obligations, Matches;
    OwnActionNeverMatches(a, instances);
  }

  lemma {:induction false} ProcessKeepsInv(v: View, instances: nat, a: Action)
    requires ViewInv(v)
    ensures ViewInv(ProcessTrace(v, instances, a))
  {
    AttributeOk(v, instances, a);
    var u := Attribute(v, instances, a);
    forall c | c in u.checkers
      ensures Positive(Advance(u.checkers[c].conditions, a))
    {
      AdvancePositive(u.checkers[c].conditions, a);
    }
  }

  // ---------------------------------------------------------------- the waiter in place

  class WaiterTask {
    const instances: nat
    var checkers: map<Call, Checker>
    var current: Option<Call>
    var senders: seq<Sender>
    var mail: map<Sender, nat>

    ghost function Abs(): View
      reads this
    {
      View(checkers, current, senders, mail)
    }

    ghost predicate Valid()
      reads this
    {
      ViewInv(Abs())
    }

    constructor (instances: nat)
      ensures Valid() && Abs() == View(map[], None, [], map[]) && this.instances == instances
    {
      this.instances := instances;
      checkers, current, senders, mail := map[], None, [], map[];
    }

    /** `CallFxChecker::run_checks`, without the Stop: the loop over the conditions and the `retain`. */
    method RunConditions(cs: seq<Condition>, a: Action) returns (kept: seq<Condition>)
      requires NoUnderflow(cs, a)
      ensures kept == Advance(cs, a)
    {
      hide Matches, Advance;
      var run: seq<Condition> := [];
      NextAdvance(cs, 0, a);
      for i := 0 to |cs|
        invariant |run| == i
        invariant forall j | 0 <= j < i ::
                    run[j] == if Matches(cs[j].pattern, a) then cs[j].(count := cs[j].count - 1) else cs[j]
      {
        var o := cs[i];
        if Matches(o.pattern, a) {
          o := o.(count := o.count - 1);
        }
        run := run + [o];
      }
      kept := [];
      for i := 0 to |run|
        invariant kept == Advance(cs[..i], a)
      {
        NextAdvance(cs, i, a);
        if run[i].count != 0 {
          kept := kept + [run[i]];
        }
      }
      assert cs[..|cs|] == cs;
    }

    /** `Waiter::run_checks`: every checker runs once, in an unspecified order. */
    method RunAllChecks(a: Action)
      requires SendersApart(Abs())
      requires forall c | c in checkers :: checkers[c].conditions != [] && NoUnderflow(checkers[c].conditions, a)
      modifies this`checkers, this`mail
      ensures Abs() == RunChecks(old(Abs()), a)
    {
      hide Kept, Fired, Post, Advance;
      var all, todo, kept, box := checkers, checkers.Keys, map[], mail;
      NoneYet(mail, all, a);
      ghost var calls := {};
      while todo != {}
        invariant calls == all.Keys - todo && todo <= all.Keys
        invariant kept == Kept(all, calls, a)
        invariant box == Post(mail, all, Fired(all, calls, a))
        modifies {}
        decreases todo
      {
        var c :| c in todo;
        var conditions := RunConditions(all[c].conditions, a);
        if conditions == [] {
          StopOneMore(mail, all, calls, c, a);
          box := box[all[c].tx := box[all[c].tx] + 1];
        } else {
          SurvivorOneMore(all, calls, c, a);
          kept := kept[c := all[c].(conditions := conditions)];
        }
        todo, calls := todo - {c}, calls + {c};
      }
      assert calls == all.Keys;
      checkers, mail := kept, box;
    }

    /** A control sender arrives on `sender_rx`; its channel is new and empty. */
    method Register(tx: Sender)
      requires Valid() && tx !in mail
      modifies this`senders, this`mail
      ensures Valid() && Abs() == Registered(old(Abs()), tx)
    {
      senders := senders + [tx];
      mail := mail[tx := 0];
    }

    /** `process_signal` on a trace signal; other signals change nothing. */
    method ProcessSignal(a: Action)
      requires Valid()
      modifies this`checkers, this`current, this`senders, this`mail
      ensures Valid() && Abs() == ProcessTrace(old(Abs()), instances, a)
    {
      hide ViewInv, SendersApart, NoUnderflow, RunChecks, Obligations;
      ghost var v := Abs();
      if a.SignalZomeFunctionCall? {
        if senders != [] {
          var sender := senders[0];
          senders := senders[1..];
          checkers := checkers[a.call := Checker(sender, [])];
          current := Some(a.call);
          checkers := checkers[a.call := Checker(sender, [Condition(1, Returns(a.call))])];
        } else {
          current := None;
        }
      } else if current.Some? && current.value in checkers {
        var k := checkers[current.value];
        checkers := checkers[current.value := k.(conditions := k.conditions + Obligations(a, instances))];
      }
      assert Abs() == Attribute(v, instances, a);
      AttributeOk(v, instances, a);
      RunAllChecks(a);
      ProcessKeepsInv(v, instances, a);
    }

    /** The loop at the end of `MainBackgroundTask::perform`: every remaining checker is stopped. */
    method Shutdown()
      requires Valid()
      modifies this`checkers, this`mail
      ensures checkers.Keys == old(checkers.Keys) && senders == old(senders)
      ensures mail == Post(old(mail), old(checkers), old(checkers).Keys)
    {
      var all, todo, box := checkers, checkers.Keys, mail;
      assert Post(mail, all, {}) == mail;
      ghost var calls := {};
      while todo != {}
        invariant calls == all.Keys - todo && todo <= all.Keys
        invariant box == Post(mail, all, calls)
        modifies {}
        decreases todo
      {
        var c :| c in todo;
        PostOneMore(mail, all, calls, c);
        box := box[all[c].tx := box[all[c].tx] + 1];
        todo, calls := todo - {c}, calls + {c};
      }
      assert calls == all.Keys;
      checkers := map c | c in all :: all[c].(conditions := []);
      mail := box;
    }
  }
}
