/** The order in which payment events arrive and are handled does not matter. */
module SettlementConfluence {
  import opened Bytes
  import opened Settlement
  import opened SettlementRuns

  /** The run creates nothing: only events are delivered and handled in it. */
  predicate EventsOnly(actions: seq<Action>) {
    forall a <- actions :: a.Deliver? || a.Lookup? || a.SettleLocked?
  }

  /** The payment hashes delivered in a run. */
  function Delivered(actions: seq<Action>): set<Text> {
    set a | a in actions && a.Deliver? :: a.hash
  }

  /** The payment hashes of the handlers still at work. */
  function AtWork(s: State): set<Text> {
    set t | t in s.handlers && !s.handlers[t].Handled? :: s.handlers[t].hash
  }

  /** A session once the given hashes have been paid. */
  function PayOne(cfg: Config, store: Store, paid: set<Text>, x: AccessSession): AccessSession {
    if && x.paymentHash in paid
       && x.paymentHash in store.index
       && x.status.Pending?
       && Renders(cfg, x.paymentHash, x)
    then Settle(cfg, x.paymentHash, x)
    else x
  }

  /** The store once the given hashes have been paid: each indexed, pending and renderable session with one of
      them is settled with its own token; nothing else changes. */
  function PayAll(cfg: Config, store: Store, paid: set<Text>): Store {
    store.(sessions := map id | id in store.sessions :: PayOne(cfg, store, paid, store.sessions[id]))
  }

  lemma PayUnindexed(cfg: Config, store: Store, paid: set<Text>, h: Text)
    requires h !in store.index
    ensures PayAll(cfg, store, paid + {h}) == PayAll(cfg, store, paid)
  {
  }

  lemma PayOneSettled(cfg: Config, store: Store, x: AccessSession, paid: set<Text>, h: Text)
    requires x.paymentHash == h && h in store.index && x.status.Pending? && Renders(cfg, h, x)
    ensures PayOne(cfg, store, paid, Settle(cfg, h, x)) == PayOne(cfg, store, paid + {h}, x)
  {
  }

  lemma SamePayments(cfg: Config, store: Store, store': Store, paid: set<Text>, paid': set<Text>)
    requires store'.index == store.index && store'.sessions.Keys == store.sessions.Keys
    requires forall k :: k in store.sessions ==>
               PayOne(cfg, store', paid', store'.sessions[k]) == PayOne(cfg, store, paid, store.sessions[k])
    ensures PayAll(cfg, store', paid') == PayAll(cfg, store, paid)
  {
  }

  lemma PayAfterSettlingOne(cfg: Config, s: State, paid: set<Text>, h: Text, id: Text, k: Text)
    requires Inv(cfg, s) && h in s.store.index && s.store.index[h] == id && k in s.store.sessions
    ensures var store' := SettleSession(cfg, s.store, h, id);
            && k in store'.sessions
            && PayOne(cfg, store', paid, store'.sessions[k]) == PayOne(cfg, s.store, paid + {h}, s.store.sessions[k])
  {
    SettleFrame(cfg, s.store, h, id);
    if k == id {
      PayAfterSettlingSame(cfg, s.store, paid, h, id);
    } else {
      assert s.issued[s.store.sessions[k].paymentHash] == k;
      assert s.issued[s.store.sessions[id].paymentHash] == id;
      PayOther(cfg, s.store, SettleSession(cfg, s.store, h, id), paid, h, s.store.sessions[k]);
    }
  }

  lemma PayOther(cfg: Config, store: Store, store': Store, paid: set<Text>, h: Text, x: AccessSession)
    requires store'.index == store.index && x.paymentHash != h
    ensures PayOne(cfg, store', paid, x) == PayOne(cfg, store, paid + {h}, x)
  {
  }

  lemma PayAfterSettlingSame(cfg: Config, store: Store, paid: set<Text>, h: Text, id: Text)
    requires h in store.index && id in store.sessions && store.sessions[id].paymentHash == h
    ensures var store' := SettleSession(cfg, store, h, id);
            PayOne(cfg, store', paid, store'.sessions[id]) == PayOne(cfg, store, paid + {h}, store.sessions[id])
  {
    if CanSettle(cfg, store, h, id) {
      PayOneSettled(cfg, store, store.sessions[id], paid, h);
    }
  }

  /** Settling one session first and paying the rest later is paying all of them. */
  lemma PayAfterSettling(cfg: Config, s: State, paid: set<Text>, h: Text, id: Text)
    requires Inv(cfg, s) && h in s.store.index && s.store.index[h] == id
    ensures PayAll(cfg, SettleSession(cfg, s.store, h, id), paid) == PayAll(cfg, s.store, paid + {h})
  {
    SettleFrame(cfg, s.store, h, id);
    forall k | k in s.store.sessions
      ensures var store' := SettleSession(cfg, s.store, h, id);
              PayOne(cfg, store', paid, store'.sessions[k]) == PayOne(cfg, s.store, paid + {h}, s.store.sessions[k])
    {
      PayAfterSettlingOne(cfg, s, paid, h, id, k);
    }
    SamePayments(cfg, s.store, SettleSession(cfg, s.store, h, id), paid + {h}, paid);
  }

  /** One handling step keeps the outcome: what will have been paid is what was pending before it. */
  lemma StepKeepsOutcome(cfg: Config, s: State, a: Action, later: set<Text>)
    requires Inv(cfg, s) && Enabled(s, a) && (a.Deliver? || a.Lookup? || a.SettleLocked?)
    ensures var s' := Step(cfg, s, a);
            var arriving := if a.Deliver? then {a.hash} else {};
            PayAll(cfg, s'.store, AtWork(s') + later) == PayAll(cfg, s.store, AtWork(s) + arriving + later)
  {
    var arriving := if a.Deliver? then {a.hash} else {};
    if a.Deliver? {
      DeliverKeepsOutcome(cfg, s, a, later);
    } else {
      var h, rest := s.handlers[a.task].hash, AtWork(Step(cfg, s, a)) + later;
      HandlingFrees(cfg, s, a);
      assert rest + {h} == AtWork(s) + arriving + later;
      if a.SettleLocked? {
        PayAfterSettling(cfg, s, rest, h, s.handlers[a.task].id);
      } else {
        LookupKeepsOutcome(cfg, s, a.task, rest);
      }
    }
  }

  lemma DeliverKeepsOutcome(cfg: Config, s: State, a: Action, later: set<Text>)
    requires Enabled(s, a) && a.Deliver?
    ensures Step(cfg, s, a).store == s.store
    ensures AtWork(Step(cfg, s, a)) + later == AtWork(s) + {a.hash} + later
  {
    HandlerMoves(s, Step(cfg, s, a), a.task);
  }

  lemma HandlingFrees(cfg: Config, s: State, a: Action)
    requires Enabled(s, a) && (a.Lookup? || a.SettleLocked?)
    ensures AtWork(Step(cfg, s, a)) + {s.handlers[a.task].hash} == AtWork(s)
  {
    HandlerMoves(s, Step(cfg, s, a), a.task);
  }

  lemma LookupKeepsOutcome(cfg: Config, s: State, task: nat, rest: set<Text>)
    requires Enabled(s, Lookup(task)) && AtWork(Step(cfg, s, Lookup(task))) <= rest
    ensures PayAll(cfg, s.store, rest) == PayAll(cfg, s.store, rest + {s.handlers[task].hash})
  {
    var h, s' := s.handlers[task].hash, Step(cfg, s, Lookup(task));
    if h !in s.store.index {
      PayUnindexed(cfg, s.store, rest, h);
    } else {
      assert task in s'.handlers && !s'.handlers[task].Handled? && s'.handlers[task].hash == h;
      assert rest == rest + {h};
    }
  }

  /** Moving one handler changes the hashes at work by its own hash at most. */
  lemma HandlerMoves(s: State, s': State, task: nat)
    requires task in s'.handlers
    requires forall t :: t != task ==> (t in s'.handlers <==> t in s.handlers)
    requires forall t :: t in s.handlers && t != task ==> s'.handlers[t] == s.handlers[t]
    requires task in s.handlers ==> !s.handlers[task].Handled? && s'.handlers[task].hash == s.handlers[task].hash
    requires task !in s.handlers ==> !s'.handlers[task].Handled?
    ensures AtWork(s') + {s'.handlers[task].hash} == AtWork(s) + {s'.handlers[task].hash}
    ensures task in s.handlers ==> s.handlers[task].hash in AtWork(s)
    ensures !s'.handlers[task].Handled? ==> s'.handlers[task].hash in AtWork(s')
  {
  }

  lemma PayNothing(cfg: Config, store: Store)
    ensures PayAll(cfg, store, {}) == store
  {
    assert PayAll(cfg, store, {}).sessions == store.sessions;
  }

  /** However a run of events ends with every handler finished, the store is the one before it with exactly the
      delivered hashes, and those already being handled, paid. */
  lemma {:induction false} OutcomeOfEvents(cfg: Config, s: State, actions: seq<Action>)
    requires Inv(cfg, s) && Possible(cfg, s, actions) && EventsOnly(actions)
    requires AtWork(Exec(cfg, s, actions)) == {}
    ensures Exec(cfg, s, actions).store == PayAll(cfg, s.store, AtWork(s) + Delivered(actions))
    decreases |actions|
  {
    if actions == [] {
      PayNothing(cfg, s.store);
      assert AtWork(s) + Delivered(actions) == {};
    } else {
      var a, rest := actions[0], actions[1..];
      assert a in actions && forall b <- rest :: b in actions;
      StepKeepsInv(cfg, s, a);
      OutcomeOfEvents(cfg, Step(cfg, s, a), rest);
      StepKeepsOutcome(cfg, s, a, Delivered(rest));
      DeliveredFirst(actions);
      var arriving := if a.Deliver? then {a.hash} else {};
      assert AtWork(s) + Delivered(actions) == AtWork(s) + arriving + Delivered(rest);
    }
  }

  lemma DeliveredFirst(actions: seq<Action>)
    requires actions != []
    ensures Delivered(actions) == (if actions[0].Deliver? then {actions[0].hash} else {}) + Delivered(actions[1..])
  {
    assert actions == [actions[0]] + actions[1..];
    assert forall b :: b in actions <==> b == actions[0] || b in actions[1..];
  }

  /** Two runs of events from the same reachable state that deliver the same hashes, in any order, any number
      of times and with any interleaving of their handlers, end in the same store. */
  lemma Confluence(cfg: Config, s: State, p: seq<Action>, q: seq<Action>)
    requires Reachable(cfg, s)
    requires Possible(cfg, s, p) && EventsOnly(p) && AtWork(Exec(cfg, s, p)) == {}
    requires Possible(cfg, s, q) && EventsOnly(q) && AtWork(Exec(cfg, s, q)) == {}
    requires Delivered(p) == Delivered(q)
    ensures Exec(cfg, s, p).store == Exec(cfg, s, q).store
  {
    ReachableInv(cfg, s);
    OutcomeOfEvents(cfg, s, p);
    OutcomeOfEvents(cfg, s, q);
  }
}
