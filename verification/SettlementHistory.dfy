/** What holds of the two maps, of sessions and of events over whole runs of the Lightning service. */
module SettlementHistory {
  import opened Bytes
  import opened Wrappers
  import opened CompactToken
  import opened Settlement
  import opened SettlementRuns

  // ----- Agreement of the two maps, in every reachable state -----

  /** Whatever interleaving led here: an index entry leads to the session with that hash; a stored session
      is missing from the index exactly while its creator is between its two inserts; and a handler that
      holds an id finds the session, whose hash is the hash of its event. */
  lemma IndexAgreement(cfg: Config, s: State)
    requires Reachable(cfg, s)
    ensures forall h :: h in s.store.index ==>
              s.store.index[h] in s.store.sessions && s.store.sessions[s.store.index[h]].paymentHash == h
    ensures forall id :: id in s.store.sessions ==>
              (LookupPayment(s.store, s.store.sessions[id].paymentHash) != Some(id) <==>
               exists t :: AwaitsIndex(s, t, s.store.sessions[id]))
    ensures forall t :: t in s.handlers && s.handlers[t].AtStore? ==>
              s.handlers[t].id in s.store.sessions && s.store.sessions[s.handlers[t].id].paymentHash == s.handlers[t].hash
  {
    ReachableInv(cfg, s);
    forall id | id in s.store.sessions
      ensures LookupPayment(s.store, s.store.sessions[id].paymentHash) != Some(id) <==>
              exists t :: AwaitsIndex(s, t, s.store.sessions[id])
    {
      var x := s.store.sessions[id];
      if x.paymentHash in s.store.index {
        var k := s.store.index[x.paymentHash];
        assert s.issued[s.store.sessions[k].paymentHash] == k && s.issued[x.paymentHash] == id;
        assert !exists t :: AwaitsIndex(s, t, x);
      }
    }
  }

  // ----- Settled once, forever -----

  /** What a later state keeps of an earlier one: no session or index entry disappears, no session changes
      its identity, and a settled session does not change at all. */
  ghost predicate Extends(store: Store, store': Store) {
    && (forall h :: h in store.index ==> h in store'.index && store'.index[h] == store.index[h])
    && (forall id :: id in store.sessions ==> id in store'.sessions && Fresh(store'.sessions[id]) == Fresh(store.sessions[id]))
    && (forall id :: id in store.sessions && store.sessions[id].status.Settled? ==> store'.sessions[id] == store.sessions[id])
  }

  lemma StepExtends(cfg: Config, s: State, a: Action)
    requires Inv(cfg, s) && Enabled(s, a)
    ensures Extends(s.store, Step(cfg, s, a).store)
  {
    if a.SettleLocked? {
      var AtStore(hash, id) := s.handlers[a.task];
      SettleFrame(cfg, s.store, hash, id);
    }
  }

  lemma {:induction false} RunExtends(cfg: Config, s: State, actions: seq<Action>)
    requires Inv(cfg, s) && Possible(cfg, s, actions)
    ensures Extends(s.store, Exec(cfg, s, actions).store)
    decreases |actions|
  {
    if actions != [] {
      StepKeepsInv(cfg, s, actions[0]);
      StepExtends(cfg, s, actions[0]);
      RunExtends(cfg, Step(cfg, s, actions[0]), actions[1..]);
    }
  }

  /** Once a status read reports a settled invoice, every later read gives the very same response; and an
      invoice that was found once is always found. */
  lemma SettledForever(cfg: Config, s: State, actions: seq<Action>, id: Text)
    requires Reachable(cfg, s) && Possible(cfg, s, actions)
    requires CheckInvoice(s.store, id).Ok?
    ensures var earlier, later := CheckInvoice(s.store, id), CheckInvoice(Exec(cfg, s, actions).store, id);
            && later.Ok? && later.value.expiresAt == earlier.value.expiresAt
            && (earlier.value.status.Settled? ==> later == earlier)
  {
    ReachableInv(cfg, s);
    RunExtends(cfg, s, actions);
    var x, y := s.store.sessions[id], Exec(cfg, s, actions).store.sessions[id];
    assert Fresh(x).expiresAt == x.expiresAt && Fresh(y).expiresAt == y.expiresAt;
  }

  /** Every session a run can reach has all of its artifacts or none, and a settled one holds the token for
      its own payment hash and expiry with that token's QR codes. */
  lemma SettledHoldsItsToken(cfg: Config, s: State, id: Text)
    requires Reachable(cfg, s) && id in s.store.sessions
    ensures var x := s.store.sessions[id];
            && AllOrNothing(x)
            && (x.status.Settled? ==>
                  && x.accessToken == Some(InvoiceToken(cfg, x.paymentHash, x))
                  && x.accessQrPng == cfg.qr.png(x.accessToken.value)
                  && x.accessQrAscii == cfg.qr.ascii(x.accessToken.value))
  {
    ReachableInv(cfg, s);
    var x := s.store.sessions[id];
    SettleKeepsSound(cfg, x);
    assert PayloadFor(cfg, x.paymentHash, x) == PayloadFor(cfg, x.paymentHash, Fresh(x));
  }

  /** What a status read answers, in every reachable state: an unknown id is not found; a pending session is reported
      as pending, with nothing else; a settled one is reported as settled, with the compact token for its payment hash,
      its expiry and the event, and with the two QR forms of that token. */
  lemma StatusReadExactly(cfg: Config, s: State, id: Text)
    requires Reachable(cfg, s)
    ensures id !in s.store.sessions ==> CheckInvoice(s.store, id) == Err(NotFound)
    ensures id in s.store.sessions ==>
              var x := s.store.sessions[id];
              var token := SignCompactPayload(CompactPayload(x.paymentHash, x.expiresAt, cfg.eventId), cfg.key);
              CheckInvoice(s.store, id) ==
                if x.status.Pending? then
                  Ok(StatusResponse(Pending, x.expiresAt, None, None, None))
                else
                  Ok(StatusResponse(Settled, x.expiresAt, Some(token), cfg.qr.png(token), cfg.qr.ascii(token)))
  {
    if id in s.store.sessions {
      SettledHoldsItsToken(cfg, s, id);
    }
  }

  // ----- Which events settle -----

  lemma StepOfHolder(cfg: Config, s: State, a: Action, task: nat, hash: Text, id: Text)
    requires Inv(cfg, s) && Enabled(s, a)
    requires task in s.handlers && s.handlers[task] == AtStore(hash, id)
    requires Renders(cfg, hash, Fresh(s.store.sessions[id]))
    ensures var s' := Step(cfg, s, a);
            && id in s'.store.sessions && task in s'.handlers
            && Fresh(s'.store.sessions[id]) == Fresh(s.store.sessions[id])
            && (if a == SettleLocked(task) then s'.store.sessions[id].status.Settled?
                else s'.handlers[task] == AtStore(hash, id))
  {
    StepExtends(cfg, s, a);
    SettleKeepsSound(cfg, s.store.sessions[id]);
  }

  lemma {:induction false} RenderableSettles(cfg: Config, s: State, actions: seq<Action>, task: nat, hash: Text, id: Text)
    requires Inv(cfg, s) && Possible(cfg, s, actions)
    requires task in s.handlers && s.handlers[task] == AtStore(hash, id)
    requires task in Exec(cfg, s, actions).handlers && Exec(cfg, s, actions).handlers[task].Handled?
    requires Renders(cfg, hash, Fresh(s.store.sessions[id]))
    ensures id in Exec(cfg, s, actions).store.sessions && Exec(cfg, s, actions).store.sessions[id].status.Settled?
    decreases |actions|
  {
    StepOfHolder(cfg, s, actions[0], task, hash, id);
    StepKeepsInv(cfg, s, actions[0]);
    if actions[0] == SettleLocked(task) {
      RunExtends(cfg, Step(cfg, s, actions[0]), actions[1..]);
    } else {
      RenderableSettles(cfg, Step(cfg, s, actions[0]), actions[1..], task, hash, id);
    }
  }

  /** An event whose handler found the invoice in the index leaves it settled, by whatever handler came
      first, exactly when the token can be rendered. */
  lemma FoundEventSettles(cfg: Config, s: State, actions: seq<Action>, task: nat, hash: Text, id: Text)
    requires Inv(cfg, s) && Possible(cfg, s, actions)
    requires task in s.handlers && s.handlers[task] == AtStore(hash, id)
    requires task in Exec(cfg, s, actions).handlers && Exec(cfg, s, actions).handlers[task].Handled?
    ensures id in Exec(cfg, s, actions).store.sessions
    ensures Exec(cfg, s, actions).store.sessions[id].status.Settled? <==>
            Renders(cfg, hash, Fresh(s.store.sessions[id]))
  {
    RunKeepsInv(cfg, s, actions);
    RunExtends(cfg, s, actions);
    var x := Exec(cfg, s, actions).store.sessions[id];
    assert Sound(cfg, x) && Fresh(x) == Fresh(s.store.sessions[id]);
    assert x.paymentHash == Fresh(x).paymentHash == hash;
    if Renders(cfg, hash, Fresh(s.store.sessions[id])) {
      RenderableSettles(cfg, s, actions, task, hash, id);
    }
  }

  /** A step of a run whose handler `task` has not read the index yet. */
  lemma StepBeforeLookup(cfg: Config, s: State, a: Action, task: nat, hash: Text)
    requires Inv(cfg, s) && Enabled(s, a) && hash in s.store.index
    requires task in s.handlers ==> s.handlers[task].AtLookup?
    requires a == Lookup(task) ==> s.handlers[task].hash == hash
    ensures var id, s' := s.store.index[hash], Step(cfg, s, a);
            && hash in s'.store.index && s'.store.index[hash] == id
            && id in s.store.sessions && id in s'.store.sessions
            && Fresh(s'.store.sessions[id]) == Fresh(s.store.sessions[id])
            && (task in s'.handlers ==>
                  if a == Lookup(task) then s'.handlers[task] == AtStore(hash, id) else s'.handlers[task].AtLookup?)
            && (a == Lookup(task) ==> task in s'.handlers)
  {
    StepExtends(cfg, s, a);
  }

  /** A handler keeps the hash of its event. */
  lemma {:induction false} HashStays(cfg: Config, s: State, actions: seq<Action>, task: nat)
    requires Possible(cfg, s, actions) && task in s.handlers
    ensures var end := Exec(cfg, s, actions);
            task in end.handlers && end.handlers[task].hash == s.handlers[task].hash
    decreases |actions|
  {
    if actions != [] {
      HashStays(cfg, Step(cfg, s, actions[0]), actions[1..], task);
    }
  }

  /** Nothing is lost once an invoice is indexed, which it is when `create_invoice` returns: an event whose handler
      starts later, or has yet to read the index, leaves it settled when it ends exactly when the token can be
      rendered. */
  lemma {:induction false} LaterEventSettles(cfg: Config, s: State, actions: seq<Action>, task: nat, hash: Text)
    requires Inv(cfg, s) && Possible(cfg, s, actions) && hash in s.store.index
    requires task in s.handlers ==> s.handlers[task].AtLookup?
    requires task in Exec(cfg, s, actions).handlers && Exec(cfg, s, actions).handlers[task] == Handled(hash)
    ensures var id, end := s.store.index[hash], Exec(cfg, s, actions);
            && id in s.store.sessions && id in end.store.sessions
            && (end.store.sessions[id].status.Settled? <==> Renders(cfg, hash, Fresh(s.store.sessions[id])))
    decreases |actions|
  {
    var a, rest := actions[0], actions[1..];
    StepKeepsInv(cfg, s, a);
    if a == Lookup(task) {
      HashStays(cfg, s, actions, task);
    }
    StepBeforeLookup(cfg, s, a, task, hash);
    if a == Lookup(task) {
      FoundEventSettles(cfg, Step(cfg, s, a), rest, task, hash, s.store.index[hash]);
    } else {
      LaterEventSettles(cfg, Step(cfg, s, a), rest, task, hash);
    }
  }

  /** Not every payment of a stored invoice is credited: whatever has happened before, an event for the next invoice
      may be read between the two inserts of its `create_invoice`; it is dropped, and with no further event the
      invoice is indexed and stays pending. */
  lemma EarlyEventIsLost(cfg: Config, s: State, begin: Action, task: nat)
    requires Reachable(cfg, s) && begin.BeginCreate? && Enabled(s, begin) && task !in s.handlers
    ensures var actions := [begin, StoreSession(begin.task), Deliver(task, begin.hash), Lookup(task), StoreIndex(begin.task)];
            && Possible(cfg, s, actions)
            && (var end := Exec(cfg, s, actions);
                && begin.task in end.creators && end.creators[begin.task] == Returned
                && task in end.handlers && end.handlers[task] == Handled(begin.hash)
                && LookupPayment(end.store, begin.hash) == Some(begin.id)
                && begin.id in end.store.sessions && end.store.sessions[begin.id].status.Pending?)
  {
    ReachableInv(cfg, s);
    BeginCreateIsFresh(s, begin);
    var c := begin.task;
    var s1 := Step(cfg, s, begin);
    var s2 := Step(cfg, s1, StoreSession(c));
    var s3 := Step(cfg, s2, Deliver(task, begin.hash));
    var s4 := Step(cfg, s3, Lookup(task));
    RunOfStep(cfg, s4, StoreIndex(c), []);
    RunOfStep(cfg, s3, Lookup(task), [StoreIndex(c)]);
    RunOfStep(cfg, s2, Deliver(task, begin.hash), [Lookup(task), StoreIndex(c)]);
    RunOfStep(cfg, s1, StoreSession(c), [Deliver(task, begin.hash), Lookup(task), StoreIndex(c)]);
    RunOfStep(cfg, s, begin, [StoreSession(c), Deliver(task, begin.hash), Lookup(task), StoreIndex(c)]);
  }
}
