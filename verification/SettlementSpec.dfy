/** What the two-lock protocol amounts to: one table of open invoices and one set of settled hashes, both
    changed atomically. Every interleaving of the protocol is a run of this specification. */
module SettlementSpec {
  import opened Bytes
  import opened Settlement
  import opened SettlementRuns

  // ----- The specification: settle by hash, once -----

  /** `open` holds each payable invoice as it was created. */
  datatype Ledger = Ledger(open: map<Text, AccessSession>, settled: set<Text>)

  const EMPTY_LEDGER := Ledger(map[], {})

  datatype Event = Open(session: AccessSession) | Pay(task: nat, hash: Text)

  function Apply(cfg: Config, l: Ledger, e: Event): Ledger {
    match e
    case Open(x) => l.(open := l.open[x.paymentHash := x])
    case Pay(_, h) => if h in l.open && Renders(cfg, h, l.open[h]) then l.(settled := l.settled + {h}) else l
  }

  function ApplyAll(cfg: Config, l: Ledger, trace: seq<Event>): Ledger
    decreases |trace|
  {
    if trace == [] then l else ApplyAll(cfg, Apply(cfg, l, trace[0]), trace[1..])
  }

  // ----- What a state of the protocol means, and where each task takes effect -----

  /** The payable invoices and the settled hashes of a store. */
  function Meaning(store: Store): Ledger
    requires forall h :: h in store.index ==> store.index[h] in store.sessions
  {
    Ledger(map h | h in store.index :: Fresh(store.sessions[store.index[h]]),
           set h | h in store.index && store.sessions[store.index[h]].status.Settled?)
  }

  /** A creation takes effect at its index insert. An event takes effect at the sessions lock if its hash was
      found, and at the index read if it was not. */
  function Effect(s: State, a: Action): seq<Event>
    requires Enabled(s, a)
  {
    match a
    case StoreIndex(task) => [Open(s.creators[task].session)]
    case Lookup(task) =>
      if s.handlers[task].hash in s.store.index then [] else [Pay(task, s.handlers[task].hash)]
    case SettleLocked(task) => [Pay(task, s.handlers[task].hash)]
    case _ => []
  }

  function Trace(cfg: Config, s: State, actions: seq<Action>): seq<Event>
    requires Possible(cfg, s, actions)
    decreases |actions|
  {
    if actions == [] then []
    else Effect(s, actions[0]) + Trace(cfg, Step(cfg, s, actions[0]), actions[1..])
  }

  // ----- Refinement -----

  lemma {:induction false} ApplyConcat(cfg: Config, l: Ledger, a: seq<Event>, b: seq<Event>)
    ensures ApplyAll(cfg, l, a + b) == ApplyAll(cfg, ApplyAll(cfg, l, a), b)
    decreases |a|
  {
    if a == [] {
      assert a + b == b;
    } else {
      ApplyConcat(cfg, Apply(cfg, l, a[0]), a[1..], b);
      assert (a + b)[1..] == a[1..] + b;
    }
  }

  lemma ChangedAtMeans(store: Store, store': Store, hash: Text, id: Text, settles: bool)
    requires IndexInjective(store)
    requires hash in store.index && store.index[hash] == id && SettledAt(store, store', id)
    requires store'.sessions[id].status.Settled? <==> settles
    requires store.sessions[id].status.Settled? ==> settles
    ensures IndexInjective(store')
    ensures Meaning(store').open == Meaning(store).open
    ensures Meaning(store').settled == Meaning(store).settled + (if settles then {hash} else {})
  {
    OpenUnchanged(store, store', id);
    forall h | h in store.index
      ensures h in Meaning(store').settled <==> h in Meaning(store).settled || (settles && h == hash)
    {
      assert h != hash ==> store.index[h] != id;
    }
  }

  lemma OpenUnchanged(store: Store, store': Store, id: Text)
    requires IndexInjective(store) && SettledAt(store, store', id)
    ensures IndexInjective(store') && Meaning(store').open == Meaning(store).open
  {
    assert forall k :: k in store.sessions ==> Fresh(store'.sessions[k]) == Fresh(store.sessions[k]);
  }

  predicate IndexInjective(store: Store) {
    && (forall h :: h in store.index ==> store.index[h] in store.sessions)
    && (forall h, k :: h in store.index && k in store.index && store.index[h] == store.index[k] ==> h == k)
  }

  lemma InvIndexInjective(cfg: Config, s: State)
    requires Inv(cfg, s)
    ensures IndexInjective(s.store)
  {
    assert forall h :: h in s.store.index ==> s.store.sessions[s.store.index[h]].paymentHash == h;
  }

  /** Settling one indexed session adds its hash to the settled hashes and touches nothing else. */
  lemma SettlingMeans(cfg: Config, s: State, task: nat, hash: Text, id: Text)
    requires Inv(cfg, s) && hash in s.store.index && s.store.index[hash] == id
    ensures var store' := SettleSession(cfg, s.store, hash, id);
            IndexInjective(store') && Meaning(store') == Apply(cfg, Meaning(s.store), Pay(task, hash))
  {
    InvIndexInjective(cfg, s);
    SettleFrame(cfg, s.store, hash, id);
    SettledIffRenders(cfg, s, hash, id);
    assert Sound(cfg, s.store.sessions[id]);
    ChangedAtMeans(s.store, SettleSession(cfg, s.store, hash, id), hash, id,
                   Renders(cfg, hash, Fresh(s.store.sessions[id])));
  }

  lemma IndexedInjective(store: Store, hash: Text, id: Text)
    requires IndexInjective(store) && id in store.sessions
    requires forall h :: h in store.index ==> store.index[h] != id
    ensures IndexInjective(InsertIndex(store, hash, id))
  {
  }

  lemma IndexedOpens(store: Store, x: AccessSession)
    requires IndexInjective(store) && IndexInjective(InsertIndex(store, x.paymentHash, x.invoiceId))
    requires x.invoiceId in store.sessions && store.sessions[x.invoiceId] == x == Fresh(x)
    ensures Meaning(InsertIndex(store, x.paymentHash, x.invoiceId)).open == Meaning(store).open[x.paymentHash := x]
  {
  }

  lemma IndexedSettlesNone(store: Store, x: AccessSession)
    requires IndexInjective(store) && IndexInjective(InsertIndex(store, x.paymentHash, x.invoiceId))
    requires x.paymentHash !in store.index && x.status.Pending?
    requires x.invoiceId in store.sessions && store.sessions[x.invoiceId] == x
    ensures Meaning(InsertIndex(store, x.paymentHash, x.invoiceId)).settled == Meaning(store).settled
  {
  }

  lemma IndexingMeans(cfg: Config, s: State, task: nat)
    requires Inv(cfg, s) && Enabled(s, StoreIndex(task))
    ensures var x := s.creators[task].session;
            var store' := InsertIndex(s.store, x.paymentHash, x.invoiceId);
            IndexInjective(store') && Meaning(store') == Apply(cfg, Meaning(s.store), Open(x))
  {
    InvIndexInjective(cfg, s);
    var x := s.creators[task].session;
    forall h | h in s.store.index ensures s.store.index[h] != x.invoiceId {
      assert s.store.sessions[s.store.index[h]].paymentHash == h;
    }
    IndexedInjective(s.store, x.paymentHash, x.invoiceId);
    IndexedOpens(s.store, x);
    IndexedSettlesNone(s.store, x);
  }

  lemma StoredMeans(store: Store, x: AccessSession)
    requires IndexInjective(store) && x.invoiceId !in store.sessions
    ensures IndexInjective(InsertSession(store, x)) && Meaning(InsertSession(store, x)) == Meaning(store)
  {
    StoredOpensNone(store, x);
    StoredSettlesNone(store, x);
  }

  lemma StoredOpensNone(store: Store, x: AccessSession)
    requires IndexInjective(store) && x.invoiceId !in store.sessions
    ensures IndexInjective(InsertSession(store, x)) && Meaning(InsertSession(store, x)).open == Meaning(store).open
  {
  }

  lemma StoredSettlesNone(store: Store, x: AccessSession)
    requires IndexInjective(store) && IndexInjective(InsertSession(store, x)) && x.invoiceId !in store.sessions
    ensures Meaning(InsertSession(store, x)).settled == Meaning(store).settled
  {
  }

  lemma StoringMeans(cfg: Config, s: State, task: nat)
    requires Inv(cfg, s) && Enabled(s, StoreSession(task))
    ensures var store' := InsertSession(s.store, s.creators[task].session);
            IndexInjective(store') && Meaning(store') == Meaning(s.store)
  {
    InvIndexInjective(cfg, s);
    StoredMeans(s.store, s.creators[task].session);
  }

  /** One step of the protocol is its effect on the specification. */
  lemma StepRefines(cfg: Config, s: State, a: Action)
    requires Inv(cfg, s) && Enabled(s, a)
    ensures Inv(cfg, Step(cfg, s, a))
    ensures Meaning(Step(cfg, s, a).store) == ApplyAll(cfg, Meaning(s.store), Effect(s, a))
  {
    StepKeepsInv(cfg, s, a);
    var l := Meaning(s.store);
    match a
    case StoreIndex(task) =>
      IndexingMeans(cfg, s, task);
      ApplyOne(cfg, l, Open(s.creators[task].session));
    case Lookup(task) =>
      ApplyOne(cfg, l, Pay(task, s.handlers[task].hash));
    case SettleLocked(task) =>
      var AtStore(h, id) := s.handlers[task];
      SettlingMeans(cfg, s, task, h, id);
      ApplyOne(cfg, l, Pay(task, h));
    case StoreSession(task) => StoringMeans(cfg, s, task);
    case _ =>
  }

  lemma ApplyOne(cfg: Config, l: Ledger, e: Event)
    ensures ApplyAll(cfg, l, [e]) == Apply(cfg, l, e)
  {
  }

  lemma {:induction false} RunRefines(cfg: Config, s: State, actions: seq<Action>)
    requires Inv(cfg, s) && Possible(cfg, s, actions)
    ensures Inv(cfg, Exec(cfg, s, actions))
    ensures Meaning(Exec(cfg, s, actions).store) == ApplyAll(cfg, Meaning(s.store), Trace(cfg, s, actions))
    decreases |actions|
  {
    if actions != [] {
      var s' := Step(cfg, s, actions[0]);
      StepRefines(cfg, s, actions[0]);
      RunRefines(cfg, s', actions[1..]);
      ApplyConcat(cfg, Meaning(s.store), Effect(s, actions[0]), Trace(cfg, s', actions[1..]));
    }
  }

  /** The index leads from the hash of the session to the session. */
  predicate IsIndexed(store: Store, id: Text)
    requires id in store.sessions
  {
    var h := store.sessions[id].paymentHash;
    h in store.index && store.index[h] == id
  }

  lemma UnindexedIsNew(cfg: Config, s: State, id: Text)
    requires Inv(cfg, s) && id in s.store.sessions && !IsIndexed(s.store, id)
    ensures s.store.sessions[id] == Fresh(s.store.sessions[id])
    ensures exists t :: AwaitsIndex(s, t, s.store.sessions[id])
  {
    var x := s.store.sessions[id];
    assert forall k :: k in s.store.sessions ==> s.issued[s.store.sessions[k].paymentHash] == k;
    assert forall h :: h in s.store.index ==> s.store.sessions[s.store.index[h]].paymentHash == h;
    assert x.paymentHash !in s.store.index;
    var t :| AwaitsIndex(s, t, x);
    assert s.creators[t].session == Fresh(s.creators[t].session);
  }

  /** Every run of the service from its start, however its tasks interleave, is a run of the atomic
      specification; and the store holds nothing else: an indexed session is exactly its invoice, settled
      or not as the specification says, and any other is as created and about to be indexed. */
  lemma ServiceRefinesLedger(cfg: Config, actions: seq<Action>)
    requires Possible(cfg, INITIAL, actions)
    ensures Inv(cfg, Exec(cfg, INITIAL, actions))
    ensures var store := Exec(cfg, INITIAL, actions).store;
            var ledger := ApplyAll(cfg, EMPTY_LEDGER, Trace(cfg, INITIAL, actions));
            && Meaning(store) == ledger
            && store.index.Keys == ledger.open.Keys
            && forall h :: h in ledger.open ==>
                 && (h in ledger.settled ==> Renders(cfg, h, ledger.open[h]))
                 && store.sessions[store.index[h]] ==
                      if h in ledger.settled then Settle(cfg, h, ledger.open[h]) else ledger.open[h]
    ensures var s := Exec(cfg, INITIAL, actions);
            forall id :: id in s.store.sessions && !IsIndexed(s.store, id) ==>
              && s.store.sessions[id] == Fresh(s.store.sessions[id])
              && exists t :: AwaitsIndex(s, t, s.store.sessions[id])
  {
    RunRefines(cfg, INITIAL, actions);
    assert Meaning(EMPTY_STORE) == EMPTY_LEDGER;
    var store := Exec(cfg, INITIAL, actions).store;
    assert forall h :: h in store.index ==> Sound(cfg, store.sessions[store.index[h]]);
    forall id | id in store.sessions && !IsIndexed(store, id)
      ensures store.sessions[id] == Fresh(store.sessions[id])
      ensures exists t :: AwaitsIndex(Exec(cfg, INITIAL, actions), t, store.sessions[id])
    {
      UnindexedIsNew(cfg, Exec(cfg, INITIAL, actions), id);
    }
  }

  // ----- Every event takes effect exactly once -----

  predicate IsPay(e: Event, task: nat) {
    e.Pay? && e.task == task
  }

  lemma StepHandlers(cfg: Config, s: State, a: Action, task: nat)
    requires Enabled(s, a)
    ensures var s' := Step(cfg, s, a);
            && (task in s.handlers ==> task in s'.handlers && s'.handlers[task].hash == s.handlers[task].hash)
            && (Done(s', task) <==> Done(s, task) || (exists e <- Effect(s, a) :: IsPay(e, task)))
            && (forall e <- Effect(s, a) :: IsPay(e, task) ==>
                  !Done(s, task) && task in s.handlers && e.hash == s.handlers[task].hash)
            && |Effect(s, a)| <= 1
  {
    if Effect(s, a) != [] {
      var e := Effect(s, a)[0];
      assert e in Effect(s, a) && forall f <- Effect(s, a) :: f == e;
    }
  }

  predicate Done(s: State, task: nat) {
    task in s.handlers && s.handlers[task].Handled?
  }

  /** In the trace of a run every handler that finished in it occurs, with the hash of its event; every other
      handler does not; and none occurs twice. */
  lemma {:induction false} EventsTakeEffectOnce(cfg: Config, s: State, actions: seq<Action>, task: nat)
    requires Possible(cfg, s, actions)
    ensures var trace, end := Trace(cfg, s, actions), Exec(cfg, s, actions);
            && (Done(s, task) ==> Done(end, task))
            && (task in s.handlers ==> task in end.handlers && end.handlers[task].hash == s.handlers[task].hash)
            && ((exists e <- trace :: IsPay(e, task)) <==> Done(end, task) && !Done(s, task))
            && (forall e <- trace :: IsPay(e, task) ==> e.hash == end.handlers[task].hash)
            && (forall i, j :: 0 <= i < j < |trace| && IsPay(trace[i], task) ==> !IsPay(trace[j], task))
    decreases |actions|
  {
    if actions != [] {
      var s' := Step(cfg, s, actions[0]);
      var first, rest := Effect(s, actions[0]), Trace(cfg, s', actions[1..]);
      StepHandlers(cfg, s, actions[0], task);
      EventsTakeEffectOnce(cfg, s', actions[1..], task);
      assert forall e :: e in first + rest <==> e in first || e in rest;
    }
  }

  // ----- Which invoices a trace settles -----

  /** The `j`-th event of the trace pays hash `h` while it is open and its token can be rendered. */
  predicate PaysOpen(cfg: Config, trace: seq<Event>, j: nat, h: Text)
    requires j < |trace|
  {
    var l := ApplyAll(cfg, EMPTY_LEDGER, trace[..j]);
    trace[j].Pay? && trace[j].hash == h && h in l.open && Renders(cfg, h, l.open[h])
  }

  /** A hash is settled exactly when some event paid it after it was opened. */
  lemma {:induction false} SettledExactly(cfg: Config, trace: seq<Event>, h: Text)
    ensures h in ApplyAll(cfg, EMPTY_LEDGER, trace).settled <==>
            exists j :: 0 <= j < |trace| && PaysOpen(cfg, trace, j, h)
    decreases |trace|
  {
    if trace != [] {
      var n := |trace| - 1;
      var init := trace[..n];
      SettledExactly(cfg, init, h);
      ApplyConcat(cfg, EMPTY_LEDGER, init, [trace[n]]);
      assert trace == init + [trace[n]];
      ApplyOne(cfg, ApplyAll(cfg, EMPTY_LEDGER, init), trace[n]);
      assert forall j :: 0 <= j < n ==> trace[..j] == init[..j] && trace[j] == init[j];
      assert forall j :: 0 <= j < n ==> PaysOpen(cfg, trace, j, h) == PaysOpen(cfg, init, j, h);
      if h in ApplyAll(cfg, EMPTY_LEDGER, trace).settled && h !in ApplyAll(cfg, EMPTY_LEDGER, init).settled {
        assert PaysOpen(cfg, trace, n, h);
      }
    }
  }

  /** When a payable invoice has been settled, exactly: some event for its hash took effect after its index insert,
      and its token can be rendered. Events that were read earlier do not count. */
  lemma InvoiceSettledExactly(cfg: Config, actions: seq<Action>, h: Text)
    requires Possible(cfg, INITIAL, actions) && h in Exec(cfg, INITIAL, actions).store.index
    ensures var store, trace := Exec(cfg, INITIAL, actions).store, Trace(cfg, INITIAL, actions);
            && store.index[h] in store.sessions
            && (store.sessions[store.index[h]].status.Settled? <==>
                exists j :: 0 <= j < |trace| && PaysOpen(cfg, trace, j, h))
  {
    ServiceRefinesLedger(cfg, actions);
    SettledExactly(cfg, Trace(cfg, INITIAL, actions), h);
  }
}
