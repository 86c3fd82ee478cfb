/** Every interleaving of invoice creations, payment events and status reads over the two locks: what
    each atomic step keeps, and what holds over whole runs. */
module SettlementRuns {
  import opened Bytes
  import opened Settlement

  // ----- Tasks and steps -----

  /** Where a `create_invoice` task stands; its session is already built. */
  datatype Creator = AtSessions(session: AccessSession) | AtIndex(session: AccessSession) | Returned

  /** Where a `handle_payment` task stands. */
  datatype Handler = AtLookup(hash: Text) | AtStore(hash: Text, id: Text) | Handled(hash: Text)

  /** `issued` records which payment hash was handed out with which invoice id. */
  datatype State = State(
    store: Store,
    creators: map<nat, Creator>,
    handlers: map<nat, Handler>,
    issued: map<Text, Text>)

  const INITIAL := State(EMPTY_STORE, map[], map[], map[])

  datatype Action =
    | BeginCreate(task: nat, id: Text, hash: Text, amountMsat: u64, expiresAt: u64, qrPng: bytes)
    | StoreSession(task: nat)
    | StoreIndex(task: nat)
    | Deliver(task: nat, hash: Text)
    | Lookup(task: nat)
    | SettleLocked(task: nat)

  /** The gateway's hash and the random id are unused; any event may be delivered at any time, known or
      unknown, first or repeated. */
  predicate Enabled(s: State, a: Action) {
    match a
    case BeginCreate(task, id, hash, _, _, _) =>
      task !in s.creators && hash !in s.issued && id !in s.issued.Values
    case StoreSession(task) => task in s.creators && s.creators[task].AtSessions?
    case StoreIndex(task) => task in s.creators && s.creators[task].AtIndex?
    case Deliver(task, hash) => task !in s.handlers
    case Lookup(task) => task in s.handlers && s.handlers[task].AtLookup?
    case SettleLocked(task) => task in s.handlers && s.handlers[task].AtStore?
  }

  function Step(cfg: Config, s: State, a: Action): State
    requires Enabled(s, a)
  {
    match a
    case BeginCreate(task, id, hash, amountMsat, expiresAt, qrPng) =>
      s.(creators := s.creators[task := AtSessions(NewSession(id, hash, amountMsat, expiresAt, qrPng))],
         issued := s.issued[hash := id])
    case StoreSession(task) =>
      var session := s.creators[task].session;
      s.(store := InsertSession(s.store, session), creators := s.creators[task := AtIndex(session)])
    case StoreIndex(task) =>
      var session := s.creators[task].session;
      s.(store := InsertIndex(s.store, session.paymentHash, session.invoiceId),
         creators := s.creators[task := Returned])
    case Deliver(task, hash) =>
      s.(handlers := s.handlers[task := AtLookup(hash)])
    case Lookup(task) =>
      var hash := s.handlers[task].hash;
      s.(handlers := s.handlers[task :=
           match LookupPayment(s.store, hash)
           case Some(id) => AtStore(hash, id)
           case None => Handled(hash)])
    case SettleLocked(task) =>
      var AtStore(hash, id) := s.handlers[task];
      s.(store := SettleSession(cfg, s.store, hash, id), handlers := s.handlers[task := Handled(hash)])
  }

  /** The actions can be taken one after the other. */
  predicate Possible(cfg: Config, s: State, actions: seq<Action>)
    decreases |actions|
  {
    actions == [] || (Enabled(s, actions[0]) && Possible(cfg, Step(cfg, s, actions[0]), actions[1..]))
  }

  function Exec(cfg: Config, s: State, actions: seq<Action>): State
    requires Possible(cfg, s, actions)
    decreases |actions|
  {
    if actions == [] then s else Exec(cfg, Step(cfg, s, actions[0]), actions[1..])
  }

  lemma RunOfStep(cfg: Config, s: State, a: Action, rest: seq<Action>)
    requires Enabled(s, a) && Possible(cfg, Step(cfg, s, a), rest)
    ensures Possible(cfg, s, [a] + rest) && Exec(cfg, s, [a] + rest) == Exec(cfg, Step(cfg, s, a), rest)
  {
    assert ([a] + rest)[1..] == rest;
  }

  ghost predicate Reachable(cfg: Config, s: State) {
    exists actions :: Possible(cfg, INITIAL, actions) && Exec(cfg, INITIAL, actions) == s
  }

  // ----- What every step keeps -----

  predicate InFlight(c: Creator) {
    !c.Returned?
  }

  /** The session as it was created. */
  function Fresh(x: AccessSession): AccessSession {
    NewSession(x.invoiceId, x.paymentHash, x.amountMsat, x.expiresAt, x.invoiceQrPng)
  }

  /** A session is as created, or as created and then settled for its own payment hash. */
  predicate Sound(cfg: Config, x: AccessSession) {
    || x == Fresh(x)
    || (Renders(cfg, x.paymentHash, Fresh(x)) && x == Settle(cfg, x.paymentHash, Fresh(x)))
  }

  /** Hashes and ids were handed out one for one, and every session and creator uses its own pair. */
  predicate IssuedAgree(s: State) {
    && (forall h, k :: h in s.issued && k in s.issued && s.issued[h] == s.issued[k] ==> h == k)
    && (forall id :: id in s.store.sessions ==>
          var x := s.store.sessions[id];
          x.invoiceId == id && x.paymentHash in s.issued && s.issued[x.paymentHash] == id)
    && (forall t :: t in s.creators && InFlight(s.creators[t]) ==>
          var x := s.creators[t].session;
          x == Fresh(x) && x.paymentHash in s.issued && s.issued[x.paymentHash] == x.invoiceId)
  }

  /** No two creators in flight hold the same hash, and none holds a hash already indexed. */
  predicate CreatorsAgree(s: State) {
    && (forall t, u :: t in s.creators && u in s.creators && InFlight(s.creators[t]) && InFlight(s.creators[u]) ==>
          s.creators[t].session.paymentHash == s.creators[u].session.paymentHash ==> t == u)
    && (forall t :: t in s.creators && InFlight(s.creators[t]) ==>
          var x := s.creators[t].session;
          && x.paymentHash !in s.store.index
          && if s.creators[t].AtSessions? then x.invoiceId !in s.store.sessions
             else x.invoiceId in s.store.sessions && s.store.sessions[x.invoiceId] == x)
  }

  /** Every index entry leads to a session with that payment hash. */
  predicate IndexAgrees(s: State) {
    forall h :: h in s.store.index ==>
      s.store.index[h] in s.store.sessions && s.store.sessions[s.store.index[h]].paymentHash == h
  }

  /** Between its two inserts, the creator of `x` has still to index it. */
  predicate AwaitsIndex(s: State, t: nat, x: AccessSession) {
    t in s.creators && s.creators[t] == AtIndex(x)
  }

  /** A session that is not indexed has a creator about to index it. */
  ghost predicate UnindexedAwaits(s: State) {
    forall id :: id in s.store.sessions && s.store.sessions[id].paymentHash !in s.store.index ==>
      exists t :: AwaitsIndex(s, t, s.store.sessions[id])
  }

  /** A handler holding an id holds the indexed one. */
  predicate HandlersAgree(s: State) {
    forall t :: t in s.handlers && s.handlers[t].AtStore? ==>
      s.handlers[t].hash in s.store.index && s.store.index[s.handlers[t].hash] == s.handlers[t].id
  }

  predicate SessionsSound(cfg: Config, s: State) {
    forall id :: id in s.store.sessions ==> Sound(cfg, s.store.sessions[id])
  }

  /** The two maps and the tasks in flight agree with each other. */
  ghost predicate Agreement(s: State) {
    && IssuedAgree(s)
    && CreatorsAgree(s)
    && IndexAgrees(s)
    && UnindexedAwaits(s)
    && HandlersAgree(s)
  }

  ghost predicate Inv(cfg: Config, s: State) {
    Agreement(s) && SessionsSound(cfg, s)
  }

  // ----- Creating -----

  lemma AwaitsCarriesOver(s: State, s': State)
    requires UnindexedAwaits(s)
    requires forall t, x :: AwaitsIndex(s, t, x) && x.paymentHash !in s'.store.index ==> AwaitsIndex(s', t, x)
    requires forall id :: id in s'.store.sessions && s'.store.sessions[id].paymentHash !in s'.store.index ==>
               || (exists t :: AwaitsIndex(s', t, s'.store.sessions[id]))
               || (&& id in s.store.sessions && s.store.sessions[id] == s'.store.sessions[id]
                   && s.store.sessions[id].paymentHash !in s.store.index)
    ensures UnindexedAwaits(s')
  {
  }

  lemma BeginCreateKeepsAgreement(cfg: Config, s: State, a: Action)
    requires Agreement(s) && Enabled(s, a) && a.BeginCreate?
    ensures Agreement(Step(cfg, s, a))
  {
    var s' := Step(cfg, s, a);
    AwaitsCarriesOver(s, s');
    BeginCreateKeepsIssued(cfg, s, a);
    BeginCreateKeepsCreators(cfg, s, a);
  }

  lemma BeginCreateKeepsIssued(cfg: Config, s: State, a: Action)
    requires IssuedAgree(s) && Enabled(s, a) && a.BeginCreate?
    ensures IssuedAgree(Step(cfg, s, a))
  {
    assert forall h :: h in s.issued ==> s.issued[h] in s.issued.Values;
  }

  lemma BeginCreateKeepsCreators(cfg: Config, s: State, a: Action)
    requires Agreement(s) && Enabled(s, a) && a.BeginCreate?
    ensures CreatorsAgree(Step(cfg, s, a))
  {
    BeginCreateIsFresh(s, a);
  }

  /** A drawn id and payment hash name nothing in the store. */
  lemma BeginCreateIsFresh(s: State, a: Action)
    requires IssuedAgree(s) && IndexAgrees(s) && Enabled(s, a) && a.BeginCreate?
    ensures a.id !in s.store.sessions && a.hash !in s.store.index
  {
    assert forall h :: h in s.issued ==> s.issued[h] in s.issued.Values;
    assert forall h :: h in s.store.index ==> s.store.sessions[s.store.index[h]].paymentHash == h;
  }

  lemma StoreSessionKeepsAgreement(cfg: Config, s: State, a: Action)
    requires Agreement(s) && Enabled(s, a) && a.StoreSession?
    ensures Agreement(Step(cfg, s, a))
  {
    StoreSessionKeepsIssued(cfg, s, a);
    StoreSessionKeepsCreators(cfg, s, a);
    StoreSessionKeepsUnindexed(cfg, s, a);
  }

  lemma StoreSessionKeepsUnindexed(cfg: Config, s: State, a: Action)
    requires UnindexedAwaits(s) && Enabled(s, a) && a.StoreSession?
    ensures UnindexedAwaits(Step(cfg, s, a))
  {
    var s' := Step(cfg, s, a);
    var x := s.creators[a.task].session;
    assert AwaitsIndex(s', a.task, s'.store.sessions[x.invoiceId]);
    AwaitsCarriesOver(s, s');
  }

  lemma StoreSessionKeepsIssued(cfg: Config, s: State, a: Action)
    requires IssuedAgree(s) && Enabled(s, a) && a.StoreSession?
    ensures IssuedAgree(Step(cfg, s, a))
  {
  }

  lemma StoreSessionKeepsCreators(cfg: Config, s: State, a: Action)
    requires Agreement(s) && Enabled(s, a) && a.StoreSession?
    ensures CreatorsAgree(Step(cfg, s, a))
  {
    var s' := Step(cfg, s, a);
    var x := s.creators[a.task].session;
    forall t | t in s'.creators && InFlight(s'.creators[t]) && t != a.task
      ensures s'.creators[t].session.invoiceId != x.invoiceId
    {
      assert s.issued[s.creators[t].session.paymentHash] == s.creators[t].session.invoiceId;
    }
  }

  lemma StoreIndexKeepsAgreement(cfg: Config, s: State, a: Action)
    requires Agreement(s) && Enabled(s, a) && a.StoreIndex?
    ensures Agreement(Step(cfg, s, a))
  {
    var s' := Step(cfg, s, a);
    StoreIndexKeepsCreators(cfg, s, a);
    AwaitsCarriesOver(s, s');
  }

  lemma StoreIndexKeepsCreators(cfg: Config, s: State, a: Action)
    requires Agreement(s) && Enabled(s, a) && a.StoreIndex?
    ensures CreatorsAgree(Step(cfg, s, a))
  {
  }

  // ----- Handling events -----

  /** `store'` differs from `store` at most in the status and artifacts of session `id`. */
  predicate SettledAt(store: Store, store': Store, id: Text) {
    && store'.index == store.index
    && store'.sessions.Keys == store.sessions.Keys
    && (forall k :: k in store.sessions && k != id ==> store'.sessions[k] == store.sessions[k])
    && (id in store.sessions ==> Fresh(store'.sessions[id]) == Fresh(store.sessions[id]))
  }

  lemma SettleFrame(cfg: Config, store: Store, hash: Text, id: Text)
    ensures SettledAt(store, SettleSession(cfg, store, hash, id), id)
  {
  }

  /** The state after a handler has settled, or left alone, the session it found. */
  function AfterSettling(s: State, task: nat, store': Store): State
    requires task in s.handlers
  {
    s.(store := store', handlers := s.handlers[task := Handled(s.handlers[task].hash)])
  }

  lemma SettlingKeepsIssued(s: State, task: nat, store': Store)
    requires IssuedAgree(s) && task in s.handlers && s.handlers[task].AtStore?
    requires SettledAt(s.store, store', s.handlers[task].id)
    ensures IssuedAgree(AfterSettling(s, task, store'))
  {
  }

  lemma SettlingKeepsCreators(s: State, task: nat, store': Store)
    requires CreatorsAgree(s) && HandlersAgree(s) && IndexAgrees(s) && task in s.handlers && s.handlers[task].AtStore?
    requires SettledAt(s.store, store', s.handlers[task].id)
    ensures CreatorsAgree(AfterSettling(s, task, store'))
  {
    var id := s.handlers[task].id;
    forall t | t in s.creators && InFlight(s.creators[t]) && s.creators[t].AtIndex?
      ensures s.creators[t].session.invoiceId != id
    {
      assert s.store.sessions[id].paymentHash in s.store.index;
    }
  }

  lemma SettlingKeepsUnindexed(s: State, task: nat, store': Store)
    requires UnindexedAwaits(s) && HandlersAgree(s) && IndexAgrees(s) && task in s.handlers && s.handlers[task].AtStore?
    requires SettledAt(s.store, store', s.handlers[task].id)
    ensures UnindexedAwaits(AfterSettling(s, task, store'))
  {
    var s' := AfterSettling(s, task, store');
    var id := s.handlers[task].id;
    assert s'.store.sessions[id].paymentHash == Fresh(s.store.sessions[id]).paymentHash;
    AwaitsCarriesOver(s, s');
  }

  lemma SettlingKeepsAgreement(s: State, task: nat, store': Store)
    requires Agreement(s) && task in s.handlers && s.handlers[task].AtStore?
    requires SettledAt(s.store, store', s.handlers[task].id)
    ensures Agreement(AfterSettling(s, task, store'))
  {
    SettlingKeepsIssued(s, task, store');
    SettlingKeepsCreators(s, task, store');
    SettlingKeepsUnindexed(s, task, store');
    assert IndexAgrees(AfterSettling(s, task, store')) by {
      var id := s.handlers[task].id;
      assert store'.sessions[id].paymentHash == Fresh(s.store.sessions[id]).paymentHash;
    }
  }

  lemma HandlingKeepsAgreement(cfg: Config, s: State, a: Action)
    requires Agreement(s) && Enabled(s, a) && (a.Deliver? || a.Lookup? || a.SettleLocked?)
    ensures Agreement(Step(cfg, s, a))
  {
    if a.SettleLocked? {
      var AtStore(hash, id) := s.handlers[a.task];
      SettleFrame(cfg, s.store, hash, id);
      SettlingKeepsAgreement(s, a.task, SettleSession(cfg, s.store, hash, id));
    } else {
      AwaitsCarriesOver(s, Step(cfg, s, a));
    }
  }

  /** A sound session has all of its artifacts or none; settling keeps it sound. */
  lemma SettleKeepsSound(cfg: Config, x: AccessSession)
    requires Sound(cfg, x)
    ensures AllOrNothing(x)
    ensures x.status.Pending? ==> x == Fresh(x)
    ensures x.status.Pending? && Renders(cfg, x.paymentHash, x) ==> Sound(cfg, Settle(cfg, x.paymentHash, x))
  {
  }

  lemma StepKeepsSound(cfg: Config, s: State, a: Action)
    requires Inv(cfg, s) && Enabled(s, a)
    ensures SessionsSound(cfg, Step(cfg, s, a))
  {
    if a.SettleLocked? {
      var AtStore(hash, id) := s.handlers[a.task];
      SettleFrame(cfg, s.store, hash, id);
      SettleKeepsSound(cfg, s.store.sessions[id]);
    } else if a.StoreSession? {
      var x := s.creators[a.task].session;
      assert Sound(cfg, x);
    }
  }

  /** Every atomic step keeps the invariant. */
  lemma StepKeepsInv(cfg: Config, s: State, a: Action)
    requires Inv(cfg, s) && Enabled(s, a)
    ensures Inv(cfg, Step(cfg, s, a))
  {
    StepKeepsSound(cfg, s, a);
    match a
    case BeginCreate(_, _, _, _, _, _) => BeginCreateKeepsAgreement(cfg, s, a);
    case StoreSession(_) => StoreSessionKeepsAgreement(cfg, s, a);
    case StoreIndex(_) => StoreIndexKeepsAgreement(cfg, s, a);
    case _ => HandlingKeepsAgreement(cfg, s, a);
  }

  lemma {:induction false} RunKeepsInv(cfg: Config, s: State, actions: seq<Action>)
    requires Inv(cfg, s) && Possible(cfg, s, actions)
    ensures Inv(cfg, Exec(cfg, s, actions))
    decreases |actions|
  {
    if actions != [] {
      StepKeepsInv(cfg, s, actions[0]);
      RunKeepsInv(cfg, Step(cfg, s, actions[0]), actions[1..]);
    }
  }

  lemma ReachableInv(cfg: Config, s: State)
    requires Reachable(cfg, s)
    ensures Inv(cfg, s)
  {
    var actions :| Possible(cfg, INITIAL, actions) && Exec(cfg, INITIAL, actions) == s;
    RunKeepsInv(cfg, INITIAL, actions);
  }

  lemma SettledIffRenders(cfg: Config, s: State, hash: Text, id: Text)
    requires Inv(cfg, s) && id in s.store.sessions && s.store.sessions[id].paymentHash == hash
    ensures SettleSession(cfg, s.store, hash, id).sessions[id].status.Settled? <==>
            Renders(cfg, hash, Fresh(s.store.sessions[id]))
  {
    assert Sound(cfg, s.store.sessions[id]);
  }
}
