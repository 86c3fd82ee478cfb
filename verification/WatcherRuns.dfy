/** Every interleaving of request creation, time, ledger growth and the single watcher: its snapshot goes stale,
    each of its sessions is looked up and marked in separate steps, and any lookup or issuance may fail. */
module WatcherRuns {
  import opened Bytes
  import opened Wrappers
  import opened Issuance
  import opened Horizon
  import opened PaymentStore
  import opened Watcher

  // ----- States and steps -----

  /** `batch` is the unprocessed part of the watcher's snapshot and `holding` what it has issued for the first
      session of it. `memos` are the memos ever drawn; `backing` is the record behind each session marked paid. */
  datatype State = State(
    sessions: Sessions,
    batch: seq<SessionRecord>,
    holding: Option<Outcome>,
    clock: u64,
    ledger: set<PaymentRecord>,
    memos: set<Text>,
    backing: map<Text, Outcome>)

  function Initial(clock: u64, ledger: set<PaymentRecord>): State {
    State(map[], [], None, clock, ledger, {}, map[])
  }

  datatype Action =
    | Insert(memo: Text, amount: Text, asset: Text, eventId: Text, stamp: u64)
    | Advance(now: u64)
    | Grow(record: PaymentRecord)
    | Tick(order: seq<Text>, readings: map<Text, u64>, now: u64)
    | Lookup(answer: Answer)
    | Mark

  /** The sessions a snapshot takes when the clock reads `readings[id]` at each of them. */
  function SnapshotIds(sessions: Sessions, readings: map<Text, u64>): set<Text>
    requires sessions.Keys <= readings.Keys
  {
    set id | id in sessions && IsPending(sessions[id], readings[id])
  }

  /** A memo is drawn only once; a creation may have read the clock some time ago; the clock never goes back, not
      even within a snapshot; a page shows at most 200 records of the ledger. */
  predicate Enabled(s: State, a: Action) {
    match a
    case Insert(memo, _, _, _, stamp) => memo !in s.memos && stamp <= s.clock
    case Advance(now) => s.clock <= now
    case Grow(_) => true
    case Tick(order, readings, now) =>
      && s.batch == [] && s.clock <= now
      && s.sessions.Keys <= readings.Keys
      && (forall id <- readings.Keys :: s.clock <= readings[id] <= now)
      && Lists(order, SnapshotIds(s.sessions, readings))
    case Lookup(answer) =>
      && s.batch != [] && s.holding.None?
      && (answer.page.Some? ==> |answer.page.value| <= PAGE_LIMIT && forall r <- answer.page.value :: r in s.ledger)
    case Mark => s.batch != [] && s.holding.Some?
  }

  function HeadId(s: State): Text
    requires s.batch != []
  {
    s.batch[0].request.sessionId
  }

  function Step(cfg: Config, s: State, a: Action): State
    requires Enabled(s, a)
  {
    match a
    case Insert(memo, amount, asset, eventId, stamp) =>
      var request := CreatePaymentRequest(cfg.destination, amount, asset, memo);
      var record := NewRecord(request, REQUEST_WINDOW_SECS, eventId, stamp, cfg.tokenTtlSecs);
      s.(sessions := s.sessions[request.sessionId := record], memos := s.memos + {memo})
    case Advance(now) => s.(clock := now)
    case Grow(record) => s.(ledger := s.ledger + {record})
    case Tick(order, readings, now) =>
      assert forall i :: 0 <= i < |order| ==> order[i] in SnapshotIds(s.sessions, readings);
      s.(batch := seq(|order|, i requires 0 <= i < |order| => s.sessions[order[i]]), clock := now)
    case Lookup(answer) =>
      var outcome := Resolve(cfg, s.batch[0], answer);
      if outcome.None? then s.(batch := s.batch[1..]) else s.(holding := outcome)
    case Mark =>
      var id := HeadId(s);
      var rest := s.(batch := s.batch[1..], holding := None);
      if id in s.sessions then
        rest.(sessions := s.sessions[id := Paid(s.sessions[id], s.holding.value.artifact)],
              backing := s.backing[id := s.holding.value])
      else
        rest
  }

  predicate Possible(cfg: Config, s: State, actions: seq<Action>)
    decreases |actions|
  {
    actions == [] || (Enabled(s, actions[0]) && Possible(cfg, Step(cfg, s, actions[0]), actions[1..]))
  }

  function Exec(cfg: Config, s: State, actions: seq<Action>): State
    requires Possible(cfg, s, actions)
    decreases |actions|
  {
    if actions == [] then s else Exec(cfg, Step(cfg, s, actions[0]), actions[1..])
  }

  lemma RunOfStep(cfg: Config, s: State, a: Action, rest: seq<Action>)
    requires Enabled(s, a) && Possible(cfg, Step(cfg, s, a), rest)
    ensures Possible(cfg, s, [a] + rest) && Exec(cfg, s, [a] + rest) == Exec(cfg, Step(cfg, s, a), rest)
  {
    assert ([a] + rest)[1..] == rest;
  }

  ghost predicate Reachable(cfg: Config, s: State) {
    exists clock, ledger, actions ::
      Possible(cfg, Initial(clock, ledger), actions) && Exec(cfg, Initial(clock, ledger), actions) == s
  }

  // ----- What every step keeps -----

  /** The session id is the memo, drawn for this session. */
  predicate Identified(cfg: Config, s: State, id: Text)
    requires id in s.sessions
  {
    var r := s.sessions[id].request;
    r.sessionId == id && r.memo == id && r.destination == cfg.destination && id in s.memos
  }

  /** `o` is a record of the ledger that confirms session `x`, with the artifact issued for it. */
  predicate Backs(cfg: Config, ledger: set<PaymentRecord>, x: SessionRecord, o: Outcome) {
    && o.record in ledger
    && Confirms(o.record, x.request.destination, x.request.memo, x.request.amount, x.request.asset)
    && IssueToken(ParsePayment(o.record), x.eventId, x.expiresAt, o.nonce, cfg.key, cfg.qr) == Some(o.artifact)
  }

  /** A session as it was before any payment. */
  function Unpaid(x: SessionRecord): SessionRecord {
    x.(paid := false, txHash := None, accessToken := None, accessQrPng := None, accessQrAscii := None)
  }

  /** A session is untouched, or paid with exactly the artifact of its backing record. */
  predicate SessionSound(cfg: Config, s: State, id: Text)
    requires id in s.sessions
  {
    var x := s.sessions[id];
    && Identified(cfg, s, id)
    && if x.paid then
         id in s.backing && Backs(cfg, s.ledger, x, s.backing[id]) && x == Paid(Unpaid(x), s.backing[id].artifact)
       else
         x == Unpaid(x) && id !in s.backing
  }

  predicate SessionsSound(cfg: Config, s: State) {
    forall id :: id in s.sessions ==> SessionSound(cfg, s, id)
  }

  /** The unprocessed part of the snapshot has distinct sessions, all still unpaid and unchanged in the store. */
  predicate BatchSound(s: State) {
    && (forall i :: 0 <= i < |s.batch| ==>
          var id := s.batch[i].request.sessionId;
          id in s.sessions && s.sessions[id] == s.batch[i] && !s.batch[i].paid)
    && (forall i, j :: 0 <= i < j < |s.batch| ==> s.batch[i].request.sessionId != s.batch[j].request.sessionId)
  }

  predicate HoldingSound(cfg: Config, s: State) {
    s.holding.Some? ==> s.batch != [] && Backs(cfg, s.ledger, s.batch[0], s.holding.value)
  }

  predicate Inv(cfg: Config, s: State) {
    && SessionsSound(cfg, s)
    && BatchSound(s)
    && HoldingSound(cfg, s)
    && s.backing.Keys <= s.sessions.Keys
  }

  lemma ResolvedBacks(cfg: Config, ledger: set<PaymentRecord>, x: SessionRecord, answer: Answer)
    requires answer.page.Some? ==> forall r <- answer.page.value :: r in ledger
    ensures var o := Resolve(cfg, x, answer); o.Some? ==> Backs(cfg, ledger, x, o.value)
  {
  }

  /** Soundness of a session does not depend on anything but the session, its backing record and what has been
      added to the ledger and the memos. */
  lemma SoundCarriesOver(cfg: Config, s: State, s': State, id: Text)
    requires id in s.sessions && id in s'.sessions && s'.sessions[id] == s.sessions[id]
    requires SessionSound(cfg, s, id)
    requires s.ledger <= s'.ledger && s.memos <= s'.memos
    requires id in s'.backing <==> id in s.backing
    requires id in s.backing ==> s'.backing[id] == s.backing[id]
    ensures SessionSound(cfg, s', id)
  {
  }

  /** What the watcher works on is untouched by a step that leaves its sessions alone. */
  lemma WorkCarriesOver(cfg: Config, s: State, s': State)
    requires BatchSound(s) && HoldingSound(cfg, s)
    requires s'.batch == s.batch && s'.holding == s.holding && s.ledger <= s'.ledger
    requires forall id :: id in s.sessions ==> id in s'.sessions && s'.sessions[id] == s.sessions[id]
    ensures BatchSound(s') && HoldingSound(cfg, s')
  {
  }

  lemma InsertKeepsInv(cfg: Config, s: State, a: Action)
    requires Inv(cfg, s) && Enabled(s, a) && a.Insert?
    ensures Inv(cfg, Step(cfg, s, a))
  {
    var s' := Step(cfg, s, a);
    assert forall id :: id in s.sessions ==> Identified(cfg, s, id);
    forall id | id in s'.sessions ensures SessionSound(cfg, s', id) {
      if id != a.memo {
        SoundCarriesOver(cfg, s, s', id);
      }
    }
    WorkCarriesOver(cfg, s, s');
  }

  lemma WorldKeepsInv(cfg: Config, s: State, a: Action)
    requires Inv(cfg, s) && Enabled(s, a) && (a.Advance? || a.Grow?)
    ensures Inv(cfg, Step(cfg, s, a))
  {
    var s' := Step(cfg, s, a);
    forall id | id in s'.sessions ensures SessionSound(cfg, s', id) {
      SoundCarriesOver(cfg, s, s', id);
    }
    WorkCarriesOver(cfg, s, s');
  }

  lemma TickKeepsInv(cfg: Config, s: State, a: Action)
    requires Inv(cfg, s) && Enabled(s, a) && a.Tick?
    ensures Inv(cfg, Step(cfg, s, a))
  {
    var s' := Step(cfg, s, a);
    forall id | id in s'.sessions ensures SessionSound(cfg, s', id) {
      SoundCarriesOver(cfg, s, s', id);
    }
    forall i | 0 <= i < |s'.batch|
      ensures a.order[i] in s.sessions && s'.batch[i] == s.sessions[a.order[i]]
      ensures s'.batch[i].request.sessionId == a.order[i] && !s'.batch[i].paid
    {
      assert a.order[i] in SnapshotIds(s.sessions, a.readings);
      assert Identified(cfg, s, a.order[i]);
    }
  }

  /** Dropping the first session of the batch. */
  lemma RestOfBatch(s: State)
    requires BatchSound(s) && s.batch != []
    ensures BatchSound(s.(batch := s.batch[1..], holding := None))
  {
  }

  lemma LookupKeepsInv(cfg: Config, s: State, a: Action)
    requires Inv(cfg, s) && Enabled(s, a) && a.Lookup?
    ensures Inv(cfg, Step(cfg, s, a))
  {
    var s' := Step(cfg, s, a);
    ResolvedBacks(cfg, s.ledger, s.batch[0], a.answer);
    RestOfBatch(s);
    forall id | id in s'.sessions ensures SessionSound(cfg, s', id) {
      SoundCarriesOver(cfg, s, s', id);
    }
  }

  /** Marking the first session of the batch pays a session that is there and unpaid. */
  lemma MarkedIsSound(cfg: Config, s: State)
    requires Inv(cfg, s) && Enabled(s, Mark)
    ensures SessionSound(cfg, Step(cfg, s, Mark), HeadId(s))
  {
    assert SessionSound(cfg, s, HeadId(s));
  }

  lemma MarkKeepsInv(cfg: Config, s: State)
    requires Inv(cfg, s) && Enabled(s, Mark)
    ensures Inv(cfg, Step(cfg, s, Mark))
  {
    var s' := Step(cfg, s, Mark);
    MarkedIsSound(cfg, s);
    RestOfBatch(s);
    MarkLeavesOthers(s, cfg);
    forall id | id in s'.sessions ensures SessionSound(cfg, s', id) {
      if id != HeadId(s) {
        SoundCarriesOver(cfg, s, s', id);
      }
    }
    BatchAfterMark(s, s');
  }

  lemma MarkLeavesOthers(s: State, cfg: Config)
    requires BatchSound(s) && Enabled(s, Mark)
    ensures var s' := Step(cfg, s, Mark);
            && s'.sessions.Keys == s.sessions.Keys && s'.batch == s.batch[1..] && s'.holding.None?
            && s'.ledger == s.ledger && s'.memos == s.memos
            && s'.backing.Keys == s.backing.Keys + {HeadId(s)}
            && forall id :: id in s.sessions && id != HeadId(s) ==>
                 && s'.sessions[id] == s.sessions[id]
                 && (id in s.backing ==> s'.backing[id] == s.backing[id])
  {
  }

  lemma BatchAfterMark(s: State, s': State)
    requires BatchSound(s) && s.batch != [] && s'.batch == s.batch[1..]
    requires forall id :: id in s.sessions && id != HeadId(s) ==> id in s'.sessions && s'.sessions[id] == s.sessions[id]
    ensures BatchSound(s')
  {
  }

  /** Every atomic step keeps the invariant. */
  lemma StepKeepsInv(cfg: Config, s: State, a: Action)
    requires Inv(cfg, s) && Enabled(s, a)
    ensures Inv(cfg, Step(cfg, s, a))
  {
    match a
    case Insert(_, _, _, _, _) => InsertKeepsInv(cfg, s, a);
    case Tick(_, _, _) => TickKeepsInv(cfg, s, a);
    case Lookup(_) => LookupKeepsInv(cfg, s, a);
    case Mark => MarkKeepsInv(cfg, s);
    case _ => WorldKeepsInv(cfg, s, a);
  }

  lemma {:induction false} RunKeepsInv(cfg: Config, s: State, actions: seq<Action>)
    requires Inv(cfg, s) && Possible(cfg, s, actions)
    ensures Inv(cfg, Exec(cfg, s, actions))
    decreases |actions|
  {
    if actions != [] {
      StepKeepsInv(cfg, s, actions[0]);
      RunKeepsInv(cfg, Step(cfg, s, actions[0]), actions[1..]);
    }
  }

  lemma ReachableInv(cfg: Config, s: State)
    requires Reachable(cfg, s)
    ensures Inv(cfg, s)
  {
    var clock, ledger, actions :|
      Possible(cfg, Initial(clock, ledger), actions) && Exec(cfg, Initial(clock, ledger), actions) == s;
    RunKeepsInv(cfg, Initial(clock, ledger), actions);
  }
}
