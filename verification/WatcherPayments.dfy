/** What holds of payments and of the life of a session over whole runs of the Stellar service. */
module WatcherPayments {
  import opened Bytes
  import opened Wrappers
  import opened Issuance
  import opened Horizon
  import opened PaymentStore
  import opened Watcher
  import opened WatcherRuns

  // ----- Payments -----

  /** Every session marked paid, in every reachable state, is backed by a successful payment record of the ledger
      that matches its destination, memo, amount and asset; what the session holds was issued for that record. */
  lemma PaymentSoundness(cfg: Config, s: State, id: Text)
    requires Reachable(cfg, s) && id in s.sessions && s.sessions[id].paid
    ensures id in s.backing
    ensures var x, o := s.sessions[id], s.backing[id];
            && o.record in s.ledger
            && o.record.transactionSuccessful && o.record.recordType == Ascii("payment")
            && o.record.receiver == cfg.destination && o.record.amount == x.request.amount
            && (o.record.memo == Some(id) || (o.record.memo == None && id == []))
            && EqIgnoreAsciiCase(AssetOf(o.record), x.request.asset)
            && IssueToken(ParsePayment(o.record), x.eventId, x.expiresAt, o.nonce, cfg.key, cfg.qr) == Some(o.artifact)
            && x.txHash == Some(if o.record.transactionHash != [] then o.record.transactionHash else o.record.id)
            && x.accessToken == Some(o.artifact.token)
            && x.accessQrPng == Some(o.artifact.qrPng) && x.accessQrAscii == Some(o.artifact.qrAscii)
  {
    ReachableInv(cfg, s);
    assert SessionSound(cfg, s, id);
    IssuedTxHash(ParsePayment(s.backing[id].record), s.sessions[id].eventId, s.sessions[id].expiresAt,
                 s.backing[id].nonce, cfg);
  }

  lemma IssuedTxHash(event: PaymentEvent, eventId: Text, expiresAt: u64, nonce: Text, cfg: Config)
    ensures var a := IssueToken(event, eventId, expiresAt, nonce, cfg.key, cfg.qr);
            a.Some? ==> a.value.txHash == event.txHash
  {
  }

  /** Two different paid sessions are never backed by the same ledger record. */
  lemma NoDoubleSpend(cfg: Config, s: State, id: Text, id': Text)
    requires Reachable(cfg, s)
    requires id in s.sessions && s.sessions[id].paid && id' in s.sessions && s.sessions[id'].paid
    requires id in s.backing && id' in s.backing && s.backing[id].record == s.backing[id'].record
    ensures id == id'
  {
    PaymentSoundness(cfg, s, id);
    PaymentSoundness(cfg, s, id');
    var x, y := s.sessions[id], s.sessions[id'];
    ConfirmsOneMemo(s.backing[id].record, cfg.destination, id, x.request.amount, x.request.asset,
                    cfg.destination, id', y.request.amount, y.request.asset);
  }

  // ----- Confirmed payments are found -----

  /** The lookup of the watcher, exactly: the session leaves the batch when there is no page, when no record of the page
      confirms it, or when the issuance for the first record that does fails; otherwise the watcher holds what it
      issued for that record, wherever in the page it is. */
  lemma LookupExactly(cfg: Config, s: State, answer: Answer)
    requires Enabled(s, Lookup(answer))
    ensures answer.page.None? ==> Step(cfg, s, Lookup(answer)) == s.(batch := s.batch[1..])
    ensures answer.page.Some? ==>
              var page, r := answer.page.value, s.batch[0].request;
              && ((forall i :: 0 <= i < |page| ==> !Confirms(page[i], r.destination, r.memo, r.amount, r.asset)) ==>
                    Step(cfg, s, Lookup(answer)) == s.(batch := s.batch[1..]))
              && (forall k :: FirstToConfirm(page, k, r) ==>
                    Step(cfg, s, Lookup(answer)) ==
                      match IssuedFor(cfg, s.batch[0], page[k], answer.nonce)
                      case None => s.(batch := s.batch[1..])
                      case Some(a) => s.(holding := Some(Outcome(page[k], answer.nonce, a))))
  {
    ResolveExactly(cfg, s.batch[0], answer);
  }

  /** A confirmed payment that a lookup sees, and for which a token can be issued, is credited: the watcher's next step
      marks the session, wherever in the page the record was and whatever else has happened since the snapshot. */
  lemma ConfirmedLookupPays(cfg: Config, s: State, answer: Answer, k: int)
    requires Reachable(cfg, s) && Enabled(s, Lookup(answer)) && answer.page.Some?
    requires FirstToConfirm(answer.page.value, k, s.batch[0].request)
    requires IssuedFor(cfg, s.batch[0], answer.page.value[k], answer.nonce).Some?
    ensures var held := Step(cfg, s, Lookup(answer));
            var id, a := HeadId(s), IssuedFor(cfg, s.batch[0], answer.page.value[k], answer.nonce).value;
            && Enabled(held, Mark) && id in s.sessions
            && Step(cfg, held, Mark).sessions ==
                 s.sessions[id := s.sessions[id].(paid := true, txHash := Some(a.txHash), accessToken := Some(a.token),
                                                  accessQrPng := Some(a.qrPng), accessQrAscii := Some(a.qrAscii))]
            && Step(cfg, held, Mark).batch == s.batch[1..]
  {
    ReachableInv(cfg, s);
    LookupExactly(cfg, s, answer);
    MarkHeld(cfg, s, Outcome(answer.page.value[k], answer.nonce,
                             IssuedFor(cfg, s.batch[0], answer.page.value[k], answer.nonce).value));
  }

  /** Marking sets the five payment fields of the first session of the batch from what the watcher holds. */
  lemma MarkHeld(cfg: Config, s: State, o: Outcome)
    requires BatchSound(s) && s.batch != []
    ensures var held, id, a := s.(holding := Some(o)), HeadId(s), o.artifact;
            && Enabled(held, Mark) && id in s.sessions
            && Step(cfg, held, Mark).sessions ==
                 s.sessions[id := s.sessions[id].(paid := true, txHash := Some(a.txHash), accessToken := Some(a.token),
                                                  accessQrPng := Some(a.qrPng), accessQrAscii := Some(a.qrAscii))]
            && Step(cfg, held, Mark).batch == s.batch[1..]
  {
  }

  // ----- One issuance for each session -----

  /** Whenever the watcher is about to mark a session, the session is in the store, unpaid, and as it was when the
      snapshot was taken. */
  lemma MarkNeverMisses(cfg: Config, s: State)
    requires Reachable(cfg, s) && s.holding.Some?
    ensures s.batch != [] && HeadId(s) in s.sessions && s.sessions[HeadId(s)] == s.batch[0] && !s.batch[0].paid
  {
    ReachableInv(cfg, s);
  }

  /** The ids marked in a run, in order. */
  function Marked(cfg: Config, s: State, actions: seq<Action>): seq<Text>
    requires Possible(cfg, s, actions)
    decreases |actions|
  {
    if actions == [] then []
    else MarkedBy(s, actions[0]) + Marked(cfg, Step(cfg, s, actions[0]), actions[1..])
  }

  predicate PaidIn(s: State, id: Text) {
    id in s.sessions && s.sessions[id].paid
  }

  /** What a later state keeps of an earlier one: sessions stay, their requests and expiry stay, and a paid session
      does not change at all. */
  predicate Extends(s: State, s': State) {
    && s.clock <= s'.clock
    && (forall id :: id in s.sessions ==>
          && id in s'.sessions
          && Unpaid(s'.sessions[id]) == Unpaid(s.sessions[id])
          && (s.sessions[id].paid ==> s'.sessions[id] == s.sessions[id]))
  }

  lemma InsertIsNew(cfg: Config, s: State, a: Action)
    requires Inv(cfg, s) && Enabled(s, a) && a.Insert?
    ensures a.memo !in s.sessions
  {
    assert forall id :: id in s.sessions ==> Identified(cfg, s, id);
  }

  lemma MarkPaysHead(cfg: Config, s: State)
    requires BatchSound(s) && Enabled(s, Mark)
    ensures HeadId(s) in s.sessions && !PaidIn(s, HeadId(s))
    ensures var s' := Step(cfg, s, Mark);
            && s'.clock == s.clock && s'.sessions.Keys == s.sessions.Keys
            && PaidIn(s', HeadId(s)) && Unpaid(s'.sessions[HeadId(s)]) == Unpaid(s.sessions[HeadId(s)])
            && forall id :: id in s.sessions && id != HeadId(s) ==> s'.sessions[id] == s.sessions[id]
  {
  }

  /** The ids marked by one step. */
  function MarkedBy(s: State, a: Action): seq<Text>
    requires Enabled(s, a)
  {
    if a.Mark? then [HeadId(s)] else []
  }

  /** Between two states exactly the sessions in `marked` have become paid. */
  ghost predicate Pays(s: State, s': State, marked: seq<Text>) {
    && (forall id :: PaidIn(s', id) <==> PaidIn(s, id) || id in marked)
    && (forall id <- marked :: !PaidIn(s, id))
  }

  lemma SameSessionsExtend(s: State, s': State)
    requires s.clock <= s'.clock && s'.sessions == s.sessions
    ensures Extends(s, s') && Pays(s, s', [])
  {
  }

  lemma NewSessionExtends(s: State, s': State, id: Text, x: SessionRecord)
    requires s.clock <= s'.clock && id !in s.sessions && s'.sessions == s.sessions[id := x] && !x.paid
    ensures Extends(s, s') && Pays(s, s', [])
  {
  }

  lemma PaidSessionExtends(s: State, s': State, id: Text)
    requires s.clock <= s'.clock && id in s.sessions && s'.sessions.Keys == s.sessions.Keys
    requires !PaidIn(s, id) && PaidIn(s', id) && Unpaid(s'.sessions[id]) == Unpaid(s.sessions[id])
    requires forall k :: k in s.sessions && k != id ==> s'.sessions[k] == s.sessions[k]
    ensures Extends(s, s') && Pays(s, s', [id])
  {
  }

  lemma StepExtends(cfg: Config, s: State, a: Action)
    requires Inv(cfg, s) && Enabled(s, a)
    ensures Extends(s, Step(cfg, s, a)) && Pays(s, Step(cfg, s, a), MarkedBy(s, a))
  {
    var s' := Step(cfg, s, a);
    match a
    case Mark =>
      MarkPaysHead(cfg, s);
      PaidSessionExtends(s, s', HeadId(s));
    case Insert(memo, _, _, _, _) =>
      InsertIsNew(cfg, s, a);
      NewSessionExtends(s, s', memo, s'.sessions[memo]);
    case _ => SameSessionsExtend(s, s');
  }

  lemma {:induction false} RunExtends(cfg: Config, s: State, actions: seq<Action>)
    requires Inv(cfg, s) && Possible(cfg, s, actions)
    ensures Extends(s, Exec(cfg, s, actions))
    decreases |actions|
  {
    if actions != [] {
      StepKeepsInv(cfg, s, actions[0]);
      StepExtends(cfg, s, actions[0]);
      RunExtends(cfg, Step(cfg, s, actions[0]), actions[1..]);
    }
  }

  predicate AllDifferent(ids: seq<Text>) {
    forall i, j :: 0 <= i < j < |ids| ==> ids[i] != ids[j]
  }

  lemma PaysTwice(s: State, t: State, u: State, first: seq<Text>, rest: seq<Text>)
    requires Pays(s, t, first) && Pays(t, u, rest) && AllDifferent(first) && AllDifferent(rest)
    ensures Pays(s, u, first + rest) && AllDifferent(first + rest)
  {
    assert forall id :: id in first + rest <==> id in first || id in rest;
    assert forall id <- first :: PaidIn(t, id) && id !in rest;
    var all := first + rest;
    forall i, j | 0 <= i < j < |all| ensures all[i] != all[j] {
      if i < |first| <= j {
        assert all[i] in first && all[j] in rest;
      }
    }
  }

  /** Over any run, the sessions that become paid are exactly those marked in it, and none is marked twice. */
  lemma {:induction false} MarkedOnce(cfg: Config, s: State, actions: seq<Action>)
    requires Inv(cfg, s) && Possible(cfg, s, actions)
    ensures Pays(s, Exec(cfg, s, actions), Marked(cfg, s, actions)) && AllDifferent(Marked(cfg, s, actions))
    decreases |actions|
  {
    if actions == [] {
      SameSessionsExtend(s, s);
    } else {
      var s' := Step(cfg, s, actions[0]);
      StepKeepsInv(cfg, s, actions[0]);
      StepExtends(cfg, s, actions[0]);
      MarkedOnce(cfg, s', actions[1..]);
      PaysTwice(s, s', Exec(cfg, s', actions[1..]), MarkedBy(s, actions[0]), Marked(cfg, s', actions[1..]));
    }
  }

  // ----- The life of a session -----

  /** In every reachable state the payment fields of a session are all set or all unset, so a session is waiting,
      expired or confirmed and never merely detected, and the pending sessions are exactly those waiting. */
  lemma SessionLifecycle(cfg: Config, s: State, id: Text, now: u64)
    requires Reachable(cfg, s) && id in s.sessions
    ensures var x := s.sessions[id];
            && AllOrNothing(x)
            && StatusOf(x, now) != Detected
            && (StatusOf(x, now) == Confirmed <==> x.paid)
            && (StatusOf(x, now) == Expired <==> !x.paid && x.request.expiresAt <= now)
            && (StatusOf(x, now) == Waiting <==> !x.paid && now < x.request.expiresAt)
            && (StatusOf(x, now) == Waiting <==> IsPending(x, now))
  {
    ReachableInv(cfg, s);
    assert SessionSound(cfg, s, id);
    PendingIffWaiting(s.sessions[id], now);
  }

  /** The status response, in every reachable state: an unpaid session reports its request and both of its ends, as
      waiting before the end of the request and as expired from then on; a paid one reports, as confirmed, what was
      issued for its backing record too. */
  lemma StatusResponseExactly(cfg: Config, s: State, id: Text, now: u64)
    requires Reachable(cfg, s) && id in s.sessions
    ensures s.sessions[id].paid ==> id in s.backing
    ensures var x := s.sessions[id];
            ToStatusResponse(x, now) ==
              if x.paid then
                var a := s.backing[id].artifact;
                StatusResponse(id, Confirmed, true, x.request.expiresAt, x.expiresAt, x.request, Some(a.txHash),
                               Some(a.token), Some(a.qrPng), Some(a.qrAscii))
              else
                StatusResponse(id, if now < x.request.expiresAt then Waiting else Expired, false, x.request.expiresAt,
                               x.expiresAt, x.request, None, None, None, None)
  {
    ReachableInv(cfg, s);
    SoundFields(cfg, s, id);
  }

  lemma SoundFields(cfg: Config, s: State, id: Text)
    requires id in s.sessions && SessionSound(cfg, s, id)
    ensures s.sessions[id].request.sessionId == id
    ensures s.sessions[id].paid ==>
              id in s.backing && s.sessions[id] == Paid(Unpaid(s.sessions[id]), s.backing[id].artifact)
    ensures !s.sessions[id].paid ==> s.sessions[id] == Unpaid(s.sessions[id])
  {
  }

  // ----- Where sessions come from -----

  /** Apart from its payment fields, a session is what its insertion made of the memo, the order and the time. */
  predicate InsertedAs(cfg: Config, a: Action, x: SessionRecord) {
    && a.Insert?
    && x.request.sessionId == a.memo && x.request.memo == a.memo
    && x.request.destination == cfg.destination && x.request.amount == a.amount && x.request.asset == a.asset
    && x.request.qrPayload == Ascii("web+stellar:pay?destination=") + cfg.destination + Ascii("&amount=") + a.amount
                              + Ascii("&memo=") + a.memo
    && x.request.expiresAt == WrappingAdd(a.stamp, 900)
    && x.eventId == a.eventId && x.expiresAt == WrappingAdd(a.stamp, cfg.tokenTtlSecs)
  }

  lemma InsertMakes(cfg: Config, s: State, a: Action)
    requires Enabled(s, a) && a.Insert?
    ensures a.memo in Step(cfg, s, a).sessions && InsertedAs(cfg, a, Step(cfg, s, a).sessions[a.memo])
  {
  }

  lemma PaymentKeepsInserted(cfg: Config, a: Action, x: SessionRecord, y: SessionRecord)
    requires InsertedAs(cfg, a, x) && Unpaid(x) == Unpaid(y)
    ensures InsertedAs(cfg, a, y)
  {
    assert Unpaid(x).request == x.request && Unpaid(y).request == y.request;
    assert Unpaid(x).eventId == x.eventId && Unpaid(y).eventId == y.eventId;
    assert Unpaid(x).expiresAt == x.expiresAt && Unpaid(y).expiresAt == y.expiresAt;
  }

  predicate Inserts(a: Action, id: Text) {
    a.Insert? && a.memo == id
  }

  /** Over any run, the sessions that are new at its end are exactly those inserted in it, and each still carries what
      its insertion was given: amount, asset, event, and the stamp plus each of the two durations. */
  lemma {:induction false} InsertedExactly(cfg: Config, s: State, actions: seq<Action>, id: Text)
    requires Inv(cfg, s) && Possible(cfg, s, actions)
    ensures var end := Exec(cfg, s, actions);
            && (id in end.sessions <==> id in s.sessions || exists a <- actions :: Inserts(a, id))
            && (forall a <- actions :: Inserts(a, id) ==> id !in s.sessions && InsertedAs(cfg, a, end.sessions[id]))
    decreases |actions|
  {
    if actions != [] {
      var a, rest := actions[0], actions[1..];
      var s' := Step(cfg, s, a);
      StepKeepsInv(cfg, s, a);
      StepSessions(cfg, s, a, id);
      InsertedExactly(cfg, s', rest, id);
      assert actions == [a] + rest;
      assert forall b :: b in actions <==> b == a || b in rest;
      if Inserts(a, id) {
        InsertMakes(cfg, s, a);
        RunExtends(cfg, s', rest);
        PaymentKeepsInserted(cfg, a, s'.sessions[id], Exec(cfg, s', rest).sessions[id]);
      }
    }
  }

  lemma StepSessions(cfg: Config, s: State, a: Action, id: Text)
    requires Inv(cfg, s) && Enabled(s, a)
    ensures id in Step(cfg, s, a).sessions <==> id in s.sessions || Inserts(a, id)
    ensures Inserts(a, id) ==> id !in s.sessions
  {
    if a.Insert? {
      InsertIsNew(cfg, s, a);
    } else if a.Mark? {
      MarkLeavesOthers(s, cfg);
    }
  }

  // ----- The end of a session -----

  /** A confirmed session gives the same answer forever. */
  lemma ConfirmedForever(cfg: Config, s: State, actions: seq<Action>, id: Text, now: u64, later: u64)
    requires Reachable(cfg, s) && Possible(cfg, s, actions)
    requires id in s.sessions && StatusOf(s.sessions[id], now) == Confirmed
    ensures id in Exec(cfg, s, actions).sessions
    ensures ToStatusResponse(Exec(cfg, s, actions).sessions[id], later) == ToStatusResponse(s.sessions[id], now)
  {
    SessionLifecycle(cfg, s, id, now);
    ReachableInv(cfg, s);
    RunExtends(cfg, s, actions);
  }

  predicate InBatch(s: State, id: Text) {
    exists i :: 0 <= i < |s.batch| && s.batch[i].request.sessionId == id
  }

  /** An unpaid session whose request has expired and which the watcher is not working on. */
  predicate DeadSession(s: State, id: Text) {
    id in s.sessions && StatusOf(s.sessions[id], s.clock) == Expired && !InBatch(s, id)
  }

  lemma StepKeepsDead(cfg: Config, s: State, a: Action, id: Text)
    requires Inv(cfg, s) && Enabled(s, a) && DeadSession(s, id)
    ensures DeadSession(Step(cfg, s, a), id)
  {
    StepExtends(cfg, s, a);
    assert SessionSound(cfg, s, id);
    StepKeepsOutOfBatch(cfg, s, a, id);
    DeadStays(s, Step(cfg, s, a), id);
  }

  lemma DeadStays(s: State, s': State, id: Text)
    requires DeadSession(s, id) && s.sessions[id] == Unpaid(s.sessions[id])
    requires Extends(s, s') && s'.sessions[id] == s.sessions[id] && !InBatch(s', id)
    ensures DeadSession(s', id)
  {
  }

  lemma RestOutOfBatch(s: State, s': State, id: Text)
    requires !InBatch(s, id)
    requires s'.batch == s.batch || (s.batch != [] && s'.batch == s.batch[1..])
    ensures !InBatch(s', id)
  {
    assert forall i :: 0 <= i < |s'.batch| ==>
      s'.batch[i] == s.batch[i] || (i + 1 < |s.batch| && s'.batch[i] == s.batch[i + 1]);
  }

  lemma StepKeepsOutOfBatch(cfg: Config, s: State, a: Action, id: Text)
    requires Inv(cfg, s) && Enabled(s, a) && DeadSession(s, id)
    ensures var s' := Step(cfg, s, a);
            id in s'.sessions && s'.sessions[id] == s.sessions[id] && !InBatch(s', id)
  {
    match a
    case Tick(_, _, _) => ExpiredNotInSnapshot(cfg, s, a, id);
    case Insert(_, _, _, _, _) => InsertMoves(cfg, s, a, id);
    case Mark => MarkMoves(cfg, s, id);
    case Lookup(_) => LookupMoves(cfg, s, a, id);
    case _ => RestOutOfBatch(s, Step(cfg, s, a), id);
  }

  lemma InsertMoves(cfg: Config, s: State, a: Action, id: Text)
    requires Inv(cfg, s) && Enabled(s, a) && a.Insert? && id in s.sessions && !InBatch(s, id)
    ensures var s' := Step(cfg, s, a);
            id in s'.sessions && s'.sessions[id] == s.sessions[id] && !InBatch(s', id)
  {
    InsertIsNew(cfg, s, a);
    RestOutOfBatch(s, Step(cfg, s, a), id);
  }

  lemma MarkMoves(cfg: Config, s: State, id: Text)
    requires Inv(cfg, s) && Enabled(s, Mark) && id in s.sessions && !InBatch(s, id)
    ensures var s' := Step(cfg, s, Mark);
            id in s'.sessions && s'.sessions[id] == s.sessions[id] && !InBatch(s', id)
  {
    MarkLeavesOthers(s, cfg);
    assert s.batch[0].request.sessionId != id;
    RestOutOfBatch(s, Step(cfg, s, Mark), id);
  }

  lemma LookupMoves(cfg: Config, s: State, a: Action, id: Text)
    requires Enabled(s, a) && a.Lookup? && id in s.sessions && !InBatch(s, id)
    ensures var s' := Step(cfg, s, a);
            id in s'.sessions && s'.sessions[id] == s.sessions[id] && !InBatch(s', id)
  {
    RestOutOfBatch(s, Step(cfg, s, a), id);
  }

  lemma ExpiredNotInSnapshot(cfg: Config, s: State, a: Action, id: Text)
    requires Inv(cfg, s) && Enabled(s, a) && a.Tick? && id in s.sessions && s.sessions[id].request.expiresAt <= s.clock
    ensures !InBatch(Step(cfg, s, a), id)
  {
    forall i | 0 <= i < |a.order| ensures Step(cfg, s, a).batch[i].request.sessionId != id {
      assert a.order[i] in SnapshotIds(s.sessions, a.readings);
      assert Identified(cfg, s, a.order[i]);
    }
  }

  /** A session that has expired outside the watcher's current batch stays expired forever. */
  lemma {:induction false} DeadForever(cfg: Config, s: State, actions: seq<Action>, id: Text)
    requires Inv(cfg, s) && Possible(cfg, s, actions) && DeadSession(s, id)
    ensures DeadSession(Exec(cfg, s, actions), id)
    decreases |actions|
  {
    if actions != [] {
      StepKeepsInv(cfg, s, actions[0]);
      StepKeepsDead(cfg, s, actions[0], id);
      DeadForever(cfg, Step(cfg, s, actions[0]), actions[1..], id);
    }
  }
}
