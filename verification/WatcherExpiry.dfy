/** Which expired sessions can still be confirmed. */
module WatcherExpiry {
  import opened Bytes
  import opened Wrappers
  import opened Issuance
  import opened Horizon
  import opened PaymentStore
  import opened Watcher
  import opened WatcherRuns
  import opened WatcherPayments

  // ----- Expired sessions that are still confirmed -----

  /** The first steps of a run that confirms the `k`-th session of the batch: the lookups before it fail. */
  function FailedLookups(n: nat): seq<Action> {
    seq(n, _ => Lookup(Answer(None, [])))
  }

  lemma {:induction false} SkipsTo(cfg: Config, s: State, k: nat)
    requires Inv(cfg, s) && s.holding.None? && k < |s.batch|
    ensures Possible(cfg, s, FailedLookups(k))
    ensures Exec(cfg, s, FailedLookups(k)) == s.(batch := s.batch[k..])
    decreases k
  {
    if k > 0 {
      var a := Lookup(Answer(None, []));
      var s' := Step(cfg, s, a);
      assert FailedLookups(k)[1..] == FailedLookups(k - 1);
      StepKeepsInv(cfg, s, a);
      SkipsTo(cfg, s', k - 1);
      assert s.batch[1..][k - 1..] == s.batch[k..];
    } else {
      assert s.batch[0..] == s.batch;
    }
  }

  lemma {:induction false} RunConcat(cfg: Config, s: State, p: seq<Action>, q: seq<Action>)
    requires Possible(cfg, s, p) && Possible(cfg, Exec(cfg, s, p), q)
    ensures Possible(cfg, s, p + q) && Exec(cfg, s, p + q) == Exec(cfg, Exec(cfg, s, p), q)
    decreases |p|
  {
    if p == [] {
      assert p + q == q;
    } else {
      RunConcat(cfg, Step(cfg, s, p[0]), p[1..], q);
      RunOfStep(cfg, s, p[0], p[1..] + q);
      assert p + q == [p[0]] + (p[1..] + q);
    }
  }

  lemma ResolvesWith(cfg: Config, x: SessionRecord, record: PaymentRecord, nonce: Text)
    requires Confirms(record, x.request.destination, x.request.memo, x.request.amount, x.request.asset)
    requires IssueToken(ParsePayment(record), x.eventId, x.expiresAt, nonce, cfg.key, cfg.qr).Some?
    ensures Resolve(cfg, x, Answer(Some([record]), nonce)).Some?
  {
  }

  /** A successful lookup holds an outcome for the first session and changes nothing else. */
  lemma LookupHolds(cfg: Config, s: State, answer: Answer)
    requires Enabled(s, Lookup(answer)) && Resolve(cfg, s.batch[0], answer).Some?
    ensures Step(cfg, s, Lookup(answer)) == s.(holding := Resolve(cfg, s.batch[0], answer))
  {
  }

  /** Looking up the first session of the batch, once a record that confirms it is in the ledger, and marking it. */
  lemma ConfirmsHead(cfg: Config, s: State, record: PaymentRecord, nonce: Text)
    requires Inv(cfg, s) && s.holding.None? && s.batch != []
    requires var r := s.batch[0].request; Confirms(record, r.destination, r.memo, r.amount, r.asset)
    requires var x := s.batch[0];
             IssueToken(ParsePayment(record), x.eventId, x.expiresAt, nonce, cfg.key, cfg.qr).Some?
    ensures var actions := [Grow(record), Lookup(Answer(Some([record]), nonce)), Mark];
            Possible(cfg, s, actions) && PaidIn(Exec(cfg, s, actions), HeadId(s))
  {
    var s1 := Step(cfg, s, Grow(record));
    var look := Lookup(Answer(Some([record]), nonce));
    ResolvesWith(cfg, s.batch[0], record, nonce);
    LookupHolds(cfg, s1, look.answer);
    MarkPaysHead(cfg, Step(cfg, s1, look));
    ThreeSteps(cfg, s, Grow(record), look, Mark);
  }

  lemma ThreeSteps(cfg: Config, s: State, a: Action, b: Action, c: Action)
    requires Enabled(s, a) && Enabled(Step(cfg, s, a), b) && Enabled(Step(cfg, Step(cfg, s, a), b), c)
    ensures Possible(cfg, s, [a, b, c])
    ensures Exec(cfg, s, [a, b, c]) == Step(cfg, Step(cfg, Step(cfg, s, a), b), c)
  {
    var s1 := Step(cfg, s, a);
    var s2 := Step(cfg, s1, b);
    RunOfStep(cfg, s2, c, []);
    RunOfStep(cfg, s1, b, [c]);
    RunOfStep(cfg, s, a, [b, c]);
    assert [c] + [] == [c] && [b] + [c] == [b, c] && [a] + [b, c] == [a, b, c];
  }

  /** The rendering of some token for the session can succeed, for a record that confirms it. */
  ghost predicate Confirmable(cfg: Config, x: SessionRecord) {
    exists record, nonce ::
      && Confirms(record, x.request.destination, x.request.memo, x.request.amount, x.request.asset)
      && IssueToken(ParsePayment(record), x.eventId, x.expiresAt, nonce, cfg.key, cfg.qr).Some?
  }

  lemma HeadConfirms(cfg: Config, s: State, x: SessionRecord) returns (actions: seq<Action>)
    requires Inv(cfg, s) && s.holding.None? && s.batch != [] && s.batch[0] == x && Confirmable(cfg, x)
    ensures Possible(cfg, s, actions) && PaidIn(Exec(cfg, s, actions), x.request.sessionId)
  {
    var record, nonce :|
      && Confirms(record, x.request.destination, x.request.memo, x.request.amount, x.request.asset)
      && IssueToken(ParsePayment(record), x.eventId, x.expiresAt, nonce, cfg.key, cfg.qr).Some?;
    actions := [Grow(record), Lookup(Answer(Some([record]), nonce)), Mark];
    ConfirmsHead(cfg, s, record, nonce);
  }

  ghost predicate CanBecomePaid(cfg: Config, s: State, id: Text) {
    exists actions :: Possible(cfg, s, actions) && PaidIn(Exec(cfg, s, actions), id)
  }

  lemma PaidAfterRun(cfg: Config, s: State, p: seq<Action>, id: Text)
    requires Possible(cfg, s, p) && CanBecomePaid(cfg, Exec(cfg, s, p), id)
    ensures CanBecomePaid(cfg, s, id)
  {
    var t := Exec(cfg, s, p);
    var rest :| Possible(cfg, t, rest) && PaidIn(Exec(cfg, t, rest), id);
    RunConcat(cfg, s, p, rest);
  }

  /** A session of the batch can still be confirmed, whatever the time. */
  lemma InBatchConfirms(cfg: Config, s: State, k: nat, x: SessionRecord)
    requires Inv(cfg, s) && s.holding.None? && k < |s.batch| && s.batch[k] == x && Confirmable(cfg, x)
    ensures CanBecomePaid(cfg, s, x.request.sessionId)
  {
    SkipsTo(cfg, s, k);
    RunKeepsInv(cfg, s, FailedLookups(k));
    var t := s.(batch := s.batch[k..]);
    var tail := HeadConfirms(cfg, t, x);
    PaidAfterRun(cfg, s, FailedLookups(k), x.request.sessionId);
  }

  lemma DeadCannotBecomePaid(cfg: Config, s: State, id: Text)
    requires Inv(cfg, s) && DeadSession(s, id)
    ensures !CanBecomePaid(cfg, s, id)
  {
    forall actions | Possible(cfg, s, actions) ensures !PaidIn(Exec(cfg, s, actions), id) {
      DeadForever(cfg, s, actions, id);
      DeadUnpaid(Exec(cfg, s, actions), id);
    }
  }

  lemma HeldConfirms(cfg: Config, s: State)
    requires Inv(cfg, s) && Enabled(s, Mark)
    ensures CanBecomePaid(cfg, s, HeadId(s))
  {
    MarkPaysHead(cfg, s);
    var s' := Step(cfg, s, Mark);
    assert Possible(cfg, s', []) && PaidIn(Exec(cfg, s', []), HeadId(s));
    PaidLater(cfg, s, Mark, HeadId(s));
  }

  /** Once the watcher has marked what it holds, if anything, the session is still in the batch. */
  lemma AfterMark(cfg: Config, s: State, k: nat) returns (p: seq<Action>, t: State, j: nat)
    requires Reachable(cfg, s) && k < |s.batch| && (s.holding.None? || k > 0)
    ensures Possible(cfg, s, p) && Exec(cfg, s, p) == t && Inv(cfg, t) && t.holding.None?
    ensures j < |t.batch| && t.batch[j] == s.batch[k]
  {
    if s.holding.None? {
      ReachableInv(cfg, s);
      p, t, j := [], s, k;
    } else {
      p, t := MarkedRest(cfg, s);
      j := k - 1;
      assert t.batch[j] == s.batch[1..][j];
    }
  }

  lemma MarkedRest(cfg: Config, s: State) returns (p: seq<Action>, t: State)
    requires Reachable(cfg, s) && s.batch != [] && s.holding.Some?
    ensures Possible(cfg, s, p) && Exec(cfg, s, p) == t && Inv(cfg, t)
    ensures t.holding.None? && t.batch == s.batch[1..]
  {
    ReachableInv(cfg, s);
    MarkLeavesOthers(s, cfg);
    StepKeepsInv(cfg, s, Mark);
    p, t := [Mark], Step(cfg, s, Mark);
    OneStep(cfg, s, Mark);
  }

  lemma OneStep(cfg: Config, s: State, a: Action)
    requires Enabled(s, a)
    ensures Possible(cfg, s, [a]) && Exec(cfg, s, [a]) == Step(cfg, s, a)
  {
    RunOfStep(cfg, s, a, []);
    assert [a] + [] == [a];
  }

  lemma BatchMemberConfirms(cfg: Config, s: State, k: nat)
    requires Reachable(cfg, s) && k < |s.batch| && Confirmable(cfg, s.batch[k])
    ensures CanBecomePaid(cfg, s, s.batch[k].request.sessionId)
  {
    if s.holding.Some? && k == 0 {
      ReachableInv(cfg, s);
      HeldConfirms(cfg, s);
    } else {
      var p, t, j := AfterMark(cfg, s, k);
      InBatchConfirms(cfg, t, j, s.batch[k]);
      PaidAfterRun(cfg, s, p, s.batch[k].request.sessionId);
    }
  }

  lemma PaidLater(cfg: Config, s: State, a: Action, id: Text)
    requires Enabled(s, a) && CanBecomePaid(cfg, Step(cfg, s, a), id)
    ensures CanBecomePaid(cfg, s, id)
  {
    var rest :| Possible(cfg, Step(cfg, s, a), rest) && PaidIn(Exec(cfg, Step(cfg, s, a), rest), id);
    RunOfStep(cfg, s, a, rest);
  }

  lemma InBatchMember(s: State, id: Text) returns (k: nat)
    requires BatchSound(s) && InBatch(s, id)
    ensures k < |s.batch| && s.batch[k].request.sessionId == id && id in s.sessions && s.batch[k] == s.sessions[id]
  {
    k :| 0 <= k < |s.batch| && s.batch[k].request.sessionId == id;
  }

  /** An expired session can still become confirmed exactly when it is in the unprocessed part of the watcher's
      snapshot, given that some record would confirm it with a token that can be rendered. */
  lemma ExpiredConfirmsExactlyInBatch(cfg: Config, s: State, id: Text)
    requires Reachable(cfg, s)
    requires id in s.sessions && StatusOf(s.sessions[id], s.clock) == Expired && Confirmable(cfg, s.sessions[id])
    ensures InBatch(s, id) <==> CanBecomePaid(cfg, s, id)
  {
    ReachableInv(cfg, s);
    if InBatch(s, id) {
      var k := InBatchMember(s, id);
      BatchMemberConfirms(cfg, s, k);
    } else {
      DeadCannotBecomePaid(cfg, s, id);
    }
  }

  lemma DeadUnpaid(s: State, id: Text)
    requires DeadSession(s, id)
    ensures !PaidIn(s, id)
  {
  }

  // ----- An expired session that is confirmed -----

  /** A record made for the request of a session. */
  function MatchingRecord(r: PaymentRequest): PaymentRecord {
    AsciiIsUtf8(Ascii("payment"));
    PaymentRecord([], [], [], r.destination, r.amount, [], Some(r.asset), true, Some(r.memo), None, Ascii("payment"))
  }

  lemma MatchingRecordConfirms(r: PaymentRequest)
    ensures Confirms(MatchingRecord(r), r.destination, r.memo, r.amount, r.asset)
  {
  }

  /** Where every token can be rendered, every session is confirmable. */
  lemma RenderableIsConfirmable(cfg: Config, x: SessionRecord)
    requires forall token :: cfg.qr.png(token).Some?
    requires forall token :: cfg.qr.ascii(token).Some?
    ensures Confirmable(cfg, x)
  {
    MatchingRecordConfirms(x.request);
    var record := MatchingRecord(x.request);
    assert IssueToken(ParsePayment(record), x.eventId, x.expiresAt, [], cfg.key, cfg.qr).Some?;
  }

  /** A session inserted now and then caught in a snapshot, once its request window has passed. */
  lemma InsertedThenExpires(cfg: Config, s: State, memo: Text, amount: Text, asset: Text, eventId: Text)
    returns (actions: seq<Action>)
    requires s.sessions == map[] && s.batch == [] && s.memos == {} && s.clock + REQUEST_WINDOW_SECS <= U64_MAX
    ensures Possible(cfg, s, actions)
    ensures var end := Exec(cfg, s, actions);
            && memo in end.sessions && StatusOf(end.sessions[memo], end.clock) == Expired && InBatch(end, memo)
  {
    var insert := Insert(memo, amount, asset, eventId, s.clock);
    var s1 := Step(cfg, s, insert);
    var x := s1.sessions[memo];
    assert s1.sessions == map[memo := x] && IsPending(x, s.clock);
    var tick := Tick([memo], map[memo := s.clock], s.clock);
    assert SnapshotIds(s1.sessions, tick.readings) == {memo};
    var s2 := Step(cfg, s1, tick);
    assert s2.batch[0] == x;
    var advance := Advance(s.clock + REQUEST_WINDOW_SECS);
    ThreeSteps(cfg, s, insert, tick, advance);
    actions := [insert, tick, advance];
  }

  /** Expired is not final: from every clock and ledger at the start a run reaches a session, whatever its request,
      that has expired and is in the unprocessed part of the snapshot; if it is confirmable, as it is when every
      token can be rendered, the run can go on to mark it paid. */
  lemma ExpiredStillConfirmed(cfg: Config, clock: u64, ledger: set<PaymentRecord>, memo: Text, amount: Text, asset: Text,
                              eventId: Text)
    returns (s: State)
    requires clock + REQUEST_WINDOW_SECS <= U64_MAX
    ensures Reachable(cfg, s)
    ensures memo in s.sessions && StatusOf(s.sessions[memo], s.clock) == Expired && InBatch(s, memo)
    ensures Confirmable(cfg, s.sessions[memo]) ==> CanBecomePaid(cfg, s, memo)
    ensures (forall token :: cfg.qr.png(token).Some?) && (forall token :: cfg.qr.ascii(token).Some?) ==>
              CanBecomePaid(cfg, s, memo)
  {
    var actions := InsertedThenExpires(cfg, Initial(clock, ledger), memo, amount, asset, eventId);
    s := Exec(cfg, Initial(clock, ledger), actions);
    if (forall token :: cfg.qr.png(token).Some?) && (forall token :: cfg.qr.ascii(token).Some?) {
      RenderableIsConfirmable(cfg, s.sessions[memo]);
    }
    if Confirmable(cfg, s.sessions[memo]) {
      ExpiredConfirmsExactlyInBatch(cfg, s, memo);
    }
  }
}
