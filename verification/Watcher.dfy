/** The payment watcher: one pass over a snapshot of the pending sessions. */
module Watcher {
  import opened Bytes
  import opened Wrappers
  import opened Signing
  import opened Issuance
  import opened Horizon
  import opened PaymentStore

  datatype Config = Config(destination: Text, tokenTtlSecs: u64, key: SigningKey, qr: Renderer)

  /** What the surroundings answer for one session: the page of the ledger server, unless the lookup failed, and
      the random nonce of the token. */
  datatype Answer = Answer(page: Option<seq<PaymentRecord>>, nonce: Text)

  /** The outcome for a session: the record that confirms it and the artifact issued for it. */
  datatype Outcome = Outcome(record: PaymentRecord, nonce: Text, artifact: AccessArtifact)

  /** Lookup and issuance for one session; none if either fails or nothing confirms it. */
  function Resolve(cfg: Config, x: SessionRecord, answer: Answer): Option<Outcome> {
    var page :- answer.page;
    var r := x.request;
    var k := FirstConfirming(page, r.destination, r.memo, r.amount, r.asset);
    if k == |page| then
      None
    else
      var artifact :- IssueToken(ParsePayment(page[k]), x.eventId, x.expiresAt, answer.nonce, cfg.key, cfg.qr);
      Some(Outcome(page[k], answer.nonce, artifact))
  }

  /** The position of the first record of the page that confirms the request. */
  predicate FirstToConfirm(page: seq<PaymentRecord>, k: int, r: PaymentRequest) {
    && 0 <= k < |page|
    && Confirms(page[k], r.destination, r.memo, r.amount, r.asset)
    && forall i :: 0 <= i < k ==> !Confirms(page[i], r.destination, r.memo, r.amount, r.asset)
  }

  /** What is issued for a session and the record that confirms it. */
  function IssuedFor(cfg: Config, x: SessionRecord, record: PaymentRecord, nonce: Text): Option<AccessArtifact> {
    IssueToken(ParsePayment(record), x.eventId, x.expiresAt, nonce, cfg.key, cfg.qr)
  }

  /** What is due to a session for a page of records, wherever in the page the confirming one is: if the first record
      that confirms it can be issued for, the session is paid with what is issued; if no record confirms it, or the
      issuance for the first that does fails, or there is no page, it stays as it is. `x` is the session as the
      watcher knows it. */
  ghost predicate DueUpdate(cfg: Config, x: SessionRecord, before: SessionRecord, after: SessionRecord, answer: Answer) {
    && (answer.page.None? ==> after == before)
    && (answer.page.Some? ==>
          var page, r := answer.page.value, x.request;
          && ((forall i :: 0 <= i < |page| ==> !Confirms(page[i], r.destination, r.memo, r.amount, r.asset)) ==>
                after == before)
          && (forall k :: FirstToConfirm(page, k, r) ==>
                match IssuedFor(cfg, x, page[k], answer.nonce)
                case None => after == before
                case Some(a) =>
                  after == before.(paid := true, txHash := Some(a.txHash), accessToken := Some(a.token),
                                   accessQrPng := Some(a.qrPng), accessQrAscii := Some(a.qrAscii))))
  }

  lemma FirstIsUnique(page: seq<PaymentRecord>, k: int, r: PaymentRequest)
    requires FirstToConfirm(page, k, r)
    ensures FirstConfirming(page, r.destination, r.memo, r.amount, r.asset) == k
  {
    IsFirst(page, r.destination, r.memo, r.amount, r.asset, k);
  }

  /** A lookup finds the first record that confirms, wherever it is in the page, and nothing else. */
  lemma ResolveExactly(cfg: Config, x: SessionRecord, answer: Answer)
    ensures answer.page.None? ==> Resolve(cfg, x, answer) == None
    ensures answer.page.Some? ==>
              var page, r := answer.page.value, x.request;
              && ((forall i :: 0 <= i < |page| ==> !Confirms(page[i], r.destination, r.memo, r.amount, r.asset)) ==>
                    Resolve(cfg, x, answer) == None)
              && (forall k :: FirstToConfirm(page, k, r) ==>
                    Resolve(cfg, x, answer) ==
                      match IssuedFor(cfg, x, page[k], answer.nonce)
                      case None => None
                      case Some(a) => Some(Outcome(page[k], answer.nonce, a)))
  {
    if answer.page.Some? {
      var page, r := answer.page.value, x.request;
      forall k | FirstToConfirm(page, k, r)
        ensures FirstConfirming(page, r.destination, r.memo, r.amount, r.asset) == k
      {
        FirstIsUnique(page, k, r);
      }
    }
  }

  lemma AppliedIsDue(cfg: Config, x: SessionRecord, before: SessionRecord, answer: Answer)
    ensures DueUpdate(cfg, x, before, Applied(before, Resolve(cfg, x, answer)), answer)
  {
    ResolveExactly(cfg, x, answer);
  }

  /** A session after its outcome has been recorded, if it has one. */
  function Applied(x: SessionRecord, outcome: Option<Outcome>): SessionRecord {
    if outcome.Some? then Paid(x, outcome.value.artifact) else x
  }

  /** A store all of whose keys are the session ids of their records. */
  predicate KeyedById(sessions: Sessions) {
    forall id :: id in sessions ==> sessions[id].request.sessionId == id
  }

  /** The body of the loop for one session of the snapshot. */
  method Process(cfg: Config, service: PaymentService, session: SessionRecord, answer: Answer)
    modifies service
    ensures var id := session.request.sessionId;
            service.sessions ==
              if id in old(service.sessions) then
                old(service.sessions)[id := Applied(old(service.sessions)[id], Resolve(cfg, session, answer))]
              else
                old(service.sessions)
    ensures var id := session.request.sessionId;
            id in old(service.sessions) ==>
              && id in service.sessions
              && DueUpdate(cfg, session, old(service.sessions)[id], service.sessions[id], answer)
  {
    var r := session.request;
    if r.sessionId in service.sessions {
      AppliedIsDue(cfg, session, service.sessions[r.sessionId], answer);
    }
    var lookup := FindConfirmedPayment(answer.page, r.destination, r.memo, r.amount, r.asset);
    if lookup.Err? || lookup.value.None? {
      return;
    }
    var artifact := IssueToken(lookup.value.value, session.eventId, session.expiresAt, answer.nonce, cfg.key, cfg.qr);
    if artifact.None? {
      return;
    }
    var marked := service.MarkPaid(r.sessionId, artifact.value);
  }

  /** The sessions in `done` have been given their new record, the others have not. */
  predicate Progress(before: Sessions, after: Sessions, done: seq<Text>, current: Sessions)
    requires after.Keys == before.Keys
  {
    && current.Keys == before.Keys
    && forall id :: id in before ==> current[id] == if id in done then after[id] else before[id]
  }

  lemma ProgressStep(before: Sessions, after: Sessions, done: seq<Text>, current: Sessions, id: Text)
    requires after.Keys == before.Keys && Progress(before, after, done, current) && id in before
    ensures Progress(before, after, done + [id], current[id := after[id]])
  {
  }

  /** Each session with its own outcome applied. */
  function AllApplied(cfg: Config, sessions: Sessions, answers: Text -> Answer): Sessions {
    map id | id in sessions :: Applied(sessions[id], Resolve(cfg, sessions[id], answers(id)))
  }

  lemma AllAppliedAt(cfg: Config, sessions: Sessions, answers: Text -> Answer, id: Text)
    requires id in sessions
    ensures AllApplied(cfg, sessions, answers)[id] == Applied(sessions[id], Resolve(cfg, sessions[id], answers(id)))
  {
  }

  /** Processing the next session of the snapshot is one more step of the pass. */
  lemma PassStep(cfg: Config, before: Sessions, answers: Text -> Answer, ids: seq<Text>, i: nat, current: Sessions)
    requires KeyedById(before) && i < |ids| && ids[i] in before && ids[i] !in ids[..i]
    requires Progress(before, AllApplied(cfg, before, answers), ids[..i], current)
    ensures var x := before[ids[i]];
            && x.request.sessionId == ids[i] && ids[i] in current
            && Progress(before, AllApplied(cfg, before, answers), ids[..i + 1],
                        current[ids[i] := Applied(current[ids[i]], Resolve(cfg, x, answers(ids[i])))])
  {
    assert ids[..i + 1] == ids[..i] + [ids[i]];
    AllAppliedAt(cfg, before, answers, ids[i]);
    ProgressStep(before, AllApplied(cfg, before, answers), ids[..i], current, ids[i]);
  }

  /** Once every pending session is done, each session has the record it should have. */
  lemma PassDone(cfg: Config, before: Sessions, answers: Text -> Answer, now: u64, ids: seq<Text>, current: Sessions)
    requires Lists(ids, PendingIds(before, now)) && Progress(before, AllApplied(cfg, before, answers), ids, current)
    ensures current.Keys == before.Keys
    ensures forall id :: id in before ==>
              var x := before[id];
              if !x.paid && x.request.expiresAt > now then DueUpdate(cfg, x, x, current[id], answers(id))
              else current[id] == x
  {
    assert forall id :: id in before ==> (id in ids <==> IsPending(before[id], now));
    forall id | id in before && IsPending(before[id], now)
      ensures DueUpdate(cfg, before[id], before[id], current[id], answers(id))
    {
      AllAppliedAt(cfg, before, answers, id);
      AppliedIsDue(cfg, before[id], before[id], answers(id));
    }
  }

  /** One pass of the watcher without interference: exactly the pending sessions whose own lookup and issuance
      succeeded are marked paid, with what was issued for them, whatever the order of the snapshot. */
  method Pass(cfg: Config, service: PaymentService, now: u64, answers: Text -> Answer)
    requires KeyedById(service.sessions)
    modifies service
    ensures service.sessions.Keys == old(service.sessions).Keys
    ensures forall id :: id in old(service.sessions) ==>
              var x := old(service.sessions)[id];
              if !x.paid && x.request.expiresAt > now then DueUpdate(cfg, x, x, service.sessions[id], answers(id))
              else service.sessions[id] == x
  {
    var pending, ids := service.PendingSessions(now);
    ghost var before := service.sessions;
    ghost var after := AllApplied(cfg, before, answers);
    for i := 0 to |pending|
      invariant Progress(before, after, ids[..i], service.sessions)
    {
      var session := pending[i];
      PassStep(cfg, before, answers, ids, i, service.sessions);
      Process(cfg, service, session, answers(session.request.sessionId));
    }
    assert ids[..|ids|] == ids;
    PassDone(cfg, before, answers, now, ids, service.sessions);
  }
}
