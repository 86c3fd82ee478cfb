/** From a payment to the gate, over whole runs of both services. */
module PaymentToGate {
  import opened Bytes
  import opened Wrappers
  import opened Signing
  import Compact = CompactToken
  import Signed = SignedToken
  import Gate
  import Settlement
  import Lightning = SettlementRuns
  import SettlementHistory
  import Horizon
  import Watcher
  import Stellar = WatcherRuns
  import WatcherPayments

  /** Lightning path: in every reachable state, the token of a settled invoice says that its payment hash was paid
      for the configured event, and the gate admits it exactly through the expiry of the invoice. */
  lemma SettledInvoiceAtGate(cfg: Settlement.Config, s: Lightning.State, id: Text, vk: VerifyingKey,
                             first: u64, second: u64)
    requires Lightning.Reachable(cfg, s) && KeyPair(cfg.key, vk)
    requires id in s.store.sessions && s.store.sessions[id].status.Settled?
    ensures var x := s.store.sessions[id];
            && x.accessToken.Some?
            && Compact.VerifyCompactToken(x.accessToken.value, vk) ==
                 Ok(Compact.CompactPayload(x.paymentHash, x.expiresAt, cfg.eventId))
            && (Gate.Admits(x.accessToken.value, vk, first, second) <==> second <= x.expiresAt)
  {
    var x := s.store.sessions[id];
    SettlementHistory.SettledHoldsItsToken(cfg, s, id);
    var payload := Compact.CompactPayload(x.paymentHash, x.expiresAt, cfg.eventId);
    Compact.CompactRoundTrip(payload, cfg.key, vk);
    Gate.CompactTokenAtGate(payload, cfg.key, vk, first, second);
  }

  /** What the token of a paid session says: the order its session was inserted for, and the fields of the record. */
  ghost predicate SaysPaid(t: Signed.AccessToken, cfg: Watcher.Config, insert: Stellar.Action, record: Horizon.PaymentRecord) {
    && insert.Insert?
    && t.version == 1 && t.eventId == insert.eventId && t.paymentHash == []
    && t.txHash == (if record.transactionHash != [] then record.transactionHash else record.id)
    && t.source == record.sender && t.amount == insert.amount == record.amount && t.memo == insert.memo
    && t.asset == Horizon.AssetOf(record) && EqIgnoreAsciiCase(t.asset, insert.asset)
    && t.ledger == (if record.ledger.Some? then record.ledger.value else 0)
    && t.expiresAt == WrappingAdd(insert.stamp, cfg.tokenTtlSecs)
  }

  /** Stellar path: after every run, the token of a paid session parses to the fields of a matching ledger record and of
      the order its session was inserted for, and the gate admits it exactly before the expiry fixed at its insertion:
      the time then plus the life of a token. */
  lemma PaidSessionAtGate(cfg: Watcher.Config, clock: u64, ledger: set<Horizon.PaymentRecord>, actions: seq<Stellar.Action>,
                          id: Text, vk: VerifyingKey, first: u64, second: u64)
    returns (insert: Stellar.Action)
    requires Stellar.Possible(cfg, Stellar.Initial(clock, ledger), actions) && KeyPair(cfg.key, vk)
    requires var s := Stellar.Exec(cfg, Stellar.Initial(clock, ledger), actions); id in s.sessions && s.sessions[id].paid
    ensures insert in actions && insert.Insert? && insert.memo == id
    ensures var s := Stellar.Exec(cfg, Stellar.Initial(clock, ledger), actions);
            && id in s.backing && s.sessions[id].accessToken.Some?
            && s.backing[id].record in s.ledger
            && var token := s.sessions[id].accessToken.value;
            var signed := Signed.SignedTokenFromJson(token);
            && signed.Some? && SaysPaid(signed.value.token, cfg, insert, s.backing[id].record)
            && (Gate.Admits(token, vk, first, second) <==> first < WrappingAdd(insert.stamp, cfg.tokenTtlSecs))
  {
    var start := Stellar.Initial(clock, ledger);
    WatcherPayments.InsertedExactly(cfg, start, actions, id);
    insert :| insert in actions && WatcherPayments.Inserts(insert, id);
    PaidOrderAtGate(cfg, Stellar.Exec(cfg, start, actions), insert, vk, first, second);
  }

  lemma PaidOrderAtGate(cfg: Watcher.Config, s: Stellar.State, insert: Stellar.Action, vk: VerifyingKey, first: u64, second: u64)
    requires Stellar.Reachable(cfg, s) && KeyPair(cfg.key, vk) && insert.Insert?
    requires insert.memo in s.sessions && s.sessions[insert.memo].paid
    requires WatcherPayments.InsertedAs(cfg, insert, s.sessions[insert.memo])
    ensures var id := insert.memo;
            && id in s.backing && s.sessions[id].accessToken.Some? && s.backing[id].record in s.ledger
            && var token := s.sessions[id].accessToken.value;
            var signed := Signed.SignedTokenFromJson(token);
            && signed.Some? && SaysPaid(signed.value.token, cfg, insert, s.backing[id].record)
            && (Gate.Admits(token, vk, first, second) <==> first < WrappingAdd(insert.stamp, cfg.tokenTtlSecs))
  {
    PaidTokenAtGate(cfg, s, insert.memo, vk, first, second);
    WatcherPayments.PaymentSoundness(cfg, s, insert.memo);
  }

  lemma PaidTokenAtGate(cfg: Watcher.Config, s: Stellar.State, id: Text, vk: VerifyingKey, first: u64, second: u64)
    requires Stellar.Reachable(cfg, s) && KeyPair(cfg.key, vk)
    requires id in s.sessions && s.sessions[id].paid
    ensures id in s.backing && s.sessions[id].accessToken.Some?
    ensures var x, record := s.sessions[id], s.backing[id].record;
            var signed := Signed.SignedTokenFromJson(x.accessToken.value);
            && signed.Some?
            && signed.value.token == Signed.AccessToken(
                 1, x.eventId, [], if record.transactionHash != [] then record.transactionHash else record.id, record.sender,
                 x.request.amount, Horizon.ParsePayment(record).asset, id,
                 if record.ledger.Some? then record.ledger.value else 0, x.expiresAt, s.backing[id].nonce)
            && (Gate.Admits(x.accessToken.value, vk, first, second) <==> first < x.expiresAt)
  {
    WatcherPayments.PaymentSoundness(cfg, s, id);
    var x, o := s.sessions[id], s.backing[id];
    Gate.IssuedTokenAtGate(Horizon.ParsePayment(o.record), x.eventId, x.expiresAt, o.nonce, cfg.key, vk, cfg.qr,
                           first, second);
  }
}
