/** The store behind the Lightning path: sessions by invoice id and an index from payment hashes to
    invoice ids, each behind its own lock. Every critical section of the service is one function on
    the store; the class runs the same sections on its fields. */
module Settlement {
  import opened Bytes
  import opened Wrappers
  import opened Signing
  import opened CompactToken
  import opened Issuance

  datatype InvoiceStatus = Pending | Settled

  datatype AccessSession = AccessSession(
    invoiceId: Text,
    paymentHash: Text,
    amountMsat: u64,
    expiresAt: u64,
    invoiceQrPng: bytes,
    accessQrAscii: Option<bytes>,
    status: InvoiceStatus,
    accessToken: Option<bytes>,
    accessQrPng: Option<bytes>)

  datatype InvoiceResponse = InvoiceResponse(
    invoiceId: Text, amountMsat: u64, invoice: bytes, invoiceQrPng: bytes, invoiceQrAscii: bytes, expiresAt: u64)

  datatype StatusResponse = StatusResponse(
    status: InvoiceStatus, expiresAt: u64, accessToken: Option<bytes>, accessQrPng: Option<bytes>,
    accessQrAscii: Option<bytes>)

  datatype ProofError = NotFound | Internal

  datatype Config = Config(eventId: Text, invoiceExpirySecs: u64, amountMsat: u64, key: SigningKey, qr: Renderer)

  /** What the gateway answers to a request for an invoice. */
  datatype LightningInvoice = LightningInvoice(invoice: bytes, paymentHash: Text)

  datatype Store = Store(sessions: map<Text, AccessSession>, index: map<Text, Text>)

  const EMPTY_STORE := Store(map[], map[])

  // ----- Sessions -----

  function NewSession(id: Text, hash: Text, amountMsat: u64, expiresAt: u64, qrPng: bytes): AccessSession {
    AccessSession(id, hash, amountMsat, expiresAt, qrPng, None, Pending, None, None)
  }

  function PayloadFor(cfg: Config, hash: Text, session: AccessSession): CompactPayload {
    CompactPayload(hash, session.expiresAt, cfg.eventId)
  }

  function InvoiceToken(cfg: Config, hash: Text, session: AccessSession): bytes {
    SignCompactPayload(PayloadFor(cfg, hash, session), cfg.key)
  }

  /** The token fits into both QR forms. */
  predicate Renders(cfg: Config, hash: Text, session: AccessSession) {
    cfg.qr.png(InvoiceToken(cfg, hash, session)).Some? && cfg.qr.ascii(InvoiceToken(cfg, hash, session)).Some?
  }

  /** The session after its payment has been accepted. */
  function Settle(cfg: Config, hash: Text, session: AccessSession): AccessSession
    requires Renders(cfg, hash, session)
  {
    var token := InvoiceToken(cfg, hash, session);
    session.(status := Settled, accessToken := Some(token), accessQrPng := cfg.qr.png(token),
             accessQrAscii := cfg.qr.ascii(token))
  }

  /** Settled exactly when the token and both QR forms are there. */
  predicate AllOrNothing(session: AccessSession) {
    && (session.status.Settled? <==> session.accessToken.Some?)
    && (session.status.Settled? <==> session.accessQrPng.Some?)
    && (session.status.Settled? <==> session.accessQrAscii.Some?)
  }

  // ----- Critical sections -----

  /** First section of `create_invoice`. */
  function InsertSession(store: Store, session: AccessSession): Store {
    store.(sessions := store.sessions[session.invoiceId := session])
  }

  /** Second section of `create_invoice`. */
  function InsertIndex(store: Store, hash: Text, id: Text): Store {
    store.(index := store.index[hash := id])
  }

  /** First section of `handle_payment`. */
  function LookupPayment(store: Store, hash: Text): Option<Text> {
    if hash in store.index then Some(store.index[hash]) else None
  }

  /** Whether the second section of `handle_payment` settles the session it looks up. */
  predicate CanSettle(cfg: Config, store: Store, hash: Text, id: Text) {
    id in store.sessions && store.sessions[id].status.Pending? && Renders(cfg, hash, store.sessions[id])
  }

  /** Second section of `handle_payment`. */
  function SettleSession(cfg: Config, store: Store, hash: Text, id: Text): Store {
    if CanSettle(cfg, store, hash, id) then
      store.(sessions := store.sessions[id := Settle(cfg, hash, store.sessions[id])])
    else
      store
  }

  /** The section of `check_invoice`. */
  function CheckInvoice(store: Store, id: Text): Result<StatusResponse, ProofError> {
    if id !in store.sessions then
      Err(NotFound)
    else
      var s := store.sessions[id];
      Ok(StatusResponse(s.status, s.expiresAt, s.accessToken, s.accessQrPng, s.accessQrAscii))
  }

  // ----- The service -----

  class ProofService {
    const config: Config
    var sessions: map<Text, AccessSession>
    var paymentIndex: map<Text, Text>

    function Contents(): Store
      reads this
    {
      Store(sessions, paymentIndex)
    }

    constructor (config: Config)
      ensures this.config == config && Contents() == EMPTY_STORE
    {
      this.config := config;
      sessions := map[];
      paymentIndex := map[];
    }

    /** One creation without interference. `gateway`, `id`, `now` and the rendered QR codes are what the
        surroundings answer. Nothing changes unless the response is an invoice. */
    method CreateInvoice(amountOverride: Option<u64>, gateway: Option<LightningInvoice>, id: Text, now: u64,
                         qrPng: Option<bytes>, qrAscii: Option<bytes>)
      returns (r: Result<InvoiceResponse, ProofError>)
      modifies this
      ensures r.Ok? <==>
              config.invoiceExpirySecs <= U32_MAX && gateway.Some? && qrPng.Some? && qrAscii.Some?
      ensures r.Err? ==> r.error == Internal && Contents() == old(Contents())
      ensures r.Ok? ==>
                && r.value.invoiceId == id && r.value.invoice == gateway.value.invoice
                && r.value.expiresAt == WrappingAdd(now, config.invoiceExpirySecs)
                && r.value.amountMsat == (if amountOverride.Some? then amountOverride.value else config.amountMsat)
                && r.value.invoiceQrPng == qrPng.value && r.value.invoiceQrAscii == qrAscii.value
                && LookupPayment(Contents(), gateway.value.paymentHash) == Some(id)
                && CheckInvoice(Contents(), id) == Ok(StatusResponse(Pending, r.value.expiresAt, None, None, None))
                && sessions[id].paymentHash == gateway.value.paymentHash && sessions[id].invoiceId == id
                && sessions[id].amountMsat == r.value.amountMsat && sessions[id].invoiceQrPng == qrPng.value
                && sessions - {id} == old(sessions) - {id}
                && paymentIndex - {gateway.value.paymentHash} == old(paymentIndex) - {gateway.value.paymentHash}
    {
      if config.invoiceExpirySecs > U32_MAX {
        return Err(Internal);
      }
      var amountMsat := if amountOverride.Some? then amountOverride.value else config.amountMsat;
      if gateway.None? {
        return Err(Internal);
      }
      var hash := gateway.value.paymentHash;
      var expiresAt := WrappingAdd(now, config.invoiceExpirySecs);
      if qrPng.None? || qrAscii.None? {
        return Err(Internal);
      }
      StoreSession(NewSession(id, hash, amountMsat, expiresAt, qrPng.value));
      StoreIndex(hash, id);
      return Ok(InvoiceResponse(id, amountMsat, gateway.value.invoice, qrPng.value, qrAscii.value, expiresAt));
    }

    method StoreSession(session: AccessSession)
      modifies this`sessions
      ensures Contents() == InsertSession(old(Contents()), session)
    {
      sessions := sessions[session.invoiceId := session];
    }

    method StoreIndex(hash: Text, id: Text)
      modifies this`paymentIndex
      ensures Contents() == InsertIndex(old(Contents()), hash, id)
    {
      paymentIndex := paymentIndex[hash := id];
    }

    method ReadIndex(hash: Text) returns (id: Option<Text>)
      ensures id == LookupPayment(Contents(), hash)
      ensures id.None? <==> hash !in paymentIndex
    {
      if hash in paymentIndex {
        return Some(paymentIndex[hash]);
      }
      return None;
    }

    /** The section of `handle_payment` under the lock of the sessions. Rendering fails before any field
        changes, so an error leaves the store as it was. */
    method SettleUnderLock(hash: Text, id: Text) returns (r: Result<(), ProofError>)
      modifies this`sessions
      ensures Contents() == SettleSession(config, old(Contents()), hash, id)
      ensures r.Err? <==>
              id in old(sessions) && old(sessions)[id].status.Pending? && !Renders(config, hash, old(sessions)[id])
      ensures r.Err? ==> r.error == Internal
      ensures id !in old(sessions) || old(sessions)[id].status.Settled? ==> sessions == old(sessions)
      ensures id in old(sessions) && old(sessions)[id].status.Pending? ==>
                var x := old(sessions)[id];
                var token := SignCompactPayload(CompactPayload(hash, x.expiresAt, config.eventId), config.key);
                var png, ascii := config.qr.png(token), config.qr.ascii(token);
                sessions ==
                  if png.Some? && ascii.Some? then
                    old(sessions)[id := x.(status := Settled, accessToken := Some(token), accessQrPng := png,
                                           accessQrAscii := ascii)]
                  else
                    old(sessions)
    {
      if id !in sessions {
        return Ok(());
      }
      var session := sessions[id];
      if session.status.Settled? {
        return Ok(());
      }
      var token := SignCompactPayload(CompactPayload(hash, session.expiresAt, config.eventId), config.key);
      var qrPng := config.qr.png(token);
      if qrPng.None? {
        return Err(Internal);
      }
      var qrAscii := config.qr.ascii(token);
      if qrAscii.None? {
        return Err(Internal);
      }
      session := session.(status := Settled);
      session := session.(accessToken := Some(token));
      session := session.(accessQrPng := qrPng);
      session := session.(accessQrAscii := qrAscii);
      sessions := sessions[id := session];
      return Ok(());
    }

    /** One event handled without interference. */
    method HandlePayment(hash: Text) returns (r: Result<(), ProofError>)
      modifies this`sessions
      ensures hash !in paymentIndex ==> r == Ok(()) && Contents() == old(Contents())
      ensures hash in paymentIndex ==> Contents() == SettleSession(config, old(Contents()), hash, paymentIndex[hash])
      ensures r.Err? ==> Contents() == old(Contents())
      ensures r.Err? <==>
              && hash in paymentIndex && paymentIndex[hash] in old(sessions)
              && old(sessions)[paymentIndex[hash]].status.Pending?
              && !Renders(config, hash, old(sessions)[paymentIndex[hash]])
    {
      var id := ReadIndex(hash);
      if id.None? {
        return Ok(());
      }
      r := SettleUnderLock(hash, id.value);
    }

    method Check(id: Text) returns (r: Result<StatusResponse, ProofError>)
      ensures r == CheckInvoice(Contents(), id)
      ensures r.Err? <==> id !in sessions
      ensures r.Err? ==> r.error == NotFound
      ensures r.Ok? ==>
                && r.value.status == sessions[id].status && r.value.expiresAt == sessions[id].expiresAt
                && r.value.accessToken == sessions[id].accessToken && r.value.accessQrPng == sessions[id].accessQrPng
                && r.value.accessQrAscii == sessions[id].accessQrAscii
    {
      if id !in sessions {
        return Err(NotFound);
      }
      var session := sessions[id];
      return Ok(StatusResponse(session.status, session.expiresAt, session.accessToken, session.accessQrPng,
                               session.accessQrAscii));
    }

    method GetAccessToken(id: Text) returns (r: Result<StatusResponse, ProofError>)
      ensures r == CheckInvoice(Contents(), id)
      ensures r.Err? <==> id !in sessions
      ensures r.Ok? ==>
                && r.value.status == sessions[id].status && r.value.expiresAt == sessions[id].expiresAt
                && r.value.accessToken == sessions[id].accessToken && r.value.accessQrPng == sessions[id].accessQrPng
                && r.value.accessQrAscii == sessions[id].accessQrAscii
    {
      r := Check(id);
    }
  }
}
