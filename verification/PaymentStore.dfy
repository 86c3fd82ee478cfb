/** The session store of the Stellar path. */
module PaymentStore {
  import opened Bytes
  import opened Wrappers
  import opened Issuance
  import opened Horizon

  datatype SessionRecord = SessionRecord(
    request: PaymentRequest,
    eventId: Text,
    paid: bool,
    expiresAt: u64,
    txHash: Option<Text>,
    accessToken: Option<bytes>,
    accessQrPng: Option<bytes>,
    accessQrAscii: Option<bytes>)

  datatype Status = Confirmed | Detected | Expired | Waiting

  datatype StatusResponse = StatusResponse(
    sessionId: Text, status: Status, paid: bool, requestExpiresAt: u64, expiresAt: u64, request: PaymentRequest,
    txHash: Option<Text>, accessToken: Option<bytes>, accessQrPng: Option<bytes>, accessQrAscii: Option<bytes>)

  type Sessions = map<Text, SessionRecord>

  /** The time a buyer has to pay, from the route that creates requests. */
  const REQUEST_WINDOW_SECS: u64 := 15 * 60

  function NewRecord(request: PaymentRequest, windowSecs: u64, eventId: Text, now: u64, tokenTtlSecs: u64): SessionRecord {
    SessionRecord(request.(expiresAt := WrappingAdd(now, windowSecs)), eventId, false, WrappingAdd(now, tokenTtlSecs),
                  None, None, None, None)
  }

  function Paid(x: SessionRecord, artifact: AccessArtifact): SessionRecord {
    x.(paid := true, txHash := Some(artifact.txHash), accessToken := Some(artifact.token),
       accessQrPng := Some(artifact.qrPng), accessQrAscii := Some(artifact.qrAscii))
  }

  function StatusOf(x: SessionRecord, now: u64): Status {
    if x.accessToken.Some? then Confirmed
    else if x.paid || x.txHash.Some? then Detected
    else if x.request.expiresAt <= now then Expired
    else Waiting
  }

  function ToStatusResponse(x: SessionRecord, now: u64): StatusResponse {
    StatusResponse(x.request.sessionId, StatusOf(x, now), x.paid, x.request.expiresAt, x.expiresAt, x.request,
                   x.txHash, x.accessToken, x.accessQrPng, x.accessQrAscii)
  }

  predicate IsPending(x: SessionRecord, now: u64) {
    !x.paid && x.request.expiresAt > now
  }

  /** The payment fields of a session are all set or all unset. */
  predicate AllOrNothing(x: SessionRecord) {
    && (x.paid <==> x.txHash.Some?)
    && (x.paid <==> x.accessToken.Some?)
    && (x.paid <==> x.accessQrPng.Some?)
    && (x.paid <==> x.accessQrAscii.Some?)
  }

  function PendingIds(sessions: Sessions, now: u64): set<Text> {
    set id | id in sessions && IsPending(sessions[id], now)
  }

  /** `list` holds exactly the given keys, each once. */
  predicate Lists(list: seq<Text>, keys: set<Text>) {
    && (forall k <- list :: k in keys)
    && (forall k <- keys :: k in list)
    && (forall i, j :: 0 <= i < j < |list| ==> list[i] != list[j])
  }

  lemma {:induction false} ListsEach(list: seq<Text>, keys: set<Text>)
    requires Lists(list, keys)
    ensures |list| == |keys|
  {
    if list == [] {
      assert keys == {};
    } else {
      var rest := list[1..];
      assert forall k <- rest :: k in list;
      assert forall k <- keys - {list[0]} :: k in rest;
      ListsEach(rest, keys - {list[0]});
    }
  }

  /** At one instant the pending sessions are exactly those reported as waiting. */
  lemma PendingIffWaiting(x: SessionRecord, now: u64)
    requires AllOrNothing(x)
    ensures IsPending(x, now) <==> StatusOf(x, now) == Waiting
    ensures StatusOf(x, now) != Detected
    ensures x.paid <==> StatusOf(x, now) == Confirmed
  {
  }

  class PaymentService {
    const tokenTtlSecs: u64
    var sessions: Sessions

    constructor (tokenTtlSecs: u64)
      ensures this.tokenTtlSecs == tokenTtlSecs && sessions == map[]
    {
      this.tokenTtlSecs := tokenTtlSecs;
      sessions := map[];
    }

    method InsertSession(request: PaymentRequest, windowSecs: u64, eventId: Text, now: u64) returns (r: SessionRecord)
      modifies this
      ensures sessions == old(sessions)[request.sessionId := r]
      ensures r == NewRecord(request, windowSecs, eventId, now, tokenTtlSecs)
      ensures r.request == request.(expiresAt := WrappingAdd(now, windowSecs))
      ensures r.expiresAt == WrappingAdd(now, tokenTtlSecs) && r.eventId == eventId
      ensures !r.paid && AllOrNothing(r)
    {
      var stamped := request.(expiresAt := WrappingAdd(now, windowSecs));
      r := SessionRecord(stamped, eventId, false, WrappingAdd(now, tokenTtlSecs), None, None, None, None);
      sessions := sessions[stamped.sessionId := r];
    }

    method Get(id: Text) returns (r: Option<SessionRecord>)
      ensures r == if id in sessions then Some(sessions[id]) else None
    {
      if id in sessions {
        return Some(sessions[id]);
      }
      return None;
    }

    /** The records of the pending sessions in some order, each once. */
    method PendingSessions(now: u64) returns (pending: seq<SessionRecord>, ghost ids: seq<Text>)
      ensures Lists(ids, PendingIds(sessions, now))
      ensures |pending| == |ids| && forall i :: 0 <= i < |ids| ==> ids[i] in sessions && pending[i] == sessions[ids[i]]
      ensures forall x <- pending :: !x.paid && x.request.expiresAt > now && x in sessions.Values
      ensures forall id :: id in sessions && !sessions[id].paid && sessions[id].request.expiresAt > now ==>
                sessions[id] in pending
      ensures |pending| == |PendingIds(sessions, now)|
    {
      pending, ids := [], [];
      var left := sessions.Keys;
      while left != {}
        invariant left <= sessions.Keys
        invariant forall id <- ids :: id in sessions && id !in left && IsPending(sessions[id], now)
        invariant forall id <- sessions.Keys - left :: IsPending(sessions[id], now) ==> id in ids
        invariant forall i, j :: 0 <= i < j < |ids| ==> ids[i] != ids[j]
        invariant |pending| == |ids| && forall i :: 0 <= i < |ids| ==> ids[i] in sessions && pending[i] == sessions[ids[i]]
        decreases left
      {
        var id :| id in left;
        left := left - {id};
        if IsPending(sessions[id], now) {
          pending, ids := pending + [sessions[id]], ids + [id];
        }
      }
      ghost var keys := PendingIds(sessions, now);
      ListsEach(ids, keys);
      forall id | id in keys ensures sessions[id] in pending {
        var i :| 0 <= i < |ids| && ids[i] == id;
        assert pending[i] == sessions[id];
      }
    }

    method MarkPaid(id: Text, artifact: AccessArtifact) returns (r: Result<(), ()>)
      modifies this
      ensures r.Ok? <==> id in old(sessions)
      ensures sessions == if id in old(sessions) then old(sessions)[id := Paid(old(sessions)[id], artifact)] else old(sessions)
      ensures id in old(sessions) ==>
                sessions[id] == old(sessions)[id].(paid := true, txHash := Some(artifact.txHash),
                                                   accessToken := Some(artifact.token),
                                                   accessQrPng := Some(artifact.qrPng),
                                                   accessQrAscii := Some(artifact.qrAscii))
    {
      if id !in sessions {
        return Err(());
      }
      var session := sessions[id];
      session := session.(paid := true);
      session := session.(txHash := Some(artifact.txHash));
      session := session.(accessToken := Some(artifact.token));
      session := session.(accessQrPng := Some(artifact.qrPng));
      session := session.(accessQrAscii := Some(artifact.qrAscii));
      sessions := sessions[id := session];
      return Ok(());
    }
  }
}
