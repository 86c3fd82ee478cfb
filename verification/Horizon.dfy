/** Payment requests on Stellar and the search for their confirmation in a page of ledger records. */
module Horizon {
  import opened Bytes
  import opened Wrappers
  import opened Issuance

  datatype PaymentRecord = PaymentRecord(
    id: Text,
    transactionHash: Text,
    sender: Text,
    receiver: Text,
    amount: Text,
    assetType: Text,
    assetCode: Option<Text>,
    transactionSuccessful: bool,
    memo: Option<Text>,
    ledger: Option<u32>,
    recordType: Text)

  datatype PaymentRequest = PaymentRequest(
    sessionId: Text,
    destination: Text,
    amount: Text,
    asset: Text,
    memo: Text,
    qrPayload: bytes,
    expiresAt: u64)

  /** The greatest number of records in a page. */
  const PAGE_LIMIT: nat := 200

  /** `create_payment_request`: the fresh memo is also the session id. */
  function CreatePaymentRequest(destination: Text, amount: Text, asset: Text, memo: Text): PaymentRequest {
    var qrPayload := Ascii("web+stellar:pay?destination=") + destination + Ascii("&amount=") + amount + Ascii("&memo=") + memo;
    PaymentRequest(memo, destination, amount, asset, memo, qrPayload, 0)
  }

  function Lumens(): Text {
    AsciiIsUtf8(Ascii("XLM"));
    Ascii("XLM")
  }

  function ParsePayment(r: PaymentRecord): PaymentEvent {
    PaymentEvent(
      if r.transactionHash == [] then r.id else r.transactionHash,
      r.sender,
      r.receiver,
      r.amount,
      if r.assetType == Ascii("native") then Lumens()
      else if r.assetCode.Some? then r.assetCode.value
      else r.assetType,
      if r.memo.Some? then r.memo.value else [],
      if r.ledger.Some? then r.ledger.value else 0,
      0)
  }

  // ----- What confirms a request -----

  /** The asset a record is about: lumens, an asset with a code, or else its type. */
  function AssetOf(r: PaymentRecord): bytes {
    if r.assetType == Ascii("native") then Ascii("XLM")
    else match r.assetCode
      case Some(code) => code
      case None => r.assetType
  }

  /** A successful payment operation to the destination that carries exactly the memo and the amount of the
      request, in its asset up to ASCII case. A record without a memo counts as one with the empty memo. */
  predicate Confirms(r: PaymentRecord, destination: Text, memo: Text, amount: Text, asset: Text) {
    && r.transactionSuccessful
    && r.recordType == Ascii("payment")
    && r.receiver == destination
    && (r.memo == Some(memo) || (r.memo.None? && memo == []))
    && r.amount == amount
    && EqIgnoreAsciiCase(AssetOf(r), asset)
  }

  /** The position of the first element that satisfies `p`, or the length of the sequence. */
  function FirstWhere<T>(s: seq<T>, p: T -> bool): (k: nat)
    ensures k <= |s|
    ensures k < |s| ==> p(s[k])
    ensures forall i :: 0 <= i < k ==> !p(s[i])
  {
    if s == [] || p(s[0]) then
      0
    else
      var k := FirstWhere(s[1..], p);
      assert forall i :: 0 < i < |s| ==> s[i] == s[1..][i - 1];
      k + 1
  }

  /** The position of the first record that confirms, or the length of the page. */
  function FirstConfirming(page: seq<PaymentRecord>, destination: Text, memo: Text, amount: Text, asset: Text): (k: nat)
    ensures k <= |page|
    ensures k < |page| ==> Confirms(page[k], destination, memo, amount, asset)
    ensures forall i :: 0 <= i < k ==> !Confirms(page[i], destination, memo, amount, asset)
  {
    FirstWhere(page, r => Confirms(r, destination, memo, amount, asset))
  }

  /** A position is the first only if it confirms and none before it does. */
  lemma IsFirst(page: seq<PaymentRecord>, destination: Text, memo: Text, amount: Text, asset: Text, k: nat)
    requires k <= |page| && (k < |page| ==> Confirms(page[k], destination, memo, amount, asset))
    requires forall i :: 0 <= i < k ==> !Confirms(page[i], destination, memo, amount, asset)
    ensures FirstConfirming(page, destination, memo, amount, asset) == k
  {
  }

  /** What confirms is a successful payment operation whose parsed event compares equal. */
  lemma EventMatches(r: PaymentRecord, destination: Text, memo: Text, amount: Text, asset: Text)
    ensures var e := ParsePayment(r);
            && r.transactionSuccessful && r.recordType == Ascii("payment")
            && e.destinationAccount == destination && e.memo == memo && e.amount == amount && EqIgnoreAsciiCase(e.asset, asset)
            <==> Confirms(r, destination, memo, amount, asset)
  {
  }

  /** `find_confirmed_payment` on the page the ledger server returned, if it returned one: the event of the first
      confirming record, or none exactly when there is none. */
  method FindConfirmedPayment(page: Option<seq<PaymentRecord>>, destination: Text, memo: Text, amount: Text, asset: Text)
    returns (r: Result<Option<PaymentEvent>, ()>)
    ensures r.Err? <==> page.None?
    ensures r.Ok? ==>
              var k := FirstConfirming(page.value, destination, memo, amount, asset);
              r.value == if k < |page.value| then Some(ParsePayment(page.value[k])) else None
  {
    if page.None? {
      return Err(());
    }
    var records := page.value;
    for i := 0 to |records|
      invariant forall j :: 0 <= j < i ==> !Confirms(records[j], destination, memo, amount, asset)
    {
      var record := records[i];
      if !record.transactionSuccessful || record.recordType != Ascii("payment") {
        continue;
      }
      var event := ParsePayment(record);
      EventMatches(record, destination, memo, amount, asset);
      if && event.destinationAccount == destination
         && event.memo == memo
         && event.amount == amount
         && EqIgnoreAsciiCase(event.asset, asset)
      {
        IsFirst(records, destination, memo, amount, asset, i);
        return Ok(Some(event));
      }
    }
    IsFirst(records, destination, memo, amount, asset, |records|);
    return Ok(None);
  }

  /** The memo of a confirming record is the memo of the request, so a record confirms requests of one memo only. */
  lemma ConfirmsOneMemo(r: PaymentRecord, destination: Text, memo: Text, amount: Text, asset: Text,
                        destination': Text, memo': Text, amount': Text, asset': Text)
    requires Confirms(r, destination, memo, amount, asset) && Confirms(r, destination', memo', amount', asset')
    ensures memo == memo' && amount == amount' && destination == destination'
  {
  }
}
