/** The order endpoints (functions/src/controller/order.ts): the mapper
    from the SWFT order payload to the answered order, and the order store,
    a collection of documents keyed by order id that `saveOrder` writes
    after the answer has been sent. */
module OrderController {
  import opened Wrappers
  import opened SwftTypes
  import opened SwftProvider

  type OrderResponse = SwftResponse<SwftOrderDetails>

  /** `firestore.FieldValue.serverTimestamp()`: a token the store replaces
      with its own time when it writes the document. */
  datatype FieldValue = ServerTimestamp

  /** One stored document; a member is `None` when the document has no such
      field. */
  datatype StoredOrder = StoredOrder(
    order: OrderDetails,
    createResponse: Option<OrderResponse>,
    created: Option<FieldValue>,
    latestResponse: Option<OrderResponse>,
    touched: Option<FieldValue>)

  const OrderExists: string := "Order already exists on database"

  /** `parseSWFTOrderDetails`. `now` is the clock reading used when the
      payload has no (or an empty) `createTime`. Identity and status come
      from `orderId` and `detailState`; each optional refund member is
      present exactly when its upstream string is not "". */
  function ParseSwftOrderDetails(raw: OrderResponse, now: nat): (o: OrderDetails)
    ensures o.id == raw.data.orderId && o.status == raw.data.detailState
    ensures raw.data.createTime.Some? && raw.data.createTime.value != ""
            ==> o.created == FromCreateTime(raw.data.createTime.value)
    ensures raw.data.createTime.None? || raw.data.createTime.value == "" ==> o.created == FromClock(now)
    ensures o.deposit == DepositLeg(raw.data.platformAddr, FloatOf(raw.data.depositCoinAmt),
                                    FloatOf(raw.data.depositCoinFeeAmt), FloatOf(raw.data.depositCoinFeeRate),
                                    raw.data.depositCoinState, raw.data.depositCoinCode)
    ensures o.receive == ReceiveLeg(raw.data.destinationAddr, FloatOf(raw.data.receiveCoinAmt),
                                    raw.data.receiveCoinCode, raw.data.transactionId)
    ensures o.refund.address == raw.data.refundAddr
    ensures o.refund.amount.Some? <==> raw.data.refundCoinAmt != ""
    ensures o.refund.fee.Some? <==> raw.data.refundCoinMinerFee != ""
    ensures o.refund.txid.Some? <==> raw.data.refundDepositTxid != ""
    ensures o.refund.amount.Some? ==> o.refund.amount.value == FloatOf(raw.data.refundCoinAmt)
    ensures o.refund.fee.Some? ==> o.refund.fee.value == FloatOf(raw.data.refundCoinMinerFee)
    ensures o.refund.txid.Some? ==> o.refund.txid.value == raw.data.refundDepositTxid
  {
    var d := raw.data;
    var created := if d.createTime.Some? && d.createTime.value != "" then FromCreateTime(d.createTime.value)
                   else FromClock(now);
    OrderDetails(
      id := d.orderId,
      status := d.detailState,
      created := created,
      deposit := DepositLeg(
        address := d.platformAddr,
        amount := FloatOf(d.depositCoinAmt),
        fee := FloatOf(d.depositCoinFeeAmt),
        feeRate := FloatOf(d.depositCoinFeeRate),
        status := d.depositCoinState,
        symbol := d.depositCoinCode),
      receive := ReceiveLeg(
        address := d.destinationAddr,
        amount := FloatOf(d.receiveCoinAmt),
        symbol := d.receiveCoinCode,
        txid := d.transactionId),
      refund := RefundLeg(
        address := d.refundAddr,
        amount := if d.refundCoinAmt != "" then Some(FloatOf(d.refundCoinAmt)) else None,
        fee := if d.refundCoinMinerFee != "" then Some(FloatOf(d.refundCoinMinerFee)) else None,
        txid := if d.refundDepositTxid != "" then Some(d.refundDepositTxid) else None))
  }

  /** With every refund string empty the refund holds its address only. */
  lemma EmptyRefundHasAddressOnly(raw: OrderResponse, now: nat)
    requires raw.data.refundCoinAmt == "" && raw.data.refundCoinMinerFee == "" && raw.data.refundDepositTxid == ""
    ensures ParseSwftOrderDetails(raw, now).refund == RefundLeg(raw.data.refundAddr, None, None, None)
  {
  }

  /** The three refund decisions are independent: changing the refund amount
      string changes the refund amount and nothing else. */
  lemma RefundAmountIndependent(raw: OrderResponse, now: nat, amount: string)
    ensures var o := ParseSwftOrderDetails(raw, now);
      ParseSwftOrderDetails(raw.(data := raw.data.(refundCoinAmt := amount)), now)
      == o.(refund := o.refund.(amount := if amount != "" then Some(FloatOf(amount)) else None))
  {
  }

  /** The coarse `orderState` plays no part in the answered order. */
  lemma OrderStateIgnored(raw: OrderResponse, now: nat, state: string)
    ensures ParseSwftOrderDetails(raw.(data := raw.data.(orderState := state)), now) == ParseSwftOrderDetails(raw, now)
  {
  }

  /** A document as `saveOrder` leaves it: it has `created` and
      `createResponse` from its first write, and `touched` exactly when it
      has `latestResponse`. */
  predicate WellFormed(doc: StoredOrder)
  {
    doc.created.Some? && doc.createResponse.Some? && (doc.touched.Some? <==> doc.latestResponse.Some?)
  }

  /** The outcome of `saveOrder` on the documents `docs` for document `key`:
      a missing document is created with `order`, `createResponse` and
      `created`; an existing one is a conflict when `failOnExist` holds and
      otherwise is updated in `touched`, `latestResponse` and `order`, its
      other fields kept. No other document is read or written. */
  function Upsert(docs: map<string, StoredOrder>, key: string, order: OrderDetails,
                  response: OrderResponse, failOnExist: bool): (r: Result<map<string, StoredOrder>, string>)
    ensures r.Failure? <==> key in docs && failOnExist
    ensures r.Failure? ==> r.error == OrderExists
    ensures r.Success? ==> r.value.Keys == docs.Keys + {key}
    ensures r.Success? ==> forall k :: k in docs && k != key ==> r.value[k] == docs[k]
    ensures r.Success? && key !in docs
            ==> r.value[key] == StoredOrder(order, Some(response), Some(ServerTimestamp), None, None)
    ensures r.Success? && key in docs
            ==> && r.value[key].order == order
                && r.value[key].latestResponse == Some(response)
                && r.value[key].touched == Some(ServerTimestamp)
                && r.value[key].created == docs[key].created
                && r.value[key].createResponse == docs[key].createResponse
  {
    if key in docs then
      if failOnExist then Failure(OrderExists)
      else
        Success(docs[key := docs[key].(touched := Some(ServerTimestamp), latestResponse := Some(response), order := order)])
    else
      Success(docs[key := StoredOrder(order, Some(response), Some(ServerTimestamp), None, None)])
  }

  /** Saving keeps every document well formed. */
  lemma UpsertKeepsWellFormed(docs: map<string, StoredOrder>, key: string, order: OrderDetails,
                              response: OrderResponse, failOnExist: bool)
    requires forall k :: k in docs ==> WellFormed(docs[k])
    requires Upsert(docs, key, order, response, failOnExist).Success?
    ensures var saved := Upsert(docs, key, order, response, failOnExist).value;
      forall k :: k in saved ==> WellFormed(saved[k])
  {
  }

  /** Saving twice under a fresh id: the first save inserts the document
      with `created` and no `touched`; a second save without `failOnExist`
      adds `touched` and keeps the first `created` and `createResponse`,
      while a second save with `failOnExist` is a conflict. */
  lemma SaveTwice(docs: map<string, StoredOrder>, key: string, first: OrderDetails, second: OrderDetails,
                  r1: OrderResponse, r2: OrderResponse)
    requires key !in docs
    ensures var once := Upsert(docs, key, first, r1, false);
      && once.Success?
      && once.value[key].created == Some(ServerTimestamp) && once.value[key].touched == None
      && Upsert(once.value, key, second, r2, true) == Failure(OrderExists)
      && var twice := Upsert(once.value, key, second, r2, false);
         && twice.Success?
         && twice.value[key] == StoredOrder(second, Some(r1), Some(ServerTimestamp), Some(r2), Some(ServerTimestamp))
  {
    var once := Upsert(docs, key, first, r1, false);
    assert once.value[key] == StoredOrder(first, Some(r1), Some(ServerTimestamp), None, None);
  }

  /** The parameters of an order creation request. */
  datatype CreateOrderParameters = CreateOrderParameters(
    depositSymbol: string,
    depositAmount: FloatOf,
    refundAddress: string,
    receiveSymbol: string,
    receiveAmount: FloatOf,
    receiveAddress: string)

  /** The order store: one document per order id. */
  class OrderStore {
    var docs: map<string, StoredOrder>

    ghost predicate Valid()
      reads this
    {
      forall k :: k in docs ==> WellFormed(docs[k])
    }

    constructor ()
      ensures Valid() && docs == map[]
    {
      docs := map[];
    }

    /** `saveOrder(order, swftOrder, failOnExist, id)`: read the document
        keyed by `id` (by default `order.id`), then create or update it. */
    method SaveOrder(order: OrderDetails, swftOrder: OrderResponse, failOnExist: bool, id: Option<string>)
      returns (r: Result<(), string>)
      requires Valid()
      modifies this
      ensures Valid()
      ensures var key := id.GetOr(order.id);
        match Upsert(old(docs), key, order, swftOrder, failOnExist)
        case Success(saved) => r == Success(()) && docs == saved
        case Failure(e) => r == Failure(e) && docs == old(docs)
    {
      var key := if id.Some? then id.value else order.id;
      if key in docs {
        if failOnExist {
          return Failure(OrderExists);
        }
        UpsertKeepsWellFormed(docs, key, order, swftOrder, failOnExist);
        var existing := docs[key];
        docs := docs[key := existing.(touched := Some(ServerTimestamp), latestResponse := Some(swftOrder), order := order)];
      } else {
        UpsertKeepsWellFormed(docs, key, order, swftOrder, failOnExist);
        docs := docs[key := StoredOrder(order, Some(swftOrder), Some(ServerTimestamp), None, None)];
      }
      r := Success(());
    }

    /** `GET /order/:id`: fetch the order upstream (`fetchOrder` stands for
        `getOrderState`), answer the mapped order, then save it without
        `failOnExist`. */
    method GetOrder(id: string, fetchOrder: string -> OrderResponse, now: nat)
      returns (r: Result<OrderDetails, Option<string>>)
      requires Valid()
      modifies this
      ensures Valid()
      ensures var raw := fetchOrder(id);
        match Evaluate(TextCode(raw.resCode), true)
        case Failure(message) => r == Failure(message) && docs == old(docs)
        case Success(_) =>
          var order := ParseSwftOrderDetails(raw, now);
          r == Success(order) && docs == Upsert(old(docs), order.id, order, raw, false).value
    {
      var raw := fetchOrder(id);
      var check := Evaluate(TextCode(raw.resCode), true);
      if check.Failure? {
        return Failure(check.error);
      }
      var order := ParseSwftOrderDetails(raw, now);
      r := Success(order);
      var _ := SaveOrder(order, raw, false, None);
    }

    /** `POST /order`: create the order upstream (`createRemote` stands for
        `createOrder`), answer the mapped order, then save it with
        `failOnExist`. A conflict is only logged: the answer stands and the
        existing document is left as it was. */
    method CreateOrder(parameters: CreateOrderParameters,
                       createRemote: CreateOrderParameters -> OrderResponse, now: nat)
      returns (r: Result<OrderDetails, Option<string>>)
      requires Valid()
      modifies this
      ensures Valid()
      ensures var raw := createRemote(parameters);
        match Evaluate(TextCode(raw.resCode), true)
        case Failure(message) => r == Failure(message) && docs == old(docs)
        case Success(_) =>
          var order := ParseSwftOrderDetails(raw, now);
          && r == Success(order)
          && (order.id in old(docs) ==> docs == old(docs))
          && (order.id !in old(docs) ==> docs == Upsert(old(docs), order.id, order, raw, true).value)
    {
      var raw := createRemote(parameters);
      var check := Evaluate(TextCode(raw.resCode), true);
      if check.Failure? {
        return Failure(check.error);
      }
      var order := ParseSwftOrderDetails(raw, now);
      r := Success(order);
      var _ := SaveOrder(order, raw, true, None);
    }
  }
}
