/** The wire shapes of the SWFT exchange API and the simplified output
    shapes this backend answers with (functions/src/interfaces/). */
module SwftTypes {
  import opened Wrappers

  /** A JavaScript number obtained as `parseFloat(text)` (or written as the
      literal `text`). Floating-point values and arithmetic are not modelled:
      a number is kept as the decimal text it comes from. */
  datatype FloatOf = FloatOf(text: string)

  /** The envelope every SWFT endpoint answers with. */
  datatype SwftResponse<+T> = SwftResponse(data: T, resCode: string, resMsg: string)

  /** One coin as listed by `queryCoinList`. `noSupportCoin` is a comma
      separated list of coin codes this coin cannot be traded with. */
  datatype SwftPairDefinition = SwftPairDefinition(
    coinAllCode: string,
    coinCode: string,
    coinImageUrl: string,
    coinName: string,
    contact: string,
    isSupportAdvanced: string,
    mainNetwork: string,
    noSupportCoin: string)

  /** The payload of `getBaseInfo`; every number arrives as a string. */
  datatype SwftRate = SwftRate(
    depositMax: string,
    depositMin: string,
    instantRate: string,
    receiveCoinFee: string,
    minerFee: string)

  /** The payload of `queryOrderState` and `accountExchange`. `createTime`
      is read by the mapper although the declared interface omits it, so it
      may be absent. */
  datatype SwftOrderDetails = SwftOrderDetails(
    changeType: string,
    choiseFeeType: string,
    createTime: Option<string>,
    depositCoinAmt: string,
    depositCoinCode: string,
    depositCoinFeeAmt: string,
    depositCoinFeeRate: string,
    depositCoinState: string,
    destinationAddr: string,
    detailState: string,
    developerId: string,
    orderId: string,
    orderState: string,
    platformAddr: string,
    receiveCoinAmt: string,
    receiveCoinCode: string,
    receiveSwftAmt: string,
    refundAddr: string,
    refundCoinAmt: string,
    refundCoinMinerFee: string,
    refundDepositTxid: string,
    refundSwftAmt: string,
    swftCoinFeeRate: string,
    swftCoinState: string,
    swftReceiveAddr: string,
    swftRefundAddr: string,
    transactionId: string)

  /** The rate answered by `GET /rate`; the optional members are `None`
      when the JSON object has no such key. */
  datatype Rate = Rate(
    depositMax: FloatOf,
    depositMin: FloatOf,
    instantRate: FloatOf,
    receiveCoinFee: FloatOf,
    minerFee: Option<FloatOf>,
    depositCoinFeeRate: Option<FloatOf>)

  /** When the order's `created` instant comes from: the upstream
      `createTime` text, or the clock reading at mapping time. Both are
      rendered with `toISOString()`, which is not modelled. */
  datatype Created = FromCreateTime(createTime: string) | FromClock(now: nat)

  datatype DepositLeg = DepositLeg(
    address: string, amount: FloatOf, fee: FloatOf, feeRate: FloatOf, status: string, symbol: string)

  datatype ReceiveLeg = ReceiveLeg(address: string, amount: FloatOf, symbol: string, txid: string)

  /** Apart from `address`, a refund member is `None` when the key is absent. */
  datatype RefundLeg = RefundLeg(address: string, amount: Option<FloatOf>, fee: Option<FloatOf>, txid: Option<string>)

  datatype OrderDetails = OrderDetails(
    id: string,
    status: string,
    created: Created,
    deposit: DepositLeg,
    receive: ReceiveLeg,
    refund: RefundLeg)
}
