/** The `GET /rate/:deposit/:receive` handler
    (functions/src/controller/rate.ts): two guards on the symbols, the
    upstream rate call, and the reshaping of its answer. */
module RateController {
  import opened Wrappers
  import opened JsBuiltins
  import opened SwftTypes
  import opened SwftProvider

  /** The symbol every supported pair must contain. */
  const HubSymbol: string := "ETP"

  const OnlyHubPairs: string := "Only ETP pairs supported"
  const IllegalPair: string := "Illegal pair"

  /** The guards, in the order the handler runs them: the hub check compares
      case-sensitively, the equality check ignores ASCII case. The result is
      the message of the error thrown, or `None` when both pass. */
  function CheckPair(deposit: string, receive: string): (rejection: Option<string>)
    ensures rejection == Some(OnlyHubPairs) <==> deposit != HubSymbol && receive != HubSymbol
    ensures rejection == Some(IllegalPair)
            <==> (deposit == HubSymbol || receive == HubSymbol) && ToLowerCase(deposit) == ToLowerCase(receive)
    ensures rejection.None? <==> (deposit == HubSymbol || receive == HubSymbol) && ToLowerCase(deposit) != ToLowerCase(receive)
  {
    if deposit != HubSymbol && receive != HubSymbol then Some(OnlyHubPairs)
    else if ToLowerCase(deposit) == ToLowerCase(receive) then Some(IllegalPair)
    else None
  }

  /** The `Rate` object built from the upstream payload: the four upstream
      numbers are parsed, the fee rate is the configured one, and no miner
      fee is passed on. */
  function ToRate(data: SwftRate, feeRate: FloatOf): (rate: Rate)
    ensures rate.depositMax == FloatOf(data.depositMax) && rate.depositMin == FloatOf(data.depositMin)
    ensures rate.instantRate == FloatOf(data.instantRate) && rate.receiveCoinFee == FloatOf(data.receiveCoinFee)
    ensures rate.depositCoinFeeRate == Some(feeRate)
    ensures rate.minerFee.None?
  {
    Rate(
      depositMax := FloatOf(data.depositMax),
      depositMin := FloatOf(data.depositMin),
      instantRate := FloatOf(data.instantRate),
      receiveCoinFee := FloatOf(data.receiveCoinFee),
      minerFee := None,
      depositCoinFeeRate := Some(feeRate))
  }

  /** The handler. `fetchRate` stands for the upstream `getBaseInfo` call
      (network and JSON decoding), `feeRate` for the configured default fee
      rate. A rejection by a guard, or a result code other than 800, is the
      failure the handler answers with status 500. */
  function GetRate(deposit: string, receive: string,
                   fetchRate: (string, string) -> SwftResponse<SwftRate>,
                   feeRate: FloatOf): (r: Result<Rate, Option<string>>)
    ensures CheckPair(deposit, receive).Some? ==> r == Failure(CheckPair(deposit, receive))
    ensures CheckPair(deposit, receive).None?
            ==> (r.Success? <==> NumericCode(TextCode(fetchRate(deposit, receive).resCode)) == Some(OkCode))
    ensures CheckPair(deposit, receive).None? && r.Failure?
            ==> r.error == Message(NumericCode(TextCode(fetchRate(deposit, receive).resCode)))
    ensures r.Success? ==> r.value == ToRate(fetchRate(deposit, receive).data, feeRate)
  {
    var rejection := CheckPair(deposit, receive);
    if rejection.Some? then Failure(rejection)
    else
      var raw := fetchRate(deposit, receive);
      match Evaluate(TextCode(raw.resCode), true)
      case Failure(message) => Failure(message)
      case Success(_) => Success(ToRate(raw.data, feeRate))
  }

  /** When a guard rejects the pair the upstream answer plays no part: no
      upstream request is made. */
  lemma RejectedPairMakesNoRequest(deposit: string, receive: string,
                                   f1: (string, string) -> SwftResponse<SwftRate>,
                                   f2: (string, string) -> SwftResponse<SwftRate>, feeRate: FloatOf)
    requires CheckPair(deposit, receive).Some?
    ensures GetRate(deposit, receive, f1, feeRate) == GetRate(deposit, receive, f2, feeRate)
  {
  }

  /** The answered fee rate is the configured one, whatever upstream sends. */
  lemma FeeRateIsConfigured(deposit: string, receive: string,
                            fetchRate: (string, string) -> SwftResponse<SwftRate>, feeRate: FloatOf)
    requires GetRate(deposit, receive, fetchRate, feeRate).Success?
    ensures GetRate(deposit, receive, fetchRate, feeRate).value.depositCoinFeeRate == Some(feeRate)
    ensures GetRate(deposit, receive, fetchRate, feeRate).value.minerFee == None
  {
  }

  /** The hub check is case-sensitive and runs first. */
  lemma HubCheckExamples()
    ensures CheckPair("BTC", "ETH") == Some(OnlyHubPairs)
    ensures CheckPair("etp", "BTC") == Some(OnlyHubPairs)
    ensures CheckPair("btc", "BTC") == Some(OnlyHubPairs)
  {
  }

  /** Symbols equal up to case are an illegal pair once the hub check passes. */
  lemma IllegalPairExamples()
    ensures CheckPair("ETP", "ETP") == Some(IllegalPair)
    ensures CheckPair("ETP", "etp") == Some(IllegalPair)
    ensures CheckPair("ETP", "BTC") == None
  {
    var upper, lower := ToLowerCase("ETP"), ToLowerCase("etp");
    assert upper[0] == 'e' && upper[1] == 't' && upper[2] == 'p';
    assert lower[0] == 'e' && lower[1] == 't' && lower[2] == 'p';
    assert upper == lower;
    assert ToLowerCase("BTC")[0] == 'b';
  }
}
