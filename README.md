# SWFT coin-bridge backend: a Dafny model of its deterministic core

The backend fronts the SWFT exchange API with three HTTP endpoints (rate,
tradable pairs, create/get order) and keeps a document per order in a
Firestore collection. Underneath the Express and network glue sit five
pieces of deterministic logic, and this project models exactly those:

- **Pair filter** (`pairs.dfy`, module `Pairs`): the body of the `/pairs`
  handler. `ListPairs` is the imperative nested loop of the source
  (outer loop over the whitelist, inner loop over the whitelist or the
  enforce-list, `tradable` grown by push, the table assigned by key); it is
  proved equal to the specification function `PairMap`, about which the
  lemmas state soundness, completeness, whitelist ordering, "no empty
  entry", and the behaviour of non-enforced symbols. The line
  `blacklist.indexOf(toSymbol) !== undefined` is kept as written: `indexOf`
  returns a number, never `undefined`, so a non-enforced symbol with a
  definition is always listed with the whole enforce-list, whatever its
  blacklist says (`FallbackKeepsAll`, `NonEnforcedSourceGetsEnforceList`).
- **Result-code evaluation** (`swft_provider.dfy`, module `SwftProvider`):
  `evaluateSWFTResponse` with its 68-entry code table; a string code goes
  through `parseInt`, modelled with its ECMAScript semantics in
  `js_builtins.dfy` (leading white space, one sign, `0x` prefix selecting
  base 16, longest digit run, NaN as `None`).
- **Order mapper and order store** (`order.dfy`, module `OrderController`):
  `parseSWFTOrderDetails` with its conditional refund members, the pure
  upsert `Upsert` and the class `OrderStore` whose field `docs` is the
  collection, with `SaveOrder`, and the two order handlers `GetOrder` and
  `CreateOrder` that save with `failOnExist` false and true.
- **Rate request** (`rate.dfy`, module `RateController`): the two ordered
  guards, the gate on the upstream result code, and the `Rate` built with
  the configured fee rate and no miner fee.
- **Configuration** (`swft_config.dfy`, module `SwftConfig`):
  `SWFT_defaults` and `getSWFTConfig`.

`swft_types.dfy` holds the wire and output shapes, `wrappers.dfy` the
`Option` (`None` is JavaScript's `undefined`) and `Result` (`Failure` is a
thrown error) datatypes.

For whitelist `[ETP, BTC, ETH]` with ETP enforced and excluding ETH, the
table is `{ETP: [BTC], BTC: [ETP], ETH: [ETP]}` (`ThreeCoinExample`).

## Model

| member | source | states |
|---|---|---|
| JsBuiltins.IndexOf | functions/src/controller/pairs.ts:67-70 | `indexOf` gives -1 exactly when the element is absent, otherwise the position of its first occurrence |
| JsBuiltins.Split | functions/src/controller/pairs.ts:65 | `split(',')` yields at least one piece and no piece contains the separator |
| JsBuiltins.JoinSplit | functions/src/controller/pairs.ts:65 | joining the pieces of a split with the separator gives back the original string |
| JsBuiltins.SplitJoin | functions/src/controller/pairs.ts:65 | splitting a join of separator-free pieces gives back the pieces, so the split keeps empty pieces and trims nothing |
| JsBuiltins.ToLowerCase | functions/src/controller/rate.ts:40 | `toLowerCase` keeps the length and lower-cases character by character |
| JsBuiltins.ToLowerCaseIdempotent | functions/src/controller/rate.ts:40 | lower-casing is idempotent and leaves no upper-case ASCII letter |
| JsBuiltins.ParseInt | functions/src/provider/swft.provider.ts:69 | `parseInt` without a radix: skip leading white space, read one sign, a `0x`/`0X` prefix selects base 16, read the longest digit run; no digit is NaN (`None`) |
| JsBuiltins.ParseIntIntegerText | functions/src/provider/swft.provider.ts:69 | `parseInt` reads every integer back from its decimal text |
| JsBuiltins.ParseIntSkipsWhiteSpace | functions/src/provider/swft.provider.ts:69 | leading white space has no influence on `parseInt` |
| JsBuiltins.ParseIntStopsAtNonDigit | functions/src/provider/swft.provider.ts:69 | `parseInt` ignores everything after the first non-digit, unless the digits are a lone `0` and that character is `x` or `X` |
| JsBuiltins.ParseIntHex | functions/src/provider/swft.provider.ts:69 | after `0x` or `0X` the digits are read in base 16 |
| JsBuiltins.ParseIntNoDigit | functions/src/provider/swft.provider.ts:69 | text whose first character after the white space is neither a sign nor a digit is NaN |
| SwftConfig.GetSwftConfig | functions/src/config/swft.config.ts:14-19 | a key present in the `swft` section gives the configured value; otherwise the built-in default; undefined when neither has the key |
| SwftConfig.BuiltInDefaults | functions/src/config/swft.config.ts:4-12 | with no `swft` section: url `https://transfer.swft.pro`, source_flag `Metaverse`, source_type `H5`, fee_rate 0.002, equipment_no empty |
| SwftConfig.DefaultValueIgnored | functions/src/config/swft.config.ts:14 | the `defaultValue` argument never changes the result |
| SwftProvider.CodeText | functions/src/provider/swft.provider.ts:70-139 | the `codes` table: the 68 codes with their texts, undefined for any other code |
| SwftProvider.NumericCode | functions/src/provider/swft.provider.ts:69 | a text code goes through `parseInt`, an integer code is used as it is |
| SwftProvider.Message | functions/src/provider/swft.provider.ts:140-141 | `codes[swftCode]`: the table's text, undefined when the code is NaN or not in the table |
| SwftProvider.Evaluate | functions/src/provider/swft.provider.ts:68-141 | fails exactly when `throwOnError` is set and the parsed code is not 800; success and failure both carry the table's text for the code |
| SwftProvider.OkNeverFails | functions/src/provider/swft.provider.ts:140-141 | code 800, as number or text, never fails and answers "OK" |
| SwftProvider.ThrowingModes | functions/src/provider/swft.provider.ts:140-141 | throwing, every code other than 800 fails with `codes[code]`; not throwing, nothing fails and the text is returned |
| SwftProvider.TextAndIntegerAgree | functions/src/provider/swft.provider.ts:69 | a code given as its decimal text behaves exactly as the integer, for every integer |
| SwftProvider.TableEntries | functions/src/provider/swft.provider.ts:70-139 | 912 fails with "order not found", 915 with "deposit coin and receive coin can not be the same"; 901 and 907 share their text |
| SwftProvider.UnknownCodes | functions/src/provider/swft.provider.ts:140-141 | every integer code outside the table yields an undefined message, failing exactly when throwing |
| SwftProvider.UnreadableCodes | functions/src/provider/swft.provider.ts:69 | a text code that does not start, after white space, with a sign or a digit is NaN: an undefined message, failing exactly when throwing |
| SwftProvider.LeadingWhiteSpaceCode | functions/src/provider/swft.provider.ts:69 | a text code with leading white space is evaluated like the code without it |
| SwftProvider.TrailingTextCode | functions/src/provider/swft.provider.ts:69 | a decimal code followed by non-digit text is evaluated like the integer (except `x`/`X` after the code 0), so "800abc" and "800x" pass |
| SwftProvider.HexadecimalCode | functions/src/provider/swft.provider.ts:69 | a text code `0x…` is evaluated like the integer its hexadecimal digits denote, so "0x320" passes as 800 |
| Pairs.KeyByCoinCode | functions/src/controller/pairs.ts:62 | the definitions are keyed by exactly the listed coin codes, each mapped to a definition of that code |
| Pairs.KeyByLastWins | functions/src/controller/pairs.ts:62 | when a code is listed twice, the later definition wins |
| Pairs.Blacklist | functions/src/controller/pairs.ts:65 | a definition's blacklist is its `noSupportCoin` split on commas |
| Pairs.EnforcedAdmits | functions/src/controller/pairs.ts:69-72 | the four tests under an enforced symbol: different symbol, not blacklisted, defined, `isSupportAdvanced` is "Y" |
| Pairs.FallbackAdmits | functions/src/controller/pairs.ts:79 | the test under any other symbol, `blacklist.indexOf(toSymbol) !== undefined`, kept as written: a number is never `undefined` |
| Pairs.Tradable | functions/src/controller/pairs.ts:65-83 | the `tradable` list of a defined symbol: the admitted whitelist symbols when enforced, otherwise the admitted enforce-list symbols |
| Pairs.Emitted | functions/src/controller/pairs.ts:63-89 | the table after the outer loop has visited a prefix of the whitelist: a defined symbol with a non-empty `tradable` list is recorded with it |
| Pairs.PairMap | functions/src/controller/pairs.ts:55-89 | the table the handler answers with, the reference `ListPairs` is proved equal to |
| Pairs.CollectEnforced | functions/src/controller/pairs.ts:68-76 | the inner loop under an enforced symbol pushes exactly the admitted whitelist symbols, in whitelist order (`EnforcedTargets`) |
| Pairs.CollectFallback | functions/src/controller/pairs.ts:77-82 | the inner loop under any other symbol pushes the enforce-list symbols passing the `!== undefined` test (`FallbackTargets`) |
| Pairs.ListPairs | functions/src/controller/pairs.ts:55-89 | the nested loops compute exactly the table `PairMap` of whitelist, enforce-list and keyed definitions |
| Pairs.EnforcedTargetsMembers | functions/src/controller/pairs.ts:68-76 | a symbol is pushed exactly when it is scanned and passes the four tests |
| Pairs.EnforcedTargetsInOrder | functions/src/controller/pairs.ts:68-76 | pushed symbols keep the scan order |
| Pairs.FallbackKeepsAll | functions/src/controller/pairs.ts:77-82 | under a non-enforced symbol every enforce-list symbol is pushed, whatever the blacklist |
| Pairs.EmittedEntries | functions/src/controller/pairs.ts:63-89 | a symbol has an entry exactly when it is whitelisted, has a definition and a non-empty tradable list, and the entry is that list |
| Pairs.KeysAreDefinedWhitelistSymbols | functions/src/controller/pairs.ts:63-87 | every key is a whitelisted symbol with a definition, and no entry is empty |
| Pairs.EnforcedSourceTargets | functions/src/controller/pairs.ts:67-76 | under an enforced symbol F, T is listed iff T is whitelisted, T differs from F, T is not in F's split blacklist, T has a definition and its `isSupportAdvanced` is "Y" |
| Pairs.EnforcedSourceOrdered | functions/src/controller/pairs.ts:56-76 | with a duplicate-free whitelist, an enforced symbol's targets follow whitelist order without repetition |
| Pairs.NonEnforcedSourceGetsEnforceList | functions/src/controller/pairs.ts:77-82 | a whitelisted non-enforced symbol with a definition is listed with exactly the enforce-list |
| Pairs.HandlerLists | functions/src/controller/pairs.ts:55-56 | with the handler's lists, every whitelisted coin other than ETP that has a definition is listed with ETP alone |
| Pairs.WhitelistHasNoDuplicates | functions/src/controller/pairs.ts:56 | the handler's whitelist repeats no symbol, so ETP's receive list has no repetition |
| Pairs.BlacklistIsPlainSplit | functions/src/controller/pairs.ts:65 | "BTC, ETH" splits into "BTC" and " ETH", so ETH is not excluded; an empty `noSupportCoin` excludes only the empty symbol |
| Pairs.ThreeCoinExample | functions/src/controller/pairs.ts:63-89 | whitelist ETP, BTC, ETH, all three supporting advanced trading and ETP excluding ETH, gives ETP: [BTC], BTC: [ETP], ETH: [ETP], whatever the other fields |
| RateController.CheckPair | functions/src/controller/rate.ts:39-40 | rejected "Only ETP pairs supported" iff neither symbol is exactly ETP; otherwise "Illegal pair" iff the symbols are equal ignoring case; otherwise accepted |
| RateController.ToRate | functions/src/controller/rate.ts:44-50 | the four upstream numbers are parsed, the fee rate is the configured one, no miner fee is set |
| RateController.GetRate | functions/src/controller/rate.ts:36-50 | a rejected pair fails with the guard's message; otherwise the answer is the rate exactly when the upstream code is 800, and the code's text otherwise |
| RateController.RejectedPairMakesNoRequest | functions/src/controller/rate.ts:39-42 | when a guard rejects, the upstream answer plays no part |
| RateController.FeeRateIsConfigured | functions/src/controller/rate.ts:44-50 | an answered rate carries the configured fee rate and no miner fee, whatever upstream sent |
| RateController.HubCheckExamples | functions/src/controller/rate.ts:39 | BTC/ETH, etp/BTC and btc/BTC fail the hub check |
| RateController.IllegalPairExamples | functions/src/controller/rate.ts:39-40 | ETP/ETP and ETP/etp are illegal pairs, ETP/BTC passes |
| OrderController.ParseSwftOrderDetails | functions/src/controller/order.ts:204-231 | id from `orderId`, status from `detailState`, legs copied or parsed field by field, `created` from a non-empty `createTime` else the clock, each refund member present iff its string is not "" |
| OrderController.EmptyRefundHasAddressOnly | functions/src/controller/order.ts:224-229 | with all refund strings empty the refund holds only its address |
| OrderController.RefundAmountIndependent | functions/src/controller/order.ts:226 | the refund amount string changes the refund amount and nothing else |
| OrderController.OrderStateIgnored | functions/src/controller/order.ts:207-208 | `orderState` plays no part in the mapped order |
| OrderController.Upsert | functions/src/controller/order.ts:181-202 | conflict iff the document exists and `failOnExist`; insert with `order`, `createResponse`, `created` and no `touched`; update sets `touched`, `latestResponse`, `order` and keeps `created`, `createResponse`; other documents unchanged |
| OrderController.UpsertKeepsWellFormed | functions/src/controller/order.ts:186-200 | every document keeps `created` and `createResponse`, and has `touched` exactly when it has `latestResponse` |
| OrderController.SaveTwice | functions/src/controller/order.ts:186-200 | a second save of a fresh id adds `touched` and keeps the first `created`, or conflicts with `failOnExist` |
| OrderController.OrderStore.SaveOrder | functions/src/controller/order.ts:181-202 | the store's documents become those of `Upsert` under `id`, by default `order.id`; on conflict they are unchanged |
| OrderController.OrderStore.GetOrder | functions/src/controller/order.ts:65-85 | an upstream error code fails and leaves the store; otherwise the mapped order is answered and saved without `failOnExist` |
| OrderController.OrderStore.CreateOrder | functions/src/controller/order.ts:152-179 | an upstream error code fails; otherwise the mapped order is answered, and saved with `failOnExist`, so an existing document is left unchanged |

## Left out

- HTTP plumbing (Express routing, body parsing, `response.json`, status 500) and the function exports: the handlers are modelled as functions and methods returning `Success` or `Failure`.
- The upstream calls `getRate`, `getPairs`, `getOrderState` and `createOrder`: network I/O and JSON decoding. The rate and order handlers take them as function parameters and gate their result code through `Evaluate`. The request bodies they build are not modelled. `ListPairs` takes the decoded coin list.
- `uuidv4()` order ids: randomness from a foreign library.
- The Firestore runtime: the collection is an in-memory map, `serverTimestamp()` a constant token. Concurrent saves of one id are not modelled. The fire-and-forget save and its `.catch` logging are modelled as a save after the answer whose outcome is discarded.
- Floating point: every `parseFloat` result and the fee rate 0.002 are kept as the decimal text they come from (`FloatOf`), so NaN is not told apart from other values.
- Dates: `created` records where its instant comes from (`createTime` text or the clock reading `now`). `toISOString()` formatting and the error it throws for an unparseable date are not modelled.
- `SwftConfig.GetSwftConfig`: `functions.config()` is modelled as an optional `swft` section, and inherited object properties such as `constructor` are not looked up.
- The constants `SWFT_URL`, `SWFT_SOURCE_FLAG` and `SWFT_DEFAULT_FEE_RATE` are imported from the config file, but that file does not export them. The fee rate is a parameter of `GetRate`.
- `JsBuiltins.ParseInt`: precision loss above 2^53 and the sign of -0 are not modelled. Neither changes a table lookup.
- `SwftProvider.Evaluate`: a numeric code is an integer; fractional numbers are not modelled. A failure with an undefined message is `Failure(None)`; JavaScript would show it as an empty message.
- `JsBuiltins.ToLowerCase`: only ASCII letters are mapped; Unicode case mapping is not modelled.
- `Pairs.ListPairs`: the key insertion order of the answered JSON object is not modelled; the table is a map. The order of each symbol's receive list is modelled.
