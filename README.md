# crypto-wallet: valuation, price refresh and CoinCap conversions in Dafny

This project models the core of the crypto-wallet service and proves properties of the model. The core has three parts:

- **`WalletServiceImpl`**:
  - `getWalletSummary`: one pass over the stored assets. It sums `quantity × latestPrice`, computes each asset's performance as a percentage with `BigDecimal` rounding, and keeps the best and the worst asset by strict comparison.
  - `updatePricesConcurrently`: fetches each asset's price, stores it rounded to cents in `latestPrice`, and saves the asset. A failure is isolated to its own asset.
  - `parsePriceFromResponse`: reads `data.priceUsd` from a price reply.
- **`WalletAsset`**: the mutable holding record with five nullable fields, its two constructors, its getters and its setters.
- **`CoinCapClient`**:
  - `fetchValidAssets` builds the upper-cased symbol → id map from the asset listing.
  - `getLatestPrice` turns one asset's price reply into a 2-decimal price or a failure.

Modules:

- `Wrappers` (`wrappers.dfy`): `Option` and `Result`.
- `Decimal` (`decimal.dfy`): `BigDecimal` values are exact `real`s. `RoundHalfUp(x, places)` is `setScale`/`divide` with `RoundingMode.HALF_UP`: the magnitude is rounded half up and the sign is kept, so ties go away from zero.
- `Text` (`text.dfy`): `toUpperCase`/`toLowerCase` on ASCII letters.
- `Responses` (`responses.dfy`): HTTP replies after JSON decoding. There is one constructor for each shape the Java code tells apart: a request that threw, a null body, a missing key, a null, a value of the wrong type, an unparsable number, or a decimal.
- `Assets` (`wallet_asset.dfy`): the `WalletAsset` class. Its Java nulls are `None`, and `View()` gives its field values as a `Holding`.
- `CoinCap` (`coincap_client.dfy`): `fetchValidAssets` as a method with the loop of the source, and `getLatestPrice` as a function of the decoded reply.
- `Valuation` (`valuation.dfy`): the valuation rules as functions of the holdings' values.
  - `Tallied` replays the summary loop over a sequence of holdings.
  - `TotalValue`, `IsBest` and `IsWorst` give independent definitions of the sum, the first maximum and the first minimum.
  - `Summarize` gives the five values the summary string prints.
- `WalletService` (`wallet_service.dfy`): `UpdatePricesConcurrently` and `GetWalletSummary` as methods over an array of `WalletAsset` objects, the per-asset task as `RefreshTask`, plus `ParsePriceFromResponse`.

How the source's behaviour is represented:

- Exceptions are `Result` failures.
- `repository.findAll()` is the array handed in.
- Each `repository.save(asset)` is recorded as the asset's index in the `saved` output of `UpdatePricesConcurrently`.

Behaviour of the code worth knowing, which the model follows:

- A holding with a null `latestPrice`, `price` or `quantity`, or a zero `price`, makes the whole summary throw: the code dereferences the null or divides by zero. The model returns `NullPointer` or `DivisionByZero` for the first such holding, in the order the Java expression meets the fields (`Valuation.Fault`).
- The four example holdings BTC, ETH, DOGE and ADA give a total of 45500.00, with DOGE (25.00%) the best and ETH (8.00%) the worst (`Valuation.ExampleSummary`).
- `updatePricesConcurrently` requests the fixed base URL followed by the lower-cased symbol. It does not resolve symbols to CoinCap ids.
- The summary starts the best and worst performance at `±Double.MAX_VALUE`, and an empty wallet prints those values with "N/A". The model keeps them as the exact constant `Valuation.MaxDouble`, and an `Option` index records which asset, if any, was kept.

## Model

Source paths are relative to the repository root. `WalletServiceImpl.java`, `CoinCapClient.java` and `WalletAsset.java` live under `crypto-wallet/src/main/java/com/project/cryptowallet/` in `service/`, `client/` and `model/`.

| member | source | states |
|---|---|---|
| Decimal.RoundHalfUp | crypto-wallet/src/main/java/com/project/cryptowallet/service/WalletServiceImpl.java:104 | The result has at most `places` decimals. It lies within half a unit of the last place from the exact value. It has the sign of the exact value. |
| Decimal.RoundHalfUpTie | crypto-wallet/src/main/java/com/project/cryptowallet/service/WalletServiceImpl.java:67 | A value exactly half-way between two neighbours is rounded away from zero: up by half a unit when non-negative, down when negative. |
| Decimal.RoundHalfUpSymmetric | crypto-wallet/src/main/java/com/project/cryptowallet/service/WalletServiceImpl.java:67 | Rounding `-x` gives minus the rounding of `x`. This is HALF_UP's symmetry for negative performances. |
| Decimal.RoundHalfUpExact | crypto-wallet/src/main/java/com/project/cryptowallet/service/WalletServiceImpl.java:104 | A value that already has `places` decimals is returned unchanged. |
| Decimal.RoundHalfUpIdempotent | crypto-wallet/src/main/java/com/project/cryptowallet/service/WalletServiceImpl.java:104 | Rounding an already rounded value again changes nothing. |
| Decimal.RoundHalfUpMonotone | crypto-wallet/src/main/java/com/project/cryptowallet/service/WalletServiceImpl.java:66-68 | Rounding never reverses the order of two values. So a holding the comparisons rank strictly higher also has a strictly higher exact ratio. Ratios that round alike tie, and the earlier holding is kept. |
| Decimal.RoundHalfUpRescale | crypto-wallet/src/main/java/com/project/cryptowallet/service/WalletServiceImpl.java:66-68 | Rounding the ratio to 4 places and multiplying by 100 equals rounding the percentage to 2 places. |
| Text.ToUpperIdempotent | crypto-wallet/src/main/java/com/project/cryptowallet/client/CoinCapClient.java:38 | Upper-casing an upper-cased symbol leaves it unchanged, so every map key is its own upper-case form. |
| Text.SameLowerIffSameUpper | crypto-wallet/src/main/java/com/project/cryptowallet/service/WalletServiceImpl.java:36 | Two strings lower-case alike exactly when they upper-case alike. |
| Assets.WalletAsset.Empty | crypto-wallet/src/main/java/com/project/cryptowallet/model/WalletAsset.java:10-11 | The no-argument constructor leaves all five fields null. |
| Assets.WalletAsset.constructor | crypto-wallet/src/main/java/com/project/cryptowallet/model/WalletAsset.java:13-19 | The five-argument constructor stores price, id, symbol, quantity and latestPrice exactly as given, each in its own field. |
| Assets.WalletAsset.SetId | crypto-wallet/src/main/java/com/project/cryptowallet/model/WalletAsset.java:37-39 | `GetId` then returns the new id, and every other field is unchanged. |
| Assets.WalletAsset.SetSymbol | crypto-wallet/src/main/java/com/project/cryptowallet/model/WalletAsset.java:45-47 | `GetSymbol` then returns the new symbol, and every other field is unchanged. |
| Assets.WalletAsset.SetQuantity | crypto-wallet/src/main/java/com/project/cryptowallet/model/WalletAsset.java:53-55 | `GetQuantity` then returns the new quantity, and every other field is unchanged. |
| Assets.WalletAsset.SetPrice | crypto-wallet/src/main/java/com/project/cryptowallet/model/WalletAsset.java:61-63 | `GetPrice` then returns the new price, and every other field is unchanged. |
| Assets.WalletAsset.SetLatestPrice | crypto-wallet/src/main/java/com/project/cryptowallet/model/WalletAsset.java:69-71 | `GetLatestPrice` then returns the new value, and id, symbol, quantity and price are unchanged. |
| CoinCap.FetchValidAssets | crypto-wallet/src/main/java/com/project/cryptowallet/client/CoinCapClient.java:29-47 | Succeeds exactly when the request succeeded and the listing is absent, or is an array of readable entries. A null body or a missing `data` gives an empty map. Every failure is the single "failed to fetch valid assets" error, never a partial map. On success: every entry's upper-cased symbol is a key, every key comes from an entry, each key maps to the id of the last entry carrying it, and every key is upper-case. |
| CoinCap.PutKeepsFiling | crypto-wallet/src/main/java/com/project/cryptowallet/client/CoinCapClient.java:37-40 | One more `put` extends a map that files the first i entries, later entries overwriting, to one that files the first i + 1. |
| CoinCap.GetLatestPrice | crypto-wallet/src/main/java/com/project/cryptowallet/client/CoinCapClient.java:55-68 | Succeeds exactly when the reply has `data` quoting a decimal `priceUsd`. The price is that decimal rounded half up to 2 places: it has 2 decimals and lies within 0.005 of the quote. Without a reply, or when `data` is there but the price cannot be read, the error is "failed to fetch price". A reply without `data` gives "price not found". |
| Valuation.TalliedMeaning | crypto-wallet/src/main/java/com/project/cryptowallet/service/WalletServiceImpl.java:60-80 | The loop completes exactly when every holding can be valued. Otherwise it throws the exception of the first holding that cannot be valued. When it completes, the total is the exact sum of quantity × latestPrice from 0. Best is the first holding of maximal performance and worst the first of minimal performance. Each is recorded only when its performance is strictly beyond the ±Double.MAX_VALUE start. |
| Valuation.FailureSticks | crypto-wallet/src/main/java/com/project/cryptowallet/service/WalletServiceImpl.java:65-70 | Once a holding has thrown, the later holdings do not change the outcome. |
| Valuation.TotalValueSnoc | crypto-wallet/src/main/java/com/project/cryptowallet/service/WalletServiceImpl.java:70 | The sum accumulated front to back, as the loop adds, equals the recursive sum. |
| Valuation.StepKeepsBest | crypto-wallet/src/main/java/com/project/cryptowallet/service/WalletServiceImpl.java:72-75 | The strict `>` comparison keeps the first holding of maximal performance as one more holding is seen. |
| Valuation.StepKeepsWorst | crypto-wallet/src/main/java/com/project/cryptowallet/service/WalletServiceImpl.java:76-79 | The strict `<` comparison keeps the first holding of minimal performance as one more holding is seen. |
| Valuation.PerformanceAsPercent | crypto-wallet/src/main/java/com/project/cryptowallet/service/WalletServiceImpl.java:66-68 | The performance is the percentage change rounded half up to 2 places, so `%.2f` prints it unchanged. |
| Valuation.PerformanceAtLeastMinus100 | crypto-wallet/src/main/java/com/project/cryptowallet/service/WalletServiceImpl.java:66-68 | With a positive price and a non-negative latest price, the performance is at least -100%. |
| Valuation.EmptyWalletSummary | crypto-wallet/src/main/java/com/project/cryptowallet/service/WalletServiceImpl.java:60-63 | An empty wallet gives total 0, "N/A" for both assets, and the two ±Double.MAX_VALUE starting values as performances. |
| Valuation.SummaryFailure | crypto-wallet/src/main/java/com/project/cryptowallet/service/WalletServiceImpl.java:65-70 | The summary throws exactly when some holding has a null latestPrice, price or quantity, or a zero price. It throws the first such holding's exception. |
| Valuation.SummaryOfValuableWallet | crypto-wallet/src/main/java/com/project/cryptowallet/service/WalletServiceImpl.java:58-88 | A wallet whose holdings can all be valued gets a summary. Its total is the exact sum rounded half up to 2 places. When the wallet is non-empty and the performances are within the sentinels: best and worst are held assets, the first of maximal and of minimal performance. Their symbols and exact performances are printed, and best ≥ worst. |
| Valuation.ExampleSummary | crypto-wallet/src/main/java/com/project/cryptowallet/service/WalletServiceImpl.java:58-88 | Holdings BTC, ETH, DOGE and ADA give total 45500.00, best DOGE at 25.00% and worst ETH at 8.00%. |
| WalletService.PriceUrlSameIff | crypto-wallet/src/main/java/com/project/cryptowallet/service/WalletServiceImpl.java:36 | The price URL is the fixed base followed by the lower-cased symbol. Two symbols share a URL exactly when they agree up to case, the way the upper-cased listing keys do. |
| WalletService.ParsePriceFromResponse | crypto-wallet/src/main/java/com/project/cryptowallet/service/WalletServiceImpl.java:95-108 | Succeeds exactly when the body's `data` object quotes a decimal `priceUsd`. The result is that decimal rounded half up to 2 places: it has 2 decimals and lies within 0.005 of the quote. Every failure is the single "failed to parse price" exception. |
| WalletService.QuoteAgreesWithClient | crypto-wallet/src/main/java/com/project/cryptowallet/service/WalletServiceImpl.java:37-39 | The service's fetch-and-parse accepts the same replies as `CoinCapClient.getLatestPrice` and yields the same price. |
| WalletService.Refreshed | crypto-wallet/src/main/java/com/project/cryptowallet/service/WalletServiceImpl.java:35-44 | After its task, an asset differs at most in latestPrice. The price becomes the parsed quote when the asset has a symbol and its fetch and parse succeed. Otherwise the asset is unchanged, including when a null symbol throws before the request. |
| WalletService.RefreshedPrice | crypto-wallet/src/main/java/com/project/cryptowallet/service/WalletServiceImpl.java:38-40 | A refreshed latestPrice is the reply's `priceUsd` rounded half up to 2 places. A reply without a price leaves the asset as it was. |
| WalletService.RefreshTask | crypto-wallet/src/main/java/com/project/cryptowallet/service/WalletServiceImpl.java:35-45 | One task leaves its asset as its refreshed value. It saves exactly when the asset has a symbol and the fetch and parse succeed. It requests the base URL followed by the lower-cased symbol, and requests nothing when the symbol is null. |
| WalletService.UpdatePricesConcurrently | crypto-wallet/src/main/java/com/project/cryptowallet/service/WalletServiceImpl.java:31-55 | On return every asset has been processed: each one is its own refreshed value, and a failure touches only its own asset. The saves are exactly the assets whose task succeeded, each once, in order. Each asset with a symbol has its price requested from the base URL followed by its lower-cased symbol, and an asset with a null symbol makes no request. |
| WalletService.GetWalletSummary | crypto-wallet/src/main/java/com/project/cryptowallet/service/WalletServiceImpl.java:58-88 | The loop over the assets returns exactly `Summarize` of their current values: the exception of the first holding that cannot be valued, or the rounded total with the best and worst asset. Those values are characterised by `TalliedMeaning` and `SummaryOfValuableWallet`. |

## Left out

- HTTP transport and JSON decoding (`RestTemplate.getForObject`, Jackson `ObjectMapper`): each reply is an already-decoded input of the `Responses` types.
- The parse of the `priceUsd` string by `new BigDecimal(String)`: it is abstracted to a parsed decimal or "not a number".
- The fixed pool of 3 threads, the futures and `future.get()`: the tasks run one after another in list order. Only "every asset is processed before the call returns" and failure isolation are kept. That guarantee assumes the calling thread is not interrupted: `future.get()` catches `InterruptedException`, so an interrupted caller can return before a task has finished. Interleavings, and two tasks sharing one `WalletAsset` object, are not modelled.
- WalletService.UpdatePricesConcurrently: requires the assets to be distinct objects, as `findAll()` returns one entity per row. It also assumes `repository.save` never throws, so a failing save, which the source catches after `latestPrice` is already set, is not modelled.
- `printStackTrace` logging and the text layout of `String.format`: the summary is the five values it prints, with `%.2f` modelled as half-up rounding to 2 places.
- The configured `coincap.api.base-url` and the request URLs `CoinCapClient` builds: the client's request is an input.
- Case mapping covers ASCII letters only: `toUpperCase`/`toLowerCase` of other Unicode letters, and their locale dependence, are not modelled.
- `saveAssets` and `getWalletHistory`: single repository calls without logic. Spring Data repositories, controllers, `WalletAssetHistory`, `WalletSummaryResponse` and the application configuration are not part of this model.
- A recurring scheduler, a symbol-map lookup before fetching, and price history snapshots do not appear in `WalletServiceImpl`, so they are not modelled.
- Java's `long` id is an unbounded `int`. Overflow cannot arise, since the model does no arithmetic on ids.
