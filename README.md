# "Only X left in stock" resolver

This project models the GraphQL field resolver that gives a product's "only X left in stock" quantity in the multi-source inventory module (`OnlyXLeftInStockResolver`).

For a SKU, the resolver does four things:

1. It resolves the stock of the current website.
2. It loads the SKU's stock-item configuration for that stock: the minimum quantity and the stock threshold.
3. If the threshold is identical (`===`) to the integer `0`, it returns `null`.
4. Otherwise it fetches the salable quantity and computes `stockLeft = salableQty - minQty`. It returns `stockLeft` when `salableQty > 0` and `stockLeft <= threshold`, and `null` otherwise.

The `try` block covers the salable-quantity lookup, the `getMinQty()` read, the subtraction and the comparison. An `InputException` or `LocalizedException` thrown there becomes `null`. Exceptions from the stock-id resolution and from the configuration lookup propagate to the caller.

Files:

- `results.dfy`: module `Results`, the `Option` type (PHP `null`) and the `Result` type (a value, or a thrown exception).
- `only_x_left_in_stock.dfy`: module `OnlyXLeftInStock`, the data model and the resolver.
  - The collaborators are modelled by their outcomes, in a `Collaborators` value: the current website's stock id, the configuration lookup and the salable-quantity lookup. Each returns or throws.
  - `StockLeftSignal` is the decision once the configuration is known (the identity guard and the `try` block).
  - `GetOnlyXLeftQty` wraps it with the two lookups that run outside the `try`.
  - `Resolve` applies it to the SKU of `$value['model']`.
- `only_x_left_in_stock_properties.dfy`: module `OnlyXLeftInStockProperties`, lemmas about the whole resolver.

Modelling decisions:

- Quantities are exact `real`s. The rule only subtracts and compares, so IEEE rounding does not matter.
- The threshold is a PHP number that keeps its runtime type (`IntNumber` or `FloatNumber`), because the early exit compares by identity. `NumericValue` gives the value that `<=` uses.
- The exception classes form a small hierarchy: `InputException` and `SkuIsNotAssignedToStockException` both extend `LocalizedException`. `InstanceOf` models this, and `Caught` models the `catch` clause. This hierarchy comes from the Magento framework, which is not part of this model.

Two consequences of the code are worth stating:

- Only an integer `0` disables the signal (`$thresholdQty === 0`, line 90). A float `0.0` passes the guard, and with `minQty > 0` it shows values (`FloatZeroThresholdDoesNotDisable`).
- Configuration-lookup exceptions are not caught, because line 87 is outside the `try` (`LookupFailuresPropagate`).

## Model

| member | source | states |
|---|---|---|
| `OnlyXLeftInStock.StockLeftSignal` | InventoryGraphQl/Model/Resolver/OnlyXLeftInStockResolver.php:89-105 | An integer-0 threshold gives no signal. A shown value equals `salableQty - minQty`, comes from a positive salable quantity and is at most the threshold. Every enabled case with `salableQty > 0` and remainder `<=` threshold is shown. A caught lookup exception gives no signal. Any other exception from the salable lookup escapes unchanged when the threshold is enabled, and it is the only exception that escapes. |
| `OnlyXLeftInStock.GetOnlyXLeftQty` | InventoryGraphQl/Model/Resolver/OnlyXLeftInStockResolver.php:84-106 | A failure of the stock-id resolution or of the configuration lookup is thrown unchanged. Otherwise the result is the decision on the loaded configuration and the salable quantity for the same SKU and stock id. |
| `OnlyXLeftInStock.Resolve` | InventoryGraphQl/Model/Resolver/OnlyXLeftInStockResolver.php:68-75 | The result is exactly `getOnlyXLeftQty` of the SKU of `$value['model']`, with nothing changed. Without a model, calling `getSku()` on null throws an exception that the resolver does not catch. |
| `OnlyXLeftInStockProperties.DisabledThresholdIgnoresSalableQty` | InventoryGraphQl/Model/Resolver/OnlyXLeftInStockResolver.php:89-92 | A threshold identical to integer 0 gives no signal, and replacing the salable-quantity lookup does not change the result. |
| `OnlyXLeftInStockProperties.ShownExactlyWithinThreshold` | InventoryGraphQl/Model/Resolver/OnlyXLeftInStockResolver.php:95-105 | A value is shown if and only if the threshold is enabled, `salableQty > 0` and `salableQty - minQty <= threshold`. The shown value is `salableQty - minQty`. In every other case the result is `null`, not an error. |
| `OnlyXLeftInStockProperties.NonPositiveSalableQtyShowsNothing` | InventoryGraphQl/Model/Resolver/OnlyXLeftInStockResolver.php:98-105 | A salable quantity of zero or less gives `null`, whatever the threshold. |
| `OnlyXLeftInStockProperties.RemainderAtThresholdIsShown` | InventoryGraphQl/Model/Resolver/OnlyXLeftInStockResolver.php:98-99 | The comparison is non-strict: a remainder equal to the threshold is shown, as the threshold's value. |
| `OnlyXLeftInStockProperties.RemainderAboveThresholdShowsNothing` | InventoryGraphQl/Model/Resolver/OnlyXLeftInStockResolver.php:98-105 | A positive salable quantity whose remainder exceeds the threshold gives `null`. |
| `OnlyXLeftInStockProperties.SalableQtyFailurePolicy` | InventoryGraphQl/Model/Resolver/OnlyXLeftInStockResolver.php:94-103 | An `InputException` or `LocalizedException` (or a subclass) from the salable lookup gives `null`. Any other exception from it propagates when the threshold is enabled. |
| `OnlyXLeftInStockProperties.LookupFailuresPropagate` | InventoryGraphQl/Model/Resolver/OnlyXLeftInStockResolver.php:81-87 | An exception from the stock-id resolution or the configuration lookup is thrown unchanged by `getOnlyXLeftQty` and by `resolve`. |
| `OnlyXLeftInStockProperties.SkuNotAssignedCaughtOnlyFromSalableLookup` | InventoryGraphQl/Model/Resolver/OnlyXLeftInStockResolver.php:86-103 | A `SkuIsNotAssignedToStockException` from the salable lookup gives `null`. The same exception from the configuration lookup propagates. |
| `OnlyXLeftInStockProperties.SignalReachableIff` | InventoryGraphQl/Model/Resolver/OnlyXLeftInStockResolver.php:89-99 | Some salable quantity shows a value if and only if the threshold is enabled and `threshold + minQty > 0`. |
| `OnlyXLeftInStockProperties.SignalHiddenForSomeStockLevel` | InventoryGraphQl/Model/Resolver/OnlyXLeftInStockResolver.php:98-105 | For every configuration, some positive salable quantity gives `null`: the signal never covers every stock level. |
| `OnlyXLeftInStockProperties.ShownValueCanBeNegative` | InventoryGraphQl/Model/Resolver/OnlyXLeftInStockResolver.php:96-99 | Nothing bounds the shown value from below. With `minQty > 0` and a non-negative enabled threshold, a salable quantity below `minQty` shows a negative remainder. |
| `OnlyXLeftInStockProperties.FloatZeroThresholdDoesNotDisable` | InventoryGraphQl/Model/Resolver/OnlyXLeftInStockResolver.php:90 | An integer-0 threshold never shows a value. A float `0.0` threshold is not identical to `0`, and with `minQty > 0` it shows a value for some salable quantity. |
| `OnlyXLeftInStockProperties.ThresholdFiveExamples` | InventoryGraphQl/Model/Resolver/OnlyXLeftInStockResolver.php:90-105 | With threshold 5 and `minQty` 0: salable 5 shows 5, salable 6 and salable 0 show nothing. An integer-0 threshold shows nothing. |

## Left out

- The GraphQL plumbing (`Field`, `ResolveInfo`, `$context`, `$args`) is not modelled. It only carries the product to the resolver.
- The injected `ScopeConfigInterface` is not modelled, because the resolver never uses it.
- The collaborators `GetStockIdForCurrentWebsite`, `GetStockItemConfigurationInterface` and `GetProductSalableQtyInterface` are not part of this model. They appear only through the values they return or the exceptions they throw.
- `getMinQty()` and `getStockThresholdQty()` are modelled as fields of the loaded configuration that cannot throw. An exception from `getMinQty()` inside the `try` (which the `catch` would turn into `null`) is not represented.
- PHP `float` arithmetic and the `(float)` cast are modelled with exact reals. IEEE rounding is not captured.
- The exception class hierarchy is stated as a fact of the Magento framework, which is not part of this model.
- The integration test for quote items on a non-default stock is not modelled. Its outcomes depend on fixture data and a reservation implementation that are not part of this model.
- The asynchronous source-item indexer is not modelled. It only forwards identifiers to a message-queue publisher and a stock indexer, which are not part of this model.
- Resolve: a missing `$value` or `'model'` entry is modelled as one uncaught exception. The PHP notice emitted before the `getSku()` call on null is not modelled.
