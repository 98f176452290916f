/**
 * The GraphQL "only X left in stock" resolver of the inventory module.
 *
 * For a product's SKU it resolves the stock of the current website, reads that
 * SKU's stock-item configuration there, and shows `salableQty - minQty` only when
 * the SKU still has salable quantity and that remainder is at or below the
 * configured stock threshold. The three collaborators (website-to-stock
 * resolution, configuration lookup, salable-quantity lookup) are given as
 * values: each either returns or throws.
 */
module OnlyXLeftInStock {
  import opened Results

  type Sku = string
  type StockId = int

  /**
   * A PHP number as the configuration returns it. The runtime type is kept
   * because the early exit compares the threshold with `0` by identity.
   */
  datatype Number = IntNumber(i: int) | FloatNumber(f: real)

  /** The numeric value PHP uses when a number is compared with `<=`. */
  function NumericValue(n: Number): real
  {
    match n
    case IntNumber(i) => i as real
    case FloatNumber(f) => f
  }

  /** The exception classes that can reach this resolver. */
  datatype ExceptionClass =
    | LocalizedException
    | InputException
    | SkuIsNotAssignedToStockException
    | OtherThrowable

  /** A thrown exception. */
  datatype Error = Thrown(kind: ExceptionClass, message: string)

  /**
   * `instanceof` on the exception classes: both `InputException` and
   * `SkuIsNotAssignedToStockException` extend `LocalizedException`.
   */
  predicate InstanceOf(sub: ExceptionClass, ancestor: ExceptionClass)
  {
    sub == ancestor
    || (ancestor == LocalizedException && (sub == InputException || sub == SkuIsNotAssignedToStockException))
  }

  /** The exceptions the `catch (InputException | LocalizedException $e)` clause handles. */
  predicate Caught(e: Error)
  {
    InstanceOf(e.kind, InputException) || InstanceOf(e.kind, LocalizedException)
  }

  /** The per-(SKU, stock) configuration fields the resolver reads. */
  datatype StockItemConfiguration = StockItemConfiguration(minQty: real, stockThresholdQty: Number)

  /** The low-stock signal is switched off only by a threshold identical (`===`) to the integer 0. */
  predicate SignalDisabled(config: StockItemConfiguration)
  {
    config.stockThresholdQty == IntNumber(0)
  }

  /** The resolver's collaborators, each modelled by what it returns or throws. */
  datatype Collaborators = Collaborators(
    stockIdForCurrentWebsite: Result<StockId, Error>,
    stockItemConfiguration: (Sku, StockId) -> Result<StockItemConfiguration, Error>,
    productSalableQty: (Sku, StockId) -> Result<real, Error>)

  /** A resolved value that carries a quantity. */
  predicate Shown(r: Result<Option<real>, Error>)
  {
    r.Success? && r.value.Some?
  }

  /**
   * The decision once the configuration is known: the identity guard on the
   * threshold, then the `try` block around the salable-quantity lookup.
   */
  function StockLeftSignal(config: StockItemConfiguration, salableQty: Result<real, Error>): (r: Result<Option<real>, Error>)
    // A disabled threshold hides the signal whatever the salable quantity is.
    ensures SignalDisabled(config) ==> r == Success(None)
    // A shown value is the salable quantity less the minimum quantity, for a
    // positive salable quantity, and never above the threshold.
    ensures Shown(r) ==>
      && salableQty.Success?
      && salableQty.value > 0.0
      && r.value.value == salableQty.value - config.minQty
      && r.value.value <= NumericValue(config.stockThresholdQty)
    // Conversely, an enabled threshold shows every such remainder, the
    // threshold itself included.
    ensures !SignalDisabled(config) && salableQty.Success? && salableQty.value > 0.0
            && salableQty.value - config.minQty <= NumericValue(config.stockThresholdQty)
            ==> r == Success(Some(salableQty.value - config.minQty))
    // A lookup failure the catch clause handles becomes "no signal".
    ensures salableQty.Failure? && Caught(salableQty.error) ==> r == Success(None)
    // Any other exception from the lookup escapes unchanged past an enabled threshold.
    ensures !SignalDisabled(config) && salableQty.Failure? && !Caught(salableQty.error) ==> r == Failure(salableQty.error)
    // The only exception that escapes is an uncaught one from the salable lookup.
    ensures r.Failure? ==>
      !SignalDisabled(config) && salableQty == Failure(r.error) && !Caught(r.error)
  {
    if SignalDisabled(config) then
      Success(None)
    else
      match salableQty
      case Failure(e) =>
        if Caught(e) then Success(None) else Failure(e)
      case Success(salable) =>
        var stockLeft := salable - config.minQty;
        if salable > 0.0 && stockLeft <= NumericValue(config.stockThresholdQty) then
          Success(Some(stockLeft))
        else
          Success(None)
  }

  /**
   * The resolver's decision for one SKU: the stock id and the configuration are
   * looked up outside the `try`, so their exceptions propagate.
   */
  function GetOnlyXLeftQty(c: Collaborators, sku: Sku): (r: Result<Option<real>, Error>)
    ensures c.stockIdForCurrentWebsite.Failure? ==> r == Failure(c.stockIdForCurrentWebsite.error)
    ensures c.stockIdForCurrentWebsite.Success?
            && c.stockItemConfiguration(sku, c.stockIdForCurrentWebsite.value).Failure?
            ==> r == Failure(c.stockItemConfiguration(sku, c.stockIdForCurrentWebsite.value).error)
    ensures c.stockIdForCurrentWebsite.Success?
            && c.stockItemConfiguration(sku, c.stockIdForCurrentWebsite.value).Success?
            ==> r == StockLeftSignal(c.stockItemConfiguration(sku, c.stockIdForCurrentWebsite.value).value,
                                     c.productSalableQty(sku, c.stockIdForCurrentWebsite.value))
  {
    var stockId :- c.stockIdForCurrentWebsite;
    var config :- c.stockItemConfiguration(sku, stockId);
    StockLeftSignal(config, c.productSalableQty(sku, stockId))
  }

  /** The product object the GraphQL layer passes in as `$value['model']`. */
  datatype Product = Product(sku: Sku)

  /**
   * The resolver entry point: the signal for the SKU of `$value['model']`,
   * unchanged. A missing `$value` or model leaves PHP calling `getSku()` on
   * null, which throws.
   */
  function Resolve(c: Collaborators, value: Option<map<string, Product>>): (r: Result<Option<real>, Error>)
    ensures value.Some? && "model" in value.value ==> r == GetOnlyXLeftQty(c, value.value["model"].sku)
    ensures value.None? || "model" !in value.value ==> r.Failure? && !Caught(r.error)
  {
    if value.Some? && "model" in value.value then
      GetOnlyXLeftQty(c, value.value["model"].sku)
    else
      Failure(Thrown(OtherThrowable, "Call to a member function getSku() on null"))
  }
}
