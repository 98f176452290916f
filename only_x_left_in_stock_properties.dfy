/**
 * What the "only X left in stock" resolver promises, stated over all
 * collaborator outcomes.
 */
module OnlyXLeftInStockProperties {
  import opened Results
  import opened OnlyXLeftInStock

  /** The collaborators return a stock id and a configuration for `sku`. */
  predicate ConfigurationFound(c: Collaborators, sku: Sku, stockId: StockId, config: StockItemConfiguration)
  {
    c.stockIdForCurrentWebsite == Success(stockId) && c.stockItemConfiguration(sku, stockId) == Success(config)
  }

  /**
   * A threshold identical to the integer 0 yields no signal, and the
   * salable-quantity lookup is not consulted: replacing it changes nothing.
   */
  lemma DisabledThresholdIgnoresSalableQty(
    c: Collaborators, sku: Sku, stockId: StockId, config: StockItemConfiguration,
    otherSalableQty: (Sku, StockId) -> Result<real, Error>)
    requires ConfigurationFound(c, sku, stockId, config)
    requires SignalDisabled(config)
    ensures GetOnlyXLeftQty(c, sku) == Success(None)
    ensures GetOnlyXLeftQty(c.(productSalableQty := otherSalableQty), sku) == Success(None)
  {
  }

  /**
   * With a salable quantity at hand, a value is shown exactly when the
   * threshold is enabled, the salable quantity is positive and the remainder
   * `salableQty - minQty` is at or below the threshold; the value shown is
   * that remainder.
   */
  lemma ShownExactlyWithinThreshold(
    c: Collaborators, sku: Sku, stockId: StockId, config: StockItemConfiguration, salable: real)
    requires ConfigurationFound(c, sku, stockId, config)
    requires c.productSalableQty(sku, stockId) == Success(salable)
    ensures Shown(GetOnlyXLeftQty(c, sku)) <==>
      !SignalDisabled(config) && salable > 0.0 && salable - config.minQty <= NumericValue(config.stockThresholdQty)
    ensures Shown(GetOnlyXLeftQty(c, sku)) ==> GetOnlyXLeftQty(c, sku).value.value == salable - config.minQty
    ensures !Shown(GetOnlyXLeftQty(c, sku)) ==> GetOnlyXLeftQty(c, sku) == Success(None)
  {
  }

  /** A salable quantity of zero or less never shows a value, whatever the threshold. */
  lemma NonPositiveSalableQtyShowsNothing(
    c: Collaborators, sku: Sku, stockId: StockId, config: StockItemConfiguration, salable: real)
    requires ConfigurationFound(c, sku, stockId, config)
    requires c.productSalableQty(sku, stockId) == Success(salable)
    requires salable <= 0.0
    ensures GetOnlyXLeftQty(c, sku) == Success(None)
  {
  }

  /** The comparison with the threshold is non-strict: a remainder equal to it is shown. */
  lemma RemainderAtThresholdIsShown(
    c: Collaborators, sku: Sku, stockId: StockId, config: StockItemConfiguration, salable: real)
    requires ConfigurationFound(c, sku, stockId, config)
    requires c.productSalableQty(sku, stockId) == Success(salable)
    requires !SignalDisabled(config)
    requires salable > 0.0 && salable - config.minQty == NumericValue(config.stockThresholdQty)
    ensures GetOnlyXLeftQty(c, sku) == Success(Some(NumericValue(config.stockThresholdQty)))
  {
  }

  /** A positive salable quantity whose remainder exceeds the threshold shows nothing. */
  lemma RemainderAboveThresholdShowsNothing(
    c: Collaborators, sku: Sku, stockId: StockId, config: StockItemConfiguration, salable: real)
    requires ConfigurationFound(c, sku, stockId, config)
    requires c.productSalableQty(sku, stockId) == Success(salable)
    requires salable > 0.0 && salable - config.minQty > NumericValue(config.stockThresholdQty)
    ensures GetOnlyXLeftQty(c, sku) == Success(None)
  {
  }

  /**
   * An `InputException` or `LocalizedException` (or a subclass) from the
   * salable-quantity lookup becomes "no signal"; any other exception from it
   * propagates unless the threshold is disabled.
   */
  lemma SalableQtyFailurePolicy(
    c: Collaborators, sku: Sku, stockId: StockId, config: StockItemConfiguration, e: Error)
    requires ConfigurationFound(c, sku, stockId, config)
    requires c.productSalableQty(sku, stockId) == Failure(e)
    ensures Caught(e) ==> GetOnlyXLeftQty(c, sku) == Success(None)
    ensures !Caught(e) && !SignalDisabled(config) ==> GetOnlyXLeftQty(c, sku) == Failure(e)
  {
  }

  /**
   * Exceptions from resolving the stock id or loading the configuration are not
   * caught: the resolver throws exactly what the lookup threw, even a
   * `SkuIsNotAssignedToStockException` that the `try` block would have caught.
   */
  lemma LookupFailuresPropagate(c: Collaborators, sku: Sku, e: Error)
    requires c.stockIdForCurrentWebsite == Failure(e)
             || (c.stockIdForCurrentWebsite.Success?
                 && c.stockItemConfiguration(sku, c.stockIdForCurrentWebsite.value) == Failure(e))
    ensures GetOnlyXLeftQty(c, sku) == Failure(e)
    ensures Resolve(c, Some(map["model" := Product(sku)])) == Failure(e)
  {
  }

  /** The same `SkuIsNotAssignedToStockException` propagates from the configuration lookup but is swallowed from the salable lookup. */
  lemma SkuNotAssignedCaughtOnlyFromSalableLookup(c: Collaborators, sku: Sku, stockId: StockId, config: StockItemConfiguration, message: string)
    requires c.stockIdForCurrentWebsite == Success(stockId)
    requires c.stockItemConfiguration(sku, stockId) == Success(config)
    requires c.productSalableQty(sku, stockId) == Failure(Thrown(SkuIsNotAssignedToStockException, message))
    ensures GetOnlyXLeftQty(c, sku) == Success(None)
    ensures GetOnlyXLeftQty(c.(stockItemConfiguration := (s, i) => Failure(Thrown(SkuIsNotAssignedToStockException, message))), sku)
            == Failure(Thrown(SkuIsNotAssignedToStockException, message))
  {
  }

  /**
   * Some salable quantity makes the signal appear exactly when the threshold is
   * enabled and `threshold + minQty` is positive; the remainder equal to the
   * threshold is one such case.
   */
  lemma SignalReachableIff(config: StockItemConfiguration)
    ensures (exists salable: real :: Shown(StockLeftSignal(config, Success(salable))))
            <==> !SignalDisabled(config) && NumericValue(config.stockThresholdQty) + config.minQty > 0.0
  {
    var threshold := NumericValue(config.stockThresholdQty);
    if !SignalDisabled(config) && threshold + config.minQty > 0.0 {
      var salable := threshold + config.minQty;
      assert StockLeftSignal(config, Success(salable)) == Success(Some(threshold));
    }
  }

  /**
   * However the threshold is set, a large enough salable quantity hides the
   * signal: the signal never covers every stock level.
   */
  lemma SignalHiddenForSomeStockLevel(config: StockItemConfiguration)
    ensures exists salable: real :: salable > 0.0 && StockLeftSignal(config, Success(salable)) == Success(None)
  {
    var threshold := NumericValue(config.stockThresholdQty);
    var salable := if threshold + config.minQty + 1.0 > 1.0 then threshold + config.minQty + 1.0 else 1.0;
    assert StockLeftSignal(config, Success(salable)) == Success(None);
  }

  /**
   * Nothing bounds the shown value from below: with a positive minimum quantity
   * and a non-negative enabled threshold, a salable quantity under the minimum
   * shows a negative remainder.
   */
  lemma ShownValueCanBeNegative(config: StockItemConfiguration)
    requires !SignalDisabled(config)
    requires config.minQty > 0.0 && NumericValue(config.stockThresholdQty) >= 0.0
    ensures exists salable: real ::
      salable > 0.0 && salable < config.minQty
      && StockLeftSignal(config, Success(salable)) == Success(Some(salable - config.minQty))
  {
    var salable := config.minQty / 2.0;
    assert StockLeftSignal(config, Success(salable)) == Success(Some(salable - config.minQty));
  }

  /**
   * Only the integer 0 disables the signal: a float threshold of 0.0 passes the
   * identity guard, and with a positive minimum quantity it does show values.
   */
  lemma FloatZeroThresholdDoesNotDisable(minQty: real)
    requires minQty > 0.0
    ensures forall salable: real ::
      StockLeftSignal(StockItemConfiguration(minQty, IntNumber(0)), Success(salable)) == Success(None)
    ensures exists salable: real ::
      Shown(StockLeftSignal(StockItemConfiguration(minQty, FloatNumber(0.0)), Success(salable)))
  {
    var config := StockItemConfiguration(minQty, FloatNumber(0.0));
    assert StockLeftSignal(config, Success(minQty)) == Success(Some(0.0));
  }

  /** Worked cases with threshold 5 and minimum quantity 0. */
  lemma ThresholdFiveExamples()
    ensures StockLeftSignal(StockItemConfiguration(0.0, IntNumber(5)), Success(5.0)) == Success(Some(5.0))
    ensures StockLeftSignal(StockItemConfiguration(0.0, IntNumber(5)), Success(6.0)) == Success(None)
    ensures StockLeftSignal(StockItemConfiguration(0.0, IntNumber(5)), Success(0.0)) == Success(None)
    ensures StockLeftSignal(StockItemConfiguration(0.0, IntNumber(0)), Success(1.0)) == Success(None)
  {
  }
}
