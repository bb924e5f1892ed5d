/** The errors the allocation preview can end with, one constructor per throw site of the program. */
module PlanErrors {
  datatype PlanError =
    // business outcome: no plan fits the portfolio and the catalogue
    | NoMatchingOpportunities
    // invalid requests and catalogues
    | UnsupportedPreset
    | InvalidLiquidReserve
    | SnapshotChanged
    | InvalidOpportunitySelection
    | RouteRejected
    | NumericLimitExceeded
    | ApyExceedsLimits
    // arithmetic guards
    | InvalidCapacities
    | InvalidAllocationWeights
    | InvalidAmountDistribution
    | InvalidZeroWeightDistribution
    // "does not reconcile" guards
    | EcosystemCapitalDoesNotReconcile
    | UnallocatedCapitalDoesNotReconcile
    | RetainedCapitalDoesNotReconcile
    | ManagedCapitalDoesNotReconcile
    | InvalidManagedYieldComposition
    | InvalidActiveEcosystemCount

  /**
   How planning may fail on valid input: nothing fits, the catalogue offers no usable choice, the route is
   refused, or an amount is out of range. Everything else above is a guard planning must never trip.
   */
  predicate IsPlanningError(e: PlanError) {
    e in {NoMatchingOpportunities, InvalidOpportunitySelection, RouteRejected, NumericLimitExceeded}
  }
}
