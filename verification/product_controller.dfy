/** The product-scoped base controller: validate both ids, then resolve at product scope. */
module ProductController {
  import opened Wrappers
  import opened AppTypes
  import opened Reactive
  import opened JavaStrings
  import opened ScopedResolution

  const ContractIdMissing := "contractId is required"
  const ContractIdRequired := ContractIdMissing + " but was null. Check your @PathVariable mapping."
  const ProductIdMissing := "productId is required"
  const ProductIdRequired := ProductIdMissing + " but was null. Check your @PathVariable mapping."

  /** `requireContractId(contractId)`: rejects only a null contract id. */
  function RequireContractId(contractId: Option<Uuid>): (o: Outcome<Throwable>)
    ensures o.Pass? <==> contractId.Some?
    ensures o.Fail? ==> o.error == IllegalArgument(ContractIdRequired)
    ensures o.Fail? ==> StartsWith(o.error.message, ContractIdMissing)
  {
    if contractId.None? then Fail(IllegalArgument(ContractIdRequired)) else Pass
  }

  /** `requireProductId(productId)`: rejects only a null product id. */
  function RequireProductId(productId: Option<Uuid>): (o: Outcome<Throwable>)
    ensures o.Pass? <==> productId.Some?
    ensures o.Fail? ==> o.error == IllegalArgument(ProductIdRequired)
    ensures o.Fail? ==> StartsWith(o.error.message, ProductIdMissing)
  {
    if productId.None? then Fail(IllegalArgument(ProductIdRequired)) else Pass
  }

  /**
   * `requireContext(contractId, productId)`: the contract id is checked first,
   * so when both are null the contract message is the one thrown.
   */
  function RequireContext(contractId: Option<Uuid>, productId: Option<Uuid>): (o: Outcome<Throwable>)
    ensures o.Pass? <==> contractId.Some? && productId.Some?
    ensures contractId.None? ==> o == Fail(IllegalArgument(ContractIdRequired))
    ensures contractId.Some? && productId.None? ==> o == Fail(IllegalArgument(ProductIdRequired))
  {
    if contractId.None? then Fail(IllegalArgument(ContractIdRequired))
    else if productId.None? then Fail(IllegalArgument(ProductIdRequired))
    else Pass
  }

  /** `requireContext` is `requireContractId` followed by `requireProductId`. */
  lemma RequireContextIsBothChecksInOrder(contractId: Option<Uuid>, productId: Option<Uuid>)
    ensures RequireContext(contractId, productId) ==
            if RequireContractId(contractId).Fail? then RequireContractId(contractId) else RequireProductId(productId)
  {
  }

  /**
   * `resolveExecutionContext(exchange, contractId, productId)`: invalid ids
   * throw before any resolver is called; otherwise the context is resolved
   * with exactly those ids and paired with its tenant's configuration.
   */
  function ResolveExecutionContext(exchange: Request, contractId: Option<Uuid>, productId: Option<Uuid>,
                                   contextResolver: ContextResolverFn, configResolver: ConfigResolverFn): (inv: Invocation)
    ensures contractId.None? ==> inv.outcome == Threw(IllegalArgument(ContractIdRequired)) && inv.calls == []
    ensures contractId.Some? && productId.None? ==> inv.outcome == Threw(IllegalArgument(ProductIdRequired)) && inv.calls == []
    ensures contractId.Some? && productId.Some? ==>
      inv.outcome.Returned? && |inv.calls| >= 1 && inv.calls[0] == ResolveContextCall(exchange, contractId, productId)
    ensures forall k :: 0 <= k < |inv.calls| && inv.calls[k].ResolveContextCall? ==>
              inv.calls[k] == ResolveContextCall(exchange, contractId, productId)
    ensures contractId.Some? && productId.Some? ==>
      |inv.calls| >= 1 &&
      var context := contextResolver(exchange, contractId, productId);
      && (context.Just? ==> inv.calls[1..] == [ResolveConfigCall(context.value.tenantId)])
      && (!context.Just? ==> |inv.calls| == 1)
      && (inv.outcome.result.Just? <==> context.Just? && configResolver(context.value.tenantId).Just?)
      && (inv.outcome.result.Just? ==>
            && inv.outcome.result.value.context == context.value
            && inv.outcome.result.value.config == configResolver(context.value.tenantId).value)
      && (context.Error? ==> inv.outcome.result == Error(context.error))
      && (context.Empty? ==> inv.outcome.result.Empty?)
      && (context.Just? && configResolver(context.value.tenantId).Error? ==>
            inv.outcome.result == Error(configResolver(context.value.tenantId).error))
      && (context.Just? && configResolver(context.value.tenantId).Empty? ==> inv.outcome.result.Empty?)
    ensures contractId.Some? && productId.Some? ==> inv == ResolveAndPair(exchange, contractId, productId, contextResolver, configResolver)
  {
    match RequireContext(contractId, productId)
    case Fail(e) => Invocation(Threw(e), [])
    case Pass => ResolveAndPair(exchange, contractId, productId, contextResolver, configResolver)
  }

  /** When validation fails, what the resolvers would answer makes no difference. */
  lemma ValidationPrecedesResolution(exchange: Request, contractId: Option<Uuid>, productId: Option<Uuid>,
                                     contextResolver1: ContextResolverFn, configResolver1: ConfigResolverFn,
                                     contextResolver2: ContextResolverFn, configResolver2: ConfigResolverFn)
    requires contractId.None? || productId.None?
    ensures ResolveExecutionContext(exchange, contractId, productId, contextResolver1, configResolver1)
         == ResolveExecutionContext(exchange, contractId, productId, contextResolver2, configResolver2)
  {
  }
}
