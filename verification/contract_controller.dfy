/** The contract-scoped base controller: validate the contract id, then resolve at contract scope. */
module ContractController {
  import opened Wrappers
  import opened AppTypes
  import opened Reactive
  import opened JavaStrings
  import opened ScopedResolution

  const ContractIdMissing := "contractId is required"
  const ContractIdRequired := ContractIdMissing + " but was null. Check your @PathVariable mapping."

  /** `requireContractId(contractId)`: throws `IllegalArgumentException` exactly when the id is null. */
  function RequireContractId(contractId: Option<Uuid>): (o: Outcome<Throwable>)
    ensures o.Pass? <==> contractId.Some?
    ensures o.Fail? ==> o.error == IllegalArgument(ContractIdRequired)
    ensures o.Fail? ==> StartsWith(o.error.message, ContractIdMissing)
  {
    if contractId.None? then Fail(IllegalArgument(ContractIdRequired)) else Pass
  }

  /**
   * `resolveExecutionContext(exchange, contractId)`: a null contract id throws
   * before any resolver is called; otherwise the context is resolved at
   * contract scope (product always null) and paired with its tenant's configuration.
   */
  function ResolveExecutionContext(exchange: Request, contractId: Option<Uuid>,
                                   contextResolver: ContextResolverFn, configResolver: ConfigResolverFn): (inv: Invocation)
    ensures contractId.None? ==> inv.outcome == Threw(IllegalArgument(ContractIdRequired)) && inv.calls == []
    ensures contractId.Some? ==> inv.outcome.Returned? && |inv.calls| >= 1 && inv.calls[0] == ResolveContextCall(exchange, contractId, None)
    ensures forall k :: 0 <= k < |inv.calls| && inv.calls[k].ResolveContextCall? ==>
              inv.calls[k] == ResolveContextCall(exchange, contractId, None)
    ensures contractId.Some? ==>
      |inv.calls| >= 1 &&
      var context := contextResolver(exchange, contractId, None);
      && (context.Just? ==> inv.calls[1..] == [ResolveConfigCall(context.value.tenantId)])
      && (!context.Just? ==> |inv.calls| == 1)
      && (inv.outcome.result.Just? <==> context.Just? && configResolver(context.value.tenantId).Just?)
      && (inv.outcome.result.Just? ==>
            && inv.outcome.result.value.context == context.value
            && inv.outcome.result.value.config == configResolver(context.value.tenantId).value)
      && (context.Error? ==> inv.outcome.result == Error(context.error))
      && (context.Empty? ==> inv.outcome.result.Empty?)
      && (context.Just? && configResolver(context.value.tenantId).Error? ==>
            inv.outcome.result == Error(configResolver(context.value.tenantId).error))
      && (context.Just? && configResolver(context.value.tenantId).Empty? ==> inv.outcome.result.Empty?)
    ensures contractId.Some? ==> inv == ResolveAndPair(exchange, contractId, None, contextResolver, configResolver)
  {
    match RequireContractId(contractId)
    case Fail(e) => Invocation(Threw(e), [])
    case Pass => ResolveAndPair(exchange, contractId, None, contextResolver, configResolver)
  }
}
