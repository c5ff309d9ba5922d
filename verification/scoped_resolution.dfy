/**
 * The composition both scoped controllers perform once their arguments are
 * valid: resolve the context with exactly the given scope ids, resolve the
 * configuration of the resolved context's tenant, and pair the two.
 *
 * The two resolvers are arguments (any implementation). Each evaluation also
 * reports the resolver calls it made, in order, so that "called with exactly"
 * and "never called" can be stated.
 */
module ScopedResolution {
  import opened Wrappers
  import opened AppTypes
  import opened Reactive

  /** `contextResolver.resolveContext(exchange, contractId, productId)`. */
  type ContextResolverFn = (Request, Option<Uuid>, Option<Uuid>) -> Mono<AppContext>

  /** `configResolver.resolveConfig(tenantId)`. */
  type ConfigResolverFn = Uuid -> Mono<AppConfig>

  datatype Call =
    | ResolveContextCall(exchange: Request, contractId: Option<Uuid>, productId: Option<Uuid>)
    | ResolveConfigCall(tenantId: Uuid)

  /** A controller method either throws before building its `Mono`, or returns one. */
  datatype ControllerOutcome =
    | Threw(exception: Throwable)
    | Returned(result: Mono<ApplicationExecutionContext>)

  datatype Invocation = Invocation(outcome: ControllerOutcome, calls: seq<Call>)

  /**
   * `contextResolver.resolveContext(exchange, contractId, productId).flatMap(appContext ->
   * configResolver.resolveConfig(appContext.getTenantId()).map(...pair...))`.
   */
  function ResolveAndPair(exchange: Request, contractId: Option<Uuid>, productId: Option<Uuid>,
                          contextResolver: ContextResolverFn, configResolver: ConfigResolverFn): (inv: Invocation)
    ensures inv.outcome.Returned?
    ensures |inv.calls| >= 1 && inv.calls[0] == ResolveContextCall(exchange, contractId, productId)
    ensures var context := contextResolver(exchange, contractId, productId);
      && (context.Just? ==> inv.calls == [inv.calls[0], ResolveConfigCall(context.value.tenantId)])
      && (!context.Just? ==> |inv.calls| == 1)
      && (context.Empty? ==> inv.outcome.result.Empty?)
      && (context.Error? ==> inv.outcome.result == Error(context.error))
    ensures var context := contextResolver(exchange, contractId, productId);
      && (inv.outcome.result.Just? <==> context.Just? && configResolver(context.value.tenantId).Just?)
      && (inv.outcome.result.Just? ==>
            inv.outcome.result.value == ApplicationExecutionContext(context.value, configResolver(context.value.tenantId).value))
      && (context.Just? && configResolver(context.value.tenantId).Error? ==>
            inv.outcome.result == Error(configResolver(context.value.tenantId).error))
      && (context.Just? && configResolver(context.value.tenantId).Empty? ==> inv.outcome.result.Empty?)
  {
    var first := ResolveContextCall(exchange, contractId, productId);
    match contextResolver(exchange, contractId, productId)
    case Just(appContext) =>
      var paired := match configResolver(appContext.tenantId)
        case Just(appConfig) => Just(ApplicationExecutionContext(appContext, appConfig))
        case Empty => Empty
        case Error(e) => Error(e);
      Invocation(Returned(paired), [first, ResolveConfigCall(appContext.tenantId)])
    case Empty => Invocation(Returned(Empty), [first])
    case Error(e) => Invocation(Returned(Error(e)), [first])
  }
}
