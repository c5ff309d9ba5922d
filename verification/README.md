# Application-layer context resolution, modelled in Dafny

This project models the request-context core of the Firefly common
application library. Six pieces are covered:

- **Session mapper.** It turns a party's session into roles and permissions at
  party, contract or product scope. It also answers "may this party access
  this product" and "may it do this action on this resource".
- **Tenant configuration cache.** It reads through to the platform on a miss.
  It also supports refresh, eviction and clearing.
- **Default context resolver.** It takes the party, tenant, contract and
  product ids from the JWT, the path and the headers, in a fixed order of
  precedence.
- **Contract- and product-scoped controllers.** They validate the path ids.
  Then they resolve the context and pair it with the tenant's configuration.
- **Passthrough auto-configuration.** It turns every `@DomainPassthrough`
  annotation into one gateway route with a derived id.

The files:

| file | module | what it holds |
|---|---|---|
| `wrappers.dfy` | `Wrappers` | `Option` (Java `null`), `Result`, `Outcome` (a check that passes or throws) |
| `reactive.dfy` | `Reactive` | `Mono` as a value: `Just`, `Empty` or `Error`. Also `switchIfEmpty` and `justOrEmpty`. |
| `app_types.dfy` | `AppTypes` | UUIDs, JWTs, the security context, requests, `AppContext`, `AppConfig`, `ApplicationExecutionContext` |
| `java_strings.dfy` | `JavaStrings` | `isBlank` (Java's whitespace set), ASCII `equalsIgnoreCase`, decimal printing and its parse-back |
| `session_context_mapper.dfy` | `SessionContextMapper` | the four mapper operations. The two extractors are loops proved against set-valued specification functions. |
| `session_scoping.dfy` | `SessionScoping` | properties that span calls: null sessions, scoping, membership order, how the queries relate to the extractors |
| `config_resolver.dfy` | `ConfigResolution` | the cache as a class with a `map` field. A ghost fetch log counts platform calls. |
| `default_context_resolver.dfy` | `DefaultContextResolver` | the precedence chains, restated as "first present candidate" |
| `scoped_resolution.dfy` | `ScopedResolution` | the resolve-then-pair composition both controllers share, with the resolver calls it makes |
| `contract_controller.dfy` | `ContractController` | contract-scoped validation and resolution |
| `product_controller.dfy` | `ProductController` | product-scoped validation and resolution |
| `domain_passthrough.dfy` | `DomainPassthroughConfig` | route ids, the bean map, and the registration loop |

Modelling choices:

- Java `null` is `None`.
- `Boolean.TRUE.equals(x)` is `x == Some(true)`.
- `UUID.fromString` is a `parse` argument. It returns `None` where the Java
  call would throw.
- The platform fetch is an argument of each cache call. It stands for what
  the platform answers at that moment.
- Each controller call returns its outcome together with the list of resolver
  calls it made. The outcome is either a thrown exception or the returned `Mono`.

Where the code and its documentation disagree, the model follows the code:

- The class comment of `DefaultContextResolver` lists `contractId` and
  `productId` among the JWT claims it reads. The code reads them only from
  the path variable and the header.
  `DefaultContextResolver.ScopeIdsIgnoreJwt` states this.
- The resolver's chains start with `.map(securityContext ->
  securityContext.getAuthentication())`. When a security context holds no
  authentication, Reactor's `map` turns that `null` into an error. So the
  resolver does not fall back to the header in that case. The model gives
  `Error` for `NullAuthentication`.

Behaviour the proofs make explicit:

- A failed `refreshConfig` leaves the tenant evicted.
- After a failed first fetch, a second `resolveConfig` fetches again. So "at
  most one fetch for two resolves" holds only when the first one succeeds
  (`ConfigResolution.ConsecutiveResolves`).
- `hasPermission` never reads the role's active flag. The extractors do
  (`SessionScoping.HasPermissionIgnoresRoleActiveFlag`).
- Within one bean, generated route ids are distinct. An explicit `routeId` is
  taken as it is, so it may collide with anything.

## Model

Source paths are relative to the repository root.

| member | source | states |
|---|---|---|
| SessionContextMapper.RolesInExactly | src/main/java/com/firefly/common/application/util/SessionContextMapper.java:81-107 | r is collected iff some membership in the list passes all three guards and contributes r. The guards: active, matching contract, matching product. Contributing r means the role is present and active, and its code r is non-null and not blank. |
| SessionContextMapper.ExtractRoles | src/main/java/com/firefly/common/application/util/SessionContextMapper.java:73-114 | The loop with its `continue`s returns exactly the role set of the session at the given scope. That is the set of role codes contributed by memberships in scope. It is empty for a null session or a null contract list. |
| SessionContextMapper.ScopePermissionsExactly | src/main/java/com/firefly/common/application/util/SessionContextMapper.java:164-180 | The scope loop yields x iff some scope is active, has non-null action and resource, and x is `roleCode-or-"unknown":action:resource` for that scope. |
| SessionContextMapper.PermissionsInExactly | src/main/java/com/firefly/common/application/util/SessionContextMapper.java:141-182 | x is a permission iff some in-scope membership, whose role is present, active and has scopes, has a granting scope that formats to x. |
| SessionContextMapper.ExtractPermissions | src/main/java/com/firefly/common/application/util/SessionContextMapper.java:133-188 | The nested loops return exactly the permission set of the session at the given scope. The result is characterised membership by membership and scope by scope. |
| SessionContextMapper.AnyOnProduct | src/main/java/com/firefly/common/application/util/SessionContextMapper.java:202-205 | The `filter`/`anyMatch` holds iff some membership is active and has a product with that id. |
| SessionContextMapper.HasAccessToProduct | src/main/java/com/firefly/common/application/util/SessionContextMapper.java:197-209 | True iff the product id is non-null and some active membership has a product with that id. The role is not checked. |
| SessionContextMapper.AnyScopeMatches | src/main/java/com/firefly/common/application/util/SessionContextMapper.java:235-237 | Holds iff some scope is active, its action equals the asked action ignoring case, and its resource matches the asked one ignoring case, or no resource was asked. |
| SessionContextMapper.AnyPermits | src/main/java/com/firefly/common/application/util/SessionContextMapper.java:227-237 | Holds iff some active membership on the product has a role with scopes, one of which matches. |
| SessionContextMapper.HasPermission | src/main/java/com/firefly/common/application/util/SessionContextMapper.java:220-243 | True iff product and action are non-null and some active membership on the product has a matching scope. A null product or a null action gives false. |
| SessionScoping.NullSessionGrantsNothing | src/main/java/com/firefly/common/application/util/SessionContextMapper.java:74-77 | A null session or a null contract list gives no roles, no permissions and false from both queries (lines 134-137, 198-200 and 222-225 have the same guard). |
| SessionScoping.OutOfScopeContributesNothing | src/main/java/com/firefly/common/application/util/SessionContextMapper.java:83-95 | A membership rejected by any of the three guards can be removed without changing roles or permissions. |
| SessionScoping.InactiveMembershipContributesNothing | src/main/java/com/firefly/common/application/util/SessionContextMapper.java:83-85 | A membership whose active flag is null or false contributes nothing, at any scope. |
| SessionScoping.OtherProductContributesNothing | src/main/java/com/firefly/common/application/util/SessionContextMapper.java:92-95 | With a product asked, a membership with no product or another product contributes nothing. |
| SessionScoping.ScopeMonotone | src/main/java/com/firefly/common/application/util/SessionContextMapper.java:88-95 | If every membership in one scope is also in another, the first scope yields a subset of roles and a subset of permissions. |
| SessionScoping.ScopingOnlyRemoves | src/main/java/com/firefly/common/application/util/SessionContextMapper.java:88-95 | Roles(s,c,p) ⊆ Roles(s,c,null) ⊆ Roles(s,null,null), and the same for permissions. |
| SessionScoping.MembershipOrderIrrelevant | src/main/java/com/firefly/common/application/util/SessionContextMapper.java:79-108 | Two membership lists with the same elements, in any order, give the same roles and permissions. |
| SessionScoping.ProductScopedGrantImpliesAccess | src/main/java/com/firefly/common/application/util/SessionContextMapper.java:197-209 | Access to a product holds iff some membership is in that product's scope. Any role or permission extracted at that product's scope implies access. |
| SessionScoping.ExtractedPermissionIsConfirmed | src/main/java/com/firefly/common/application/util/SessionContextMapper.java:227-237 | A scope that yields a permission at product scope is confirmed by `hasPermission` for its own action and resource. |
| SessionScoping.HasPermissionIgnoresCase | src/main/java/com/firefly/common/application/util/SessionContextMapper.java:235-237 | Actions and resources that differ only in ASCII case get the same answer. |
| SessionScoping.NullResourceMatchesAny | src/main/java/com/firefly/common/application/util/SessionContextMapper.java:222-237 | Asking without a resource is never narrower than asking with one. A null action is always refused. |
| SessionScoping.HasPermissionIgnoresRoleActiveFlag | src/main/java/com/firefly/common/application/util/SessionContextMapper.java:231-237 | For one session, `hasPermission` confirms a scope of an inactive role, while the permission extractor yields nothing for it. |
| SessionScoping.SingleOwnerMembership | src/main/java/com/firefly/common/application/util/SessionContextMapper.java:98-175 | One active "owner" membership on C1 with scope READ/BALANCE gives {"owner"} and {"owner:READ:BALANCE"} for C1, and nothing for another contract. |
| ConfigResolution.DefaultFetchConfig | src/main/java/com/firefly/common/application/resolver/AbstractConfigResolver.java:101-104 | The default fetch succeeds with a configuration that carries the asked tenant id and is active, and is otherwise empty. |
| ConfigResolution.DefaultFetchIsTenantFaithful | src/main/java/com/firefly/common/application/resolver/AbstractConfigResolver.java:101-104 | Every configuration the default fetch answers belongs to the tenant it was asked about. |
| ConfigResolution.ConfigResolver.constructor | src/main/java/com/firefly/common/application/resolver/AbstractConfigResolver.java:40 | The cache starts empty. |
| ConfigResolution.ConfigResolver.IsCached | src/main/java/com/firefly/common/application/resolver/AbstractConfigResolver.java:72-74 | True iff the cache holds an entry for the tenant. In a valid resolver, a cached tenant is always one the platform was asked about. |
| ConfigResolution.ConfigResolver.ResolveConfig | src/main/java/com/firefly/common/application/resolver/AbstractConfigResolver.java:43-60 | A hit returns the cached value with no fetch and no change. A miss fetches once. On success it stores the value under exactly that id and returns it. On failure it passes the error on and leaves the cache unchanged. Other tenants are untouched. |
| ConfigResolution.ConfigResolver.RefreshConfig | src/main/java/com/firefly/common/application/resolver/AbstractConfigResolver.java:63-69 | Always exactly one fetch, whatever was cached. On success the tenant maps to the fresh value. On failure the tenant is evicted. Other tenants are untouched. |
| ConfigResolution.ConfigResolver.ClearCache | src/main/java/com/firefly/common/application/resolver/AbstractConfigResolver.java:111-114 | The cache is empty, so no tenant is cached. |
| ConfigResolution.ConfigResolver.ClearCacheForTenant | src/main/java/com/firefly/common/application/resolver/AbstractConfigResolver.java:121-124 | Exactly that tenant is removed. Every other entry is unchanged. |
| ConfigResolution.ConsecutiveResolves | src/main/java/com/firefly/common/application/resolver/AbstractConfigResolver.java:43-60 | Two resolves in a row: if the first succeeds, the second returns the same value and there is at most one fetch in all. If the first fails, the second fetches again. |
| DefaultContextResolver.ResolvePartyId | src/main/java/com/firefly/common/application/resolver/DefaultContextResolver.java:77-111 | With a JWT: a subject that parses, else a `partyId` claim that parses, else the `X-Party-Id` header. With no JWT: the header. A null authentication gives an error. |
| DefaultContextResolver.ResolveTenantId | src/main/java/com/firefly/common/application/resolver/DefaultContextResolver.java:114-136 | With a JWT: a `tenantId` claim that parses, else the `X-Tenant-Id` header. With no JWT: the header. A null authentication gives an error. |
| DefaultContextResolver.ResolveContractId | src/main/java/com/firefly/common/application/resolver/DefaultContextResolver.java:139-146 | The `contractId` path variable if there is one, else the `X-Contract-Id` header. |
| DefaultContextResolver.ResolveProductId | src/main/java/com/firefly/common/application/resolver/DefaultContextResolver.java:149-156 | The `productId` path variable if there is one, else the `X-Product-Id` header. |
| DefaultContextResolver.ScopeIdsIgnoreJwt | src/main/java/com/firefly/common/application/resolver/DefaultContextResolver.java:142-154 | Changing the security context never changes the contract or product id. |
| DefaultContextResolver.ResolveRoles | src/main/java/com/firefly/common/application/resolver/DefaultContextResolver.java:159-181 | The empty role set, for every context. |
| DefaultContextResolver.ResolvePermissions | src/main/java/com/firefly/common/application/resolver/DefaultContextResolver.java:184-203 | The empty permission set, for every context. |
| DefaultContextResolver.Supports | src/main/java/com/firefly/common/application/resolver/DefaultContextResolver.java:206-209 | Every request is supported. |
| DefaultContextResolver.GetPriority | src/main/java/com/firefly/common/application/resolver/DefaultContextResolver.java:212-215 | The priority is 0. |
| DefaultContextResolver.PartyIdIsFirstPresent | src/main/java/com/firefly/common/application/resolver/DefaultContextResolver.java:84-108 | The party id is the first present of (parsed subject, parsed `partyId` claim, header). Without a JWT it is the header. |
| DefaultContextResolver.TenantIdIsFirstPresent | src/main/java/com/firefly/common/application/resolver/DefaultContextResolver.java:121-133 | The tenant id is the first present of (parsed `tenantId` claim, header). Without a JWT it is the header. |
| ScopedResolution.ResolveAndPair | src/main/java/com/firefly/common/application/controller/AbstractContractController.java:128-138 | The context resolver is called first, with exactly the given ids. The config resolver is called once, with the resolved context's tenant id, and only if a context was resolved. The result is a pair iff both resolved, and then it pairs exactly those two. An error or an empty completion of either resolver is passed on as the result. |
| ContractController.RequireContractId | src/main/java/com/firefly/common/application/controller/AbstractContractController.java:152-160 | It throws `IllegalArgumentException("contractId is required but was null. …")` iff the id is null. |
| ContractController.ResolveExecutionContext | src/main/java/com/firefly/common/application/controller/AbstractContractController.java:121-141 | A null contract id throws before any resolver is called. Otherwise the invocation is exactly the shared resolve-then-pair with (contractId, null), so the product id is always null. The result pairs the context with its tenant's configuration. An error or an empty completion of either resolver becomes the result. |
| ProductController.RequireContractId | src/main/java/com/firefly/common/application/controller/AbstractProductController.java:196-204 | It throws the contract message iff the contract id is null. |
| ProductController.RequireProductId | src/main/java/com/firefly/common/application/controller/AbstractProductController.java:214-222 | It throws `IllegalArgumentException("productId is required but was null. …")` iff the product id is null. |
| ProductController.RequireContext | src/main/java/com/firefly/common/application/controller/AbstractProductController.java:171-185 | It passes iff both ids are non-null. The contract id is checked first, so with both null the contract message is thrown. |
| ProductController.RequireContextIsBothChecksInOrder | src/main/java/com/firefly/common/application/controller/AbstractProductController.java:171-222 | `requireContext` is `requireContractId` followed by `requireProductId`. |
| ProductController.ResolveExecutionContext | src/main/java/com/firefly/common/application/controller/AbstractProductController.java:123-145 | An invalid id throws before any resolver is called. Otherwise the invocation is exactly the shared resolve-then-pair with (contractId, productId). The result pairs the context with its tenant's configuration. An error or an empty completion of either resolver becomes the result. |
| ProductController.ValidationPrecedesResolution | src/main/java/com/firefly/common/application/controller/AbstractProductController.java:126-131 | When validation fails, the outcome is the same whatever the resolvers would answer. |
| DomainPassthroughConfig.RouteId | src/main/java/com/firefly/common/application/config/DomainPassthroughAutoConfiguration.java:60-62 | A non-empty `routeId` is used verbatim. Otherwise the id starts with `beanName-passthrough`. |
| DomainPassthroughConfig.SingleAnnotationRouteId | src/main/java/com/firefly/common/application/config/DomainPassthroughAutoConfiguration.java:61 | With one annotation and no explicit id, the id is exactly `beanName-passthrough`. |
| DomainPassthroughConfig.GeneratedNumberOfRouteId | src/main/java/com/firefly/common/application/config/DomainPassthroughAutoConfiguration.java:61 | With n > 1 annotations, the i-th id (0-based) is `beanName-passthrough-(i+1)`, and reading the number back gives i+1. |
| DomainPassthroughConfig.GeneratedRouteIdsDistinct | src/main/java/com/firefly/common/application/config/DomainPassthroughAutoConfiguration.java:58-61 | Generated ids at two different annotation indices of one bean differ. |
| DomainPassthroughConfig.IndexOf | src/main/java/com/firefly/common/application/config/DomainPassthroughAutoConfiguration.java:49-51 | The map lookup gives the position of the first entry with that name, and None iff the name is absent. |
| DomainPassthroughConfig.Put | src/main/java/com/firefly/common/application/config/DomainPassthroughAutoConfiguration.java:49-51 | Putting a new name appends the entry at the end. Putting an existing name (names distinct) replaces that entry in place: same length, and every other entry at its own position unchanged. The names stay distinct. |
| DomainPassthroughConfig.PutAll | src/main/java/com/firefly/common/application/config/DomainPassthroughAutoConfiguration.java:50-51 | After `putAll`, the names are the old ones plus the added ones, still distinct. |
| DomainPassthroughConfig.PutAllKeepsPositions | src/main/java/com/firefly/common/application/config/DomainPassthroughAutoConfiguration.java:50-51 | `putAll` never moves a name already in the map. It leaves the entry of every name it does not put unchanged. |
| DomainPassthroughConfig.PutAllLastEntryWins | src/main/java/com/firefly/common/application/config/DomainPassthroughAutoConfiguration.java:50-51 | Each name put ends with the last entry given for it. |
| DomainPassthroughConfig.PutAllKeepsEntry | src/main/java/com/firefly/common/application/config/DomainPassthroughAutoConfiguration.java:50-51 | An entry whose name `putAll` never puts survives it. |
| DomainPassthroughConfig.EachBeanCollectedOnce | src/main/java/com/firefly/common/application/config/DomainPassthroughAutoConfiguration.java:49-51 | The bean map holds exactly the names from both queries, each once, so a bean found by both queries is processed once. Each name is processed with the last entry returned for it: the container query's entry wins over the single query's. |
| DomainPassthroughConfig.BeanRoutes | src/main/java/com/firefly/common/application/config/DomainPassthroughAutoConfiguration.java:58-66 | One route per annotation, in annotation order, with the annotation's path and target. |
| DomainPassthroughConfig.BeanDetected | src/main/java/com/firefly/common/application/config/DomainPassthroughAutoConfiguration.java:68-69 | One summary line per annotation. |
| DomainPassthroughConfig.RouteCountIsAnnotationCount | src/main/java/com/firefly/common/application/config/DomainPassthroughAutoConfiguration.java:55-71 | The number of routes and of summary lines both equal the sum of the beans' annotation counts. |
| DomainPassthroughConfig.RoutesInAnnotationOrder | src/main/java/com/firefly/common/application/config/DomainPassthroughAutoConfiguration.java:55-71 | Annotation i of bean b gives the route at position (annotations of the earlier beans) + i, and the summary line beside it names that route and bean. |
| DomainPassthroughConfig.RegisterBean | src/main/java/com/firefly/common/application/config/DomainPassthroughAutoConfiguration.java:55-71 | The `forEach` body for one bean appends exactly that bean's routes and summary lines, one per annotation, in annotation order. |
| DomainPassthroughConfig.DomainPassthroughRoutes | src/main/java/com/firefly/common/application/config/DomainPassthroughAutoConfiguration.java:45-71 | The loops collect the beans, then register routes and summary lines bean by bean. They are exactly the specification lists, one per annotation. |

## Left out

- Reactor scheduling and the logging callbacks (`doOnError`, `doOnNext`, and `doOnSuccess` in the controllers): a `Mono` is modelled as the value it completes with.
- `ConfigResolution.ConfigResolver.ResolveConfig` writes the cache when the call is made. Java writes it in `doOnSuccess`, when the returned `Mono` is subscribed and completes. An unsubscribed or repeatedly subscribed `Mono` is not modelled.
- A `null` element in `getActiveContracts()` or in a role's `getScopes()` makes the Java loops and streams throw `NullPointerException`. The model's lists hold no nulls, so that exception is not modelled.
- A `null` tenant id passed to `resolveConfig`, `refreshConfig`, `isCached` or `clearCacheForTenant` makes `ConcurrentHashMap` throw `NullPointerException`. The model's tenant id is always a UUID, so that exception is not modelled.
- The `logOperation` helpers of both controllers: they only log.
- `ReactiveSecurityContextHolder` is the `security` field of the request. `UUID.fromString` is the `parse` argument.
- The unseen `extractUUID` and `extractUUIDFromPath` helpers are lookups in the request's header and path maps, keyed by header or variable name. What else they do is not part of this model.
- `Jwt.getClaimAsString` is a lookup in a map of string claims. Claims of other types are not modelled.
- `ConcurrentHashMap` thread safety, and concurrent interleavings of resolve and evict: the cache is modelled sequentially.
- A platform fetch that completes empty, where `doOnSuccess(null)` would put `null`: the fetch is modelled as success or failure only.
- `fetchConfigFromPlatform` overrides: any override is a `fetch` argument. The default one is `ConfigResolution.DefaultFetchConfig`.
- `AppConfig` fields other than tenant id, name, feature flags, settings and active (providers, environment): the default fetch leaves them unset, and nothing here reads them.
- `equalsIgnoreCase` folds only ASCII letters, not the full Unicode case mapping.
- `isBlank` uses Java's whitespace characters of the Basic Multilingual Plane.
- The gateway `RouteLocatorBuilder`, `AopUtils.getTargetClass` and annotation scanning: each bean is given as its name plus the annotations of its target class.
- The route-summary log message: only the per-route summary lines are modelled.
- DomainPassthroughConfig.PutAll: the order in which names new to the map are appended is stated one `put` at a time (by `Put`), not as one closed statement about the whole `putAll`.
- Spring injection of the resolvers into the controllers: the resolvers are arguments of the controller methods.
- The security authorization services, and the party-scoped and application controllers: they are not part of this model.
