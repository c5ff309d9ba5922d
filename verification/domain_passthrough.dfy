/**
 * Passthrough route registration: every `@DomainPassthrough` annotation on a
 * bean's target class becomes one gateway route, whose id is the
 * annotation's own `routeId` or one derived from the bean name.
 *
 * The two bean queries (`getBeansWithAnnotation` for the single and for the
 * container annotation) are the method's arguments, each an ordered list of
 * (bean name, annotations of its target class). The gateway builder is
 * modelled by the list of routes handed to it.
 */
module DomainPassthroughConfig {
  import opened Wrappers
  import opened JavaStrings

  /** One `@DomainPassthrough(path, target, routeId)` annotation. */
  datatype DomainPassthrough = DomainPassthrough(routeId: string, path: string, target: string)

  /** A bean as the registration sees it: its name and `getAnnotationsByType(DomainPassthrough.class)`. */
  datatype BeanEntry = BeanEntry(name: string, annotations: seq<DomainPassthrough>)

  /** `routes.route(id, r -> r.path(path).uri(target))`. */
  datatype Route = Route(id: string, path: string, uri: string)

  const PassthroughSuffix := "-passthrough"

  // ---------------------------------------------------------------------------
  // Route ids
  // ---------------------------------------------------------------------------

  /**
   * The id of the `i`-th annotation of bean `name`: a non-empty `routeId` is
   * used as it is; otherwise `name-passthrough`, numbered from 1 when the
   * bean carries more than one annotation.
   */
  function RouteId(name: string, annotations: seq<DomainPassthrough>, i: nat): (id: string)
    requires i < |annotations|
    ensures annotations[i].routeId != "" ==> id == annotations[i].routeId
    ensures annotations[i].routeId == "" ==> StartsWith(id, name + PassthroughSuffix)
  {
    var ann := annotations[i];
    if ann.routeId == "" then
      name + PassthroughSuffix + (if |annotations| > 1 then "-" + IntToString(i + 1) else "")
    else ann.routeId
  }

  /**
   * The annotation number a generated id carries, read back: the decimal
   * after `name-passthrough-`; None when the id does not start with that.
   */
  function GeneratedNumber(name: string, id: string): Option<nat> {
    var prefix := name + PassthroughSuffix + "-";
    if StartsWith(id, prefix) then Some(ParseDecimal(id[|prefix|..])) else None
  }

  /** A generated id on the only annotation of a bean is exactly `name-passthrough`. */
  lemma SingleAnnotationRouteId(name: string, annotations: seq<DomainPassthrough>)
    requires |annotations| == 1 && annotations[0].routeId == ""
    ensures RouteId(name, annotations, 0) == name + PassthroughSuffix
  {
  }

  /** On a bean with several annotations, a generated id carries the 1-based annotation number. */
  lemma GeneratedNumberOfRouteId(name: string, annotations: seq<DomainPassthrough>, i: nat)
    requires i < |annotations| && |annotations| > 1 && annotations[i].routeId == ""
    ensures RouteId(name, annotations, i) == name + PassthroughSuffix + "-" + IntToString(i + 1)
    ensures GeneratedNumber(name, RouteId(name, annotations, i)) == Some(i + 1)
  {
    var prefix := name + PassthroughSuffix + "-";
    var id := RouteId(name, annotations, i);
    assert id == prefix + IntToString(i + 1);
    assert id[..|prefix|] == prefix;
    assert id[|prefix|..] == IntToString(i + 1);
    ParseDecimalOfIntToString(i + 1);
  }

  /** Generated ids of two different annotations of one bean differ. */
  lemma GeneratedRouteIdsDistinct(name: string, annotations: seq<DomainPassthrough>, i: nat, j: nat)
    requires i < |annotations| && j < |annotations| && i != j
    requires annotations[i].routeId == "" && annotations[j].routeId == ""
    ensures RouteId(name, annotations, i) != RouteId(name, annotations, j)
  {
    GeneratedNumberOfRouteId(name, annotations, i);
    GeneratedNumberOfRouteId(name, annotations, j);
  }

  // ---------------------------------------------------------------------------
  // The `beans` LinkedHashMap
  // ---------------------------------------------------------------------------

  /** The names of the entries. */
  function Names(m: seq<BeanEntry>): set<string>
    decreases |m|
  {
    if m == [] then {} else {m[0].name} + Names(m[1..])
  }

  /** A name is in `Names(m)` iff some entry carries it. */
  lemma {:induction false} NamesExactly(m: seq<BeanEntry>)
    ensures forall k :: 0 <= k < |m| ==> m[k].name in Names(m)
    ensures forall n :: n in Names(m) ==> exists k :: 0 <= k < |m| && m[k].name == n
    decreases |m|
  {
    if m != [] {
      NamesExactly(m[1..]);
      assert forall k :: 1 <= k < |m| ==> m[k] == m[1..][k - 1];
    }
  }

  /** No name occurs twice. */
  predicate DistinctNames(m: seq<BeanEntry>) {
    forall i, j :: 0 <= i < j < |m| ==> m[i].name != m[j].name
  }

  /** The position of the first entry named `name`, if any. */
  function IndexOf(m: seq<BeanEntry>, name: string): (r: Option<nat>)
    ensures r.Some? ==> r.value < |m| && m[r.value].name == name
                        && forall k :: 0 <= k < r.value ==> m[k].name != name
    ensures r.None? <==> name !in Names(m)
    decreases |m|
  {
    if m == [] then None
    else if m[0].name == name then Some(0)
    else
      assert forall k :: 1 <= k < |m| ==> m[k] == m[1..][k - 1];
      match IndexOf(m[1..], name)
      case None => None
      case Some(k) => Some(k + 1)
  }

  /**
   * `put(name, bean)` on an insertion-ordered map: an existing name keeps its
   * position and takes the new value, every other entry stays where it was;
   * a new name goes last.
   */
  function Put(m: seq<BeanEntry>, e: BeanEntry): (r: seq<BeanEntry>)
    ensures e.name !in Names(m) ==> r == m + [e]
    ensures DistinctNames(m) && e.name in Names(m) ==>
              |r| == |m| && forall k :: 0 <= k < |m| ==> r[k] == (if m[k].name == e.name then e else m[k])
    ensures Names(r) == Names(m) + {e.name}
    ensures DistinctNames(m) ==> DistinctNames(r)
    ensures e in r
  {
    match IndexOf(m, e.name)
    case None =>
      NamesOfAppend(m, e);
      m + [e]
    case Some(k) =>
      ReplaceAtName(m, e, k);
      m[k := e]
  }

  /** Appending an entry with a new name adds that name and keeps the names distinct. */
  lemma NamesOfAppend(m: seq<BeanEntry>, e: BeanEntry)
    ensures Names(m + [e]) == Names(m) + {e.name}
    ensures DistinctNames(m) && e.name !in Names(m) ==> DistinctNames(m + [e])
    ensures e in m + [e]
  {
    var r := m + [e];
    assert forall k :: 0 <= k < |m| ==> r[k] == m[k];
    assert r[|m|] == e;
    NamesExactly(m);
    NamesExactly(r);
  }

  /** Replacing the first entry named `e.name` keeps the names, and with distinct names touches nothing else. */
  lemma ReplaceAtName(m: seq<BeanEntry>, e: BeanEntry, k: nat)
    requires k < |m| && m[k].name == e.name
    ensures Names(m[k := e]) == Names(m)
    ensures e in m[k := e]
    ensures DistinctNames(m) ==> DistinctNames(m[k := e])
    ensures DistinctNames(m) ==> forall j :: 0 <= j < |m| ==> m[k := e][j] == (if m[j].name == e.name then e else m[j])
  {
    assert m[k := e][k] == e;
    NamesOfSameNames(m, m[k := e]);
  }

  /** Entries with the same names, position by position, have the same name set. */
  lemma NamesOfSameNames(m: seq<BeanEntry>, r: seq<BeanEntry>)
    requires |r| == |m| && forall k :: 0 <= k < |m| ==> r[k].name == m[k].name
    ensures Names(r) == Names(m)
  {
  }

  /** `putAll(entries)`: every entry put, in order. */
  function PutAll(m: seq<BeanEntry>, entries: seq<BeanEntry>): (r: seq<BeanEntry>)
    ensures Names(r) == Names(m) + Names(entries)
    ensures DistinctNames(m) ==> DistinctNames(r)
    decreases |entries|
  {
    if entries == [] then m
    else
      assert Names(entries) == {entries[0].name} + Names(entries[1..]) by {
        assert forall k :: 1 <= k < |entries| ==> entries[k] == entries[1..][k - 1];
      }
      PutAll(Put(m, entries[0]), entries[1..])
  }

  /**
   * `putAll` never moves a name already in the map, and leaves the entry of a
   * name it does not put untouched.
   */
  lemma {:induction false} PutAllKeepsPositions(m: seq<BeanEntry>, entries: seq<BeanEntry>)
    requires DistinctNames(m)
    ensures |m| <= |PutAll(m, entries)|
    ensures forall k :: 0 <= k < |m| ==> PutAll(m, entries)[k].name == m[k].name
    ensures forall k :: 0 <= k < |m| && m[k].name !in Names(entries) ==> PutAll(m, entries)[k] == m[k]
    decreases |entries|
  {
    if entries != [] {
      var next := Put(m, entries[0]);
      assert Names(entries) == {entries[0].name} + Names(entries[1..]) by {
        assert forall k :: 1 <= k < |entries| ==> entries[k] == entries[1..][k - 1];
      }
      assert |m| <= |next|;
      assert forall k :: 0 <= k < |m| ==> next[k].name == m[k].name
                                          && (m[k].name != entries[0].name ==> next[k] == m[k]) by {
        if entries[0].name !in Names(m) {
          assert forall k :: 0 <= k < |m| ==> next[k] == m[k];
        }
      }
      PutAllKeepsPositions(next, entries[1..]);
    }
  }

  /** After `putAll`, each name put ends with its last entry. */
  lemma {:induction false} PutAllLastEntryWins(m: seq<BeanEntry>, entries: seq<BeanEntry>, k: nat)
    requires DistinctNames(m)
    requires k < |entries| && entries[k].name !in Names(entries[k + 1..])
    ensures entries[k] in PutAll(m, entries)
    decreases |entries|
  {
    var next, rest := Put(m, entries[0]), entries[1..];
    assert PutAll(m, entries) == PutAll(next, rest);
    if k == 0 {
      assert entries[k + 1..] == rest;
      PutAllKeepsEntry(next, rest, entries[0]);
    } else {
      assert entries[k] == rest[k - 1];
      assert entries[k + 1..] == rest[k..];
      PutAllLastEntryWins(next, rest, k - 1);
    }
  }

  /** An entry whose name `putAll` never puts survives it. */
  lemma {:induction false} PutAllKeepsEntry(m: seq<BeanEntry>, entries: seq<BeanEntry>, x: BeanEntry)
    requires DistinctNames(m) && x in m && x.name !in Names(entries)
    ensures x in PutAll(m, entries)
    decreases |entries|
  {
    if entries != [] {
      assert Names(entries) == {entries[0].name} + Names(entries[1..]) by {
        assert forall k :: 1 <= k < |entries| ==> entries[k] == entries[1..][k - 1];
      }
      var next := Put(m, entries[0]);
      assert x in next by {
        var i :| 0 <= i < |m| && m[i] == x;
        if entries[0].name in Names(m) {
          assert next[i] == x;
        }
      }
      PutAllKeepsEntry(next, entries[1..], x);
    }
  }

  /** The `beans` map: the single-annotation query, then the container query, keyed by bean name. */
  function CollectBeans(annotated: seq<BeanEntry>, containerAnnotated: seq<BeanEntry>): seq<BeanEntry> {
    PutAll(PutAll([], annotated), containerAnnotated)
  }

  /**
   * Every bean either query returns is processed, a bean both queries return
   * is processed once, and each name is processed with the last entry
   * returned for it.
   */
  lemma EachBeanCollectedOnce(annotated: seq<BeanEntry>, containerAnnotated: seq<BeanEntry>)
    ensures Names(CollectBeans(annotated, containerAnnotated)) == Names(annotated) + Names(containerAnnotated)
    ensures DistinctNames(CollectBeans(annotated, containerAnnotated))
    ensures forall k :: 0 <= k < |containerAnnotated| && containerAnnotated[k].name !in Names(containerAnnotated[k + 1..]) ==>
              containerAnnotated[k] in CollectBeans(annotated, containerAnnotated)
    ensures forall k :: 0 <= k < |annotated| && annotated[k].name !in Names(annotated[k + 1..])
                        && annotated[k].name !in Names(containerAnnotated) ==>
              annotated[k] in CollectBeans(annotated, containerAnnotated)
  {
    var first := PutAll([], annotated);
    forall k | 0 <= k < |containerAnnotated| && containerAnnotated[k].name !in Names(containerAnnotated[k + 1..])
      ensures containerAnnotated[k] in CollectBeans(annotated, containerAnnotated)
    {
      PutAllLastEntryWins(first, containerAnnotated, k);
    }
    forall k | 0 <= k < |annotated| && annotated[k].name !in Names(annotated[k + 1..])
               && annotated[k].name !in Names(containerAnnotated)
      ensures annotated[k] in CollectBeans(annotated, containerAnnotated)
    {
      PutAllLastEntryWins([], annotated, k);
      PutAllKeepsEntry(first, containerAnnotated, annotated[k]);
    }
  }

  // ---------------------------------------------------------------------------
  // Routes and their summary lines
  // ---------------------------------------------------------------------------

  /** The routes of one bean, one per annotation, in annotation order. */
  function BeanRoutes(e: BeanEntry): (routes: seq<Route>)
    ensures |routes| == |e.annotations|
    ensures forall i :: 0 <= i < |routes| ==>
              routes[i] == Route(RouteId(e.name, e.annotations, i), e.annotations[i].path, e.annotations[i].target)
  {
    seq(|e.annotations|, i requires 0 <= i < |e.annotations| =>
      Route(RouteId(e.name, e.annotations, i), e.annotations[i].path, e.annotations[i].target))
  }

  /** `String.format("id=%s, bean=%s, path=%s, target=%s", ...)`. */
  function DetectedLine(route: Route, beanName: string): string {
    "id=" + route.id + ", bean=" + beanName + ", path=" + route.path + ", target=" + route.uri
  }

  function BeanDetected(e: BeanEntry): (lines: seq<string>)
    ensures |lines| == |e.annotations|
  {
    seq(|e.annotations|, i requires 0 <= i < |e.annotations| => DetectedLine(BeanRoutes(e)[i], e.name))
  }

  /** The routes of all beans, bean by bean in map order. */
  function AllRoutes(beans: seq<BeanEntry>): seq<Route>
    decreases |beans|
  {
    if beans == [] then [] else AllRoutes(beans[..|beans| - 1]) + BeanRoutes(beans[|beans| - 1])
  }

  function AllDetected(beans: seq<BeanEntry>): seq<string>
    decreases |beans|
  {
    if beans == [] then [] else AllDetected(beans[..|beans| - 1]) + BeanDetected(beans[|beans| - 1])
  }

  /** The number of annotations over all beans. */
  function TotalAnnotations(beans: seq<BeanEntry>): nat
    decreases |beans|
  {
    if beans == [] then 0 else TotalAnnotations(beans[..|beans| - 1]) + |beans[|beans| - 1].annotations|
  }

  /** One route and one summary line per annotation. */
  lemma {:induction false} RouteCountIsAnnotationCount(beans: seq<BeanEntry>)
    ensures |AllRoutes(beans)| == TotalAnnotations(beans)
    ensures |AllDetected(beans)| == TotalAnnotations(beans)
    decreases |beans|
  {
    if beans != [] {
      RouteCountIsAnnotationCount(beans[..|beans| - 1]);
    }
  }

  /**
   * The `i`-th annotation of the `b`-th bean gives the route at position
   * (annotations of the earlier beans) + `i`, and the summary line beside it.
   */
  lemma {:induction false} RoutesInAnnotationOrder(beans: seq<BeanEntry>, b: nat, i: nat)
    requires b < |beans| && i < |beans[b].annotations|
    ensures TotalAnnotations(beans[..b]) + i < |AllRoutes(beans)| == |AllDetected(beans)|
    ensures var e := beans[b];
      && AllRoutes(beans)[TotalAnnotations(beans[..b]) + i]
         == Route(RouteId(e.name, e.annotations, i), e.annotations[i].path, e.annotations[i].target)
      && AllDetected(beans)[TotalAnnotations(beans[..b]) + i]
         == DetectedLine(AllRoutes(beans)[TotalAnnotations(beans[..b]) + i], e.name)
    decreases |beans|
  {
    var last := |beans| - 1;
    var init := beans[..last];
    RouteCountIsAnnotationCount(init);
    RouteCountIsAnnotationCount(beans);
    if b == last {
      assert beans[..b] == init;
    } else {
      assert init[..b] == beans[..b];
      assert init[b] == beans[b];
      RoutesInAnnotationOrder(init, b, i);
      TotalAnnotationsOfPrefixBounded(init, b);
    }
  }

  lemma {:induction false} TotalAnnotationsOfPrefixBounded(beans: seq<BeanEntry>, b: nat)
    requires b < |beans|
    ensures TotalAnnotations(beans[..b]) + |beans[b].annotations| <= TotalAnnotations(beans)
    decreases |beans|
  {
    var last := |beans| - 1;
    if b == last {
      assert beans[..b] == beans[..last];
    } else {
      assert beans[..last][..b] == beans[..b];
      assert beans[..last][b] == beans[b];
      TotalAnnotationsOfPrefixBounded(beans[..last], b);
    }
  }

  /**
   * The body of `beans.forEach((name, bean) -> ...)` for one bean: one route
   * and one summary line appended per annotation, in annotation order.
   */
  method RegisterBean(routesBefore: seq<Route>, detectedBefore: seq<string>, bean: BeanEntry)
    returns (routes: seq<Route>, detected: seq<string>)
    ensures routes == routesBefore + BeanRoutes(bean)
    ensures detected == detectedBefore + BeanDetected(bean)
  {
    var name := bean.name;
    var annotations := bean.annotations;
    ghost var own, ownLines := BeanRoutes(bean), BeanDetected(bean);
    routes, detected := routesBefore, detectedBefore;
    for i := 0 to |annotations|
      invariant routes == routesBefore + own[..i]
      invariant detected == detectedBefore + ownLines[..i]
    {
      var ann := annotations[i];
      var route := Route(RouteId(name, annotations, i), ann.path, ann.target);
      routes := routes + [route];
      detected := detected + [DetectedLine(route, name)];
      assert own[..i + 1] == own[..i] + [route];
      assert ownLines[..i + 1] == ownLines[..i] + [DetectedLine(route, name)];
    }
    assert own[..|annotations|] == own && ownLines[..|annotations|] == ownLines;
  }

  /**
   * `domainPassthroughRoutes(builder)`: collects the beans, then registers one
   * route and one summary line per annotation, bean by bean.
   */
  method DomainPassthroughRoutes(annotated: seq<BeanEntry>, containerAnnotated: seq<BeanEntry>)
    returns (routes: seq<Route>, detected: seq<string>)
    ensures routes == AllRoutes(CollectBeans(annotated, containerAnnotated))
    ensures detected == AllDetected(CollectBeans(annotated, containerAnnotated))
    ensures |routes| == |detected| == TotalAnnotations(CollectBeans(annotated, containerAnnotated))
  {
    var beans := PutAll([], annotated);
    beans := PutAll(beans, containerAnnotated);
    routes := [];
    detected := [];
    for b := 0 to |beans|
      invariant routes == AllRoutes(beans[..b])
      invariant detected == AllDetected(beans[..b])
    {
      routes, detected := RegisterBean(routes, detected, beans[b]);
      AllRoutesStep(beans, b);
    }
    assert beans[..|beans|] == beans;
    RouteCountIsAnnotationCount(beans);
  }

  lemma AllRoutesStep(beans: seq<BeanEntry>, b: nat)
    requires b < |beans|
    ensures AllRoutes(beans[..b + 1]) == AllRoutes(beans[..b]) + BeanRoutes(beans[b])
    ensures AllDetected(beans[..b + 1]) == AllDetected(beans[..b]) + BeanDetected(beans[b])
  {
    assert beans[..b + 1][..b] == beans[..b];
  }
}
