/**
 * The start phase's pass over the services (lines 562-587 and 649-664): a
 * cursor from 50000 hands out external ports to services that have none, each
 * service yields one display line, and each container gets a port map. The
 * pass is described here by pure functions: the plain allocation, and the
 * walk that also formats lines and stops at the first unknown service type.
 */
module Ports {
  import opened Wrappers
  import opened Errors
  import opened Services
  import opened Config

  /** Where the cursor starts (lines 558-560 and 642). */
  const FirstPort: int := 50000

  predicate Assigned(s: Service) {
    s.externalPort.Some?
  }

  predicate AllAssigned(services: seq<Service>) {
    forall i :: 0 <= i < |services| ==> Assigned(services[i])
  }

  predicate ContainersAssigned(cs: seq<Container>) {
    forall i :: 0 <= i < |cs| ==> AllAssigned(cs[i].services)
  }

  /** How many of the services lack an external port. */
  function Missing(services: seq<Service>): (r: nat)
    ensures r <= |services|
  {
    if services == [] then 0 else (if Assigned(services[0]) then 0 else 1) + Missing(services[1..])
  }

  /** Lines 571-573 for one service: a missing port becomes the cursor, which moves on. */
  function Assign(s: Service, cursor: int): (Service, int) {
    if Assigned(s) then (s, cursor) else (s.(externalPort := Some(cursor)), cursor + 1)
  }

  /** Port allocation over a list of services, in order. */
  function AllocateServices(services: seq<Service>, cursor: int): (r: (seq<Service>, int))
    ensures |r.0| == |services|
    ensures AllAssigned(r.0)
    ensures r.1 == cursor + Missing(services)
  {
    if services == [] then ([], cursor)
    else
      var (s, next) := Assign(services[0], cursor);
      var rest := AllocateServices(services[1..], next);
      assert forall i :: 1 <= i < |services| ==> ([s] + rest.0)[i] == rest.0[i - 1];
      ([s] + rest.0, rest.1)
  }

  /** All services of the containers, container by container. */
  function AllServices(cs: seq<Container>): seq<Service> {
    if cs == [] then [] else cs[0].services + AllServices(cs[1..])
  }

  /** Port allocation across containers with one shared cursor. */
  function AllocateContainers(cs: seq<Container>, cursor: int): (r: (seq<Container>, int))
    ensures |r.0| == |cs|
  {
    if cs == [] then ([], cursor)
    else
      var svcs := AllocateServices(cs[0].services, cursor);
      var rest := AllocateContainers(cs[1..], svcs.1);
      ([cs[0].(services := svcs.0)] + rest.0, rest.1)
  }

  /** The port a service is published on, once it has one. */
  function PortOf(s: Service): int
    requires Assigned(s)
  {
    s.externalPort.value
  }

  /** The display line of one service (lines 576-584, 656-664). */
  function ServiceLine(custom: seq<ServiceType>, s: Service): Result<string, Error>
    requires Assigned(s)
  {
    FormatUserService(custom, s.kind, LocalKeywords(PortOf(s)))
  }

  /** The display lines of the services, in order, or the first failure. */
  function Lines(custom: seq<ServiceType>, services: seq<Service>): (r: Result<seq<string>, Error>)
    requires AllAssigned(services)
    ensures r.Success? ==> |r.value| == |services|
  {
    if services == [] then Success([])
    else match ServiceLine(custom, services[0])
      case Failure(e) => Failure(e)
      case Success(line) =>
        match Lines(custom, services[1..])
        case Failure(e) => Failure(e)
        case Success(rest) => Success([line] + rest)
  }

  /** `{internal_port: external_port}` from the services, later entries overwriting earlier ones. */
  function ServicePorts(services: seq<Service>): (r: map<int, int>)
    requires AllAssigned(services)
  {
    if services == [] then map[]
    else
      var n := |services| - 1;
      var front := services[..n];
      assert forall i :: 0 <= i < n ==> front[i] == services[i];
      ServicePorts(front)[services[n].internalPort := PortOf(services[n])]
  }

  /** Lines 586-587: the extra ports written over the map, in order. */
  function WithExtras(m: map<int, int>, extras: seq<ExposedPort>): (r: map<int, int>)
  {
    if extras == [] then m
    else
      var n := |extras| - 1;
      var front := extras[..n];
      assert forall j :: 0 <= j < n ==> front[j] == extras[j];
      WithExtras(m, front)[extras[n].internalPort := extras[n].externalPort]
  }

  /** The port map has an entry for every service's internal port and no other. */
  lemma {:induction false} ServicePortsKeys(services: seq<Service>)
    requires AllAssigned(services)
    ensures ServicePorts(services).Keys == set i | 0 <= i < |services| :: services[i].internalPort
    decreases |services|
  {
    if services != [] {
      var n := |services| - 1;
      var front := services[..n];
      assert forall i :: 0 <= i < n ==> front[i] == services[i];
      ServicePortsKeys(front);
    }
  }

  /** Writing the extra ports adds exactly their internal ports to the map's keys. */
  lemma {:induction false} WithExtrasKeys(m: map<int, int>, extras: seq<ExposedPort>)
    ensures WithExtras(m, extras).Keys == m.Keys + set j | 0 <= j < |extras| :: extras[j].internalPort
    decreases |extras|
  {
    if extras != [] {
      var n := |extras| - 1;
      var front := extras[..n];
      assert forall j :: 0 <= j < n ==> front[j] == extras[j];
      WithExtrasKeys(m, front);
    }
  }

  /** The `ports` argument a container is created with. */
  function PortMap(c: Container): map<int, int>
    requires AllAssigned(c.services)
  {
    WithExtras(ServicePorts(c.services), c.extraExposedPorts)
  }

  // ------------------------------------------------------------ the walk

  /** Where a walk over services stops: the services as updated, the cursor, the lines so far, the failure. */
  datatype ServiceWalk = ServiceWalk(services: seq<Service>, cursor: int, lines: seq<string>, failure: Option<Error>)

  /**
   * The inner loop as the source runs it: assign, then format, so a service of
   * an unknown type has its port assigned before the error; the rest of the
   * services are left as they were.
   */
  function WalkServices(custom: seq<ServiceType>, services: seq<Service>, cursor: int): (r: ServiceWalk)
    ensures |r.services| == |services|
    ensures r.failure.None? ==> AllAssigned(r.services)
  {
    if services == [] then ServiceWalk([], cursor, [], None)
    else
      var (s, next) := Assign(services[0], cursor);
      match ServiceLine(custom, s)
      case Failure(e) => ServiceWalk([s] + services[1..], next, [], Some(e))
      case Success(line) =>
        var rest := WalkServices(custom, services[1..], next);
        ServiceWalk([s] + rest.services, rest.cursor, [line] + rest.lines, rest.failure)
  }

  /** A walk over containers: the containers as updated, those finished in full, the cursor, the lines, the failure. */
  datatype ContainerWalk = ContainerWalk(
    containers: seq<Container>, finished: seq<Container>, cursor: int, lines: seq<string>, failure: Option<Error>)

  function WalkContainers(custom: seq<ServiceType>, cs: seq<Container>, cursor: int): (r: ContainerWalk)
    ensures |r.containers| == |cs|
    ensures |r.finished| <= |cs|
    ensures r.finished == r.containers[..|r.finished|]
    ensures r.failure.None? ==> |r.finished| == |cs|
    ensures ContainersAssigned(r.finished)
  {
    if cs == [] then ContainerWalk([], [], cursor, [], None)
    else
      var w := WalkServices(custom, cs[0].services, cursor);
      var c := cs[0].(services := w.services);
      if w.failure.Some? then ContainerWalk([c] + cs[1..], [], w.cursor, w.lines, w.failure)
      else
        var rest := WalkContainers(custom, cs[1..], w.cursor);
        ContainerWalk([c] + rest.containers, [c] + rest.finished, rest.cursor, w.lines + rest.lines, rest.failure)
  }

  // ------------------------------------------------------------ properties

  /**
   * Allocation in declared order: a service with a port keeps it, and the k-th
   * service without one (counting from 0) gets cursor + k.
   */
  lemma AllocationOrder(services: seq<Service>, cursor: int)
    ensures var r := AllocateServices(services, cursor).0;
      forall i :: 0 <= i < |services| ==>
        r[i].kind == services[i].kind && r[i].internalPort == services[i].internalPort
        && r[i].externalPort == (if Assigned(services[i]) then services[i].externalPort
                                 else Some(cursor + Missing(services[..i])))
  {
    forall i | 0 <= i < |services|
      ensures var r := AllocateServices(services, cursor).0;
        r[i].kind == services[i].kind && r[i].internalPort == services[i].internalPort
        && r[i].externalPort == (if Assigned(services[i]) then services[i].externalPort
                                 else Some(cursor + Missing(services[..i])))
    {
      AllocationAt(services, cursor, i);
    }
  }

  /** The allocation at one position, by induction on that position. */
  lemma {:induction false} AllocationAt(services: seq<Service>, cursor: int, i: nat)
    requires i < |services|
    ensures var r := AllocateServices(services, cursor).0;
      r[i].kind == services[i].kind && r[i].internalPort == services[i].internalPort
      && r[i].externalPort == (if Assigned(services[i]) then services[i].externalPort
                               else Some(cursor + Missing(services[..i])))
    decreases i
  {
    var (s, next) := Assign(services[0], cursor);
    var rest := AllocateServices(services[1..], next).0;
    var r := AllocateServices(services, cursor).0;
    assert r == [s] + rest;
    if i > 0 {
      var j := i - 1;
      AllocationAt(services[1..], next, j);
      MissingPrefixStep(services, i);
      assert r[i] == rest[j] && services[i] == services[1..][j];
      assert next == cursor + (if Assigned(services[0]) then 0 else 1);
    } else {
      assert services[..0] == [];
    }
  }

  /** The missing ports before position i: the head's, then those of the tail before i - 1. */
  lemma MissingPrefixStep(services: seq<Service>, i: nat)
    requires 0 < i <= |services|
    ensures Missing(services[..i]) == (if Assigned(services[0]) then 0 else 1) + Missing(services[1..][..i - 1])
  {
    assert services[..i][1..] == services[1..][..i - 1];
    assert services[..i][0] == services[0];
  }

  /** A list whose services all have ports is left alone, and the cursor does not move. */
  lemma {:induction false} AllocationIdempotent(services: seq<Service>, cursor: int)
    requires AllAssigned(services)
    ensures AllocateServices(services, cursor) == (services, cursor)
    decreases |services|
  {
    if services != [] {
      AllocationIdempotent(services[1..], cursor);
      assert [services[0]] + services[1..] == services;
    }
  }

  /** One allocation step: the head service, then the rest from the moved cursor. */
  lemma AllocateCons(s: Service, rest: seq<Service>, cursor: int)
    ensures var (t, next) := Assign(s, cursor); var r := AllocateServices(rest, next);
      AllocateServices([s] + rest, cursor) == ([t] + r.0, r.1)
  {
    assert ([s] + rest)[0] == s;
    assert ([s] + rest)[1..] == rest;
  }

  /** Allocation over two lists in a row is allocation over their concatenation. */
  lemma {:induction false} AllocateAppend(a: seq<Service>, b: seq<Service>, cursor: int)
    ensures var ra := AllocateServices(a, cursor); var rb := AllocateServices(b, ra.1);
      AllocateServices(a + b, cursor) == (ra.0 + rb.0, rb.1)
    decreases |a|
  {
    if a == [] {
      assert a + b == b;
      assert AllocateServices(a, cursor) == ([], cursor);
      assert [] + AllocateServices(b, cursor).0 == AllocateServices(b, cursor).0;
    } else {
      var (s, next) := Assign(a[0], cursor);
      assert a == [a[0]] + a[1..];
      assert a + b == [a[0]] + (a[1..] + b);
      AllocateCons(a[0], a[1..], cursor);
      AllocateCons(a[0], a[1..] + b, cursor);
      AllocateAppend(a[1..], b, next);
      var ra1 := AllocateServices(a[1..], next);
      var rb := AllocateServices(b, ra1.1);
      assert [s] + (ra1.0 + rb.0) == ([s] + ra1.0) + rb.0;
    }
  }

  /** The cursor is shared: allocating container by container numbers all services as one list. */
  lemma {:induction false} AllocationAcrossContainers(cs: seq<Container>, cursor: int)
    ensures var r := AllocateContainers(cs, cursor); var flat := AllocateServices(AllServices(cs), cursor);
      AllServices(r.0) == flat.0 && r.1 == flat.1
    decreases |cs|
  {
    if cs != [] {
      var svcs := AllocateServices(cs[0].services, cursor);
      AllocationAcrossContainers(cs[1..], svcs.1);
      AllocateAppend(cs[0].services, AllServices(cs[1..]), cursor);
      var r := AllocateContainers(cs, cursor);
      assert r.0[1..] == AllocateContainers(cs[1..], svcs.1).0;
    }
  }

  /** After allocation every service of every container has a port. */
  lemma {:induction false} AllocatedContainersAssigned(cs: seq<Container>, cursor: int)
    ensures ContainersAssigned(AllocateContainers(cs, cursor).0)
    decreases |cs|
  {
    if cs != [] {
      var svcs := AllocateServices(cs[0].services, cursor);
      AllocatedContainersAssigned(cs[1..], svcs.1);
      var r := AllocateContainers(cs, cursor).0;
      assert forall i :: 1 <= i < |cs| ==> r[i] == AllocateContainers(cs[1..], svcs.1).0[i - 1];
    }
  }

  /** A second pass over containers that already have all their ports changes nothing. */
  lemma {:induction false} SecondPassAssignsNothing(cs: seq<Container>, cursor: int)
    requires ContainersAssigned(cs)
    ensures AllocateContainers(cs, cursor) == (cs, cursor)
    decreases |cs|
  {
    if cs != [] {
      AllocationIdempotent(cs[0].services, cursor);
      assert forall i :: 1 <= i < |cs| ==> cs[1..][i - 1] == cs[i];
      SecondPassAssignsNothing(cs[1..], cursor);
      assert cs[0].(services := cs[0].services) == cs[0];
      assert [cs[0]] + cs[1..] == cs;
    }
  }

  /** Three services without ports and one with 12345: 50000, 50001, 50002, and 12345 untouched. */
  lemma AllocationExample(a: string, b: string, c: string, d: string)
    ensures var services := [Service(a, 80, None), Service(b, 81, None), Service(c, 82, None), Service(d, 83, Some(12345))];
      AllocateServices(services, FirstPort)
      == ([Service(a, 80, Some(50000)), Service(b, 81, Some(50001)), Service(c, 82, Some(50002)), Service(d, 83, Some(12345))],
          50003)
  {
    var s4 := [Service(d, 83, Some(12345))];
    var s3 := [Service(c, 82, None)] + s4;
    var s2 := [Service(b, 81, None)] + s3;
    var s1 := [Service(a, 80, None)] + s2;
    AllocationIdempotent(s4, 50003);
    var t3 := [Service(c, 82, Some(50002))] + s4;
    AllocateCons(Service(c, 82, None), s4, 50002);
    assert AllocateServices(s3, 50002) == (t3, 50003);
    var t2 := [Service(b, 81, Some(50001))] + t3;
    AllocateCons(Service(b, 81, None), s3, 50001);
    assert AllocateServices(s2, 50001) == (t2, 50003);
    var t1 := [Service(a, 80, Some(50000))] + t2;
    AllocateCons(Service(a, 80, None), s2, 50000);
    assert AllocateServices(s1, 50000) == (t1, 50003);
    assert s1 == [Service(a, 80, None), Service(b, 81, None), Service(c, 82, None), Service(d, 83, Some(12345))];
    assert t1 == [Service(a, 80, Some(50000)), Service(b, 81, Some(50001)), Service(c, 82, Some(50002)), Service(d, 83, Some(12345))];
  }

  /**
   * The walk succeeds exactly when every service's type is known; then it is
   * the plain allocation, and its lines are the lines of the allocated services.
   */
  lemma {:induction false} WalkIsAllocation(custom: seq<ServiceType>, services: seq<Service>, cursor: int)
    ensures var w := WalkServices(custom, services, cursor); var a := AllocateServices(services, cursor);
      (w.failure.None? <==> Lines(custom, a.0).Success?)
      && (w.failure.None? ==> w.services == a.0 && w.cursor == a.1 && w.lines == Lines(custom, a.0).value)
      && (w.failure.Some? ==> Failure(w.failure.value) == Lines(custom, a.0))
    decreases |services|
  {
    if services != [] {
      var (s, next) := Assign(services[0], cursor);
      var a := AllocateServices(services, cursor);
      assert a.0[0] == s && a.0[1..] == AllocateServices(services[1..], next).0;
      WalkIsAllocation(custom, services[1..], next);
    }
  }

  /** The walk over containers, when it succeeds, is the plain allocation and finishes every container. */
  lemma {:induction false} ContainerWalkIsAllocation(custom: seq<ServiceType>, cs: seq<Container>, cursor: int)
    ensures var w := WalkContainers(custom, cs, cursor); var a := AllocateContainers(cs, cursor);
      w.failure.None? ==> w.containers == a.0 && w.finished == a.0 && w.cursor == a.1
    decreases |cs|
  {
    if cs != [] {
      WalkIsAllocation(custom, cs[0].services, cursor);
      var w := WalkServices(custom, cs[0].services, cursor);
      if w.failure.None? {
        ContainerWalkIsAllocation(custom, cs[1..], w.cursor);
      }
    }
  }

  /** Whether a type name is declared nowhere. */
  predicate UnknownType(custom: seq<ServiceType>, kind: string) {
    kind != "website" && kind != "tcp" && forall i :: 0 <= i < |custom| ==> custom[i].name != kind
  }

  /** A walk fails exactly when some service has an unknown type, and then with the first such type. */
  lemma {:induction false} WalkFailsOnUnknownType(custom: seq<ServiceType>, services: seq<Service>, cursor: int)
    ensures var w := WalkServices(custom, services, cursor);
      (w.failure.Some? <==> exists i :: 0 <= i < |services| && UnknownType(custom, services[i].kind))
      && (w.failure.Some? ==> exists i :: 0 <= i < |services| && UnknownType(custom, services[i].kind)
                               && w.failure == Some(UnknownServiceType(services[i].kind))
                               && forall j :: 0 <= j < i ==> !UnknownType(custom, services[j].kind))
    decreases |services|
  {
    if services != [] {
      var (s, next) := Assign(services[0], cursor);
      FormatUserServiceFails(custom, s.kind, LocalKeywords(PortOf(s)));
      WalkFailsOnUnknownType(custom, services[1..], next);
      if !UnknownType(custom, services[0].kind) {
        assert forall i :: 1 <= i < |services| ==> services[1..][i - 1] == services[i];
        var w := WalkServices(custom, services, cursor);
        if w.failure.Some? {
          var k :| 0 <= k < |services[1..]| && UnknownType(custom, services[1..][k].kind)
                   && w.failure == Some(UnknownServiceType(services[1..][k].kind))
                   && forall j :: 0 <= j < k ==> !UnknownType(custom, services[1..][j].kind);
          assert UnknownType(custom, services[k + 1].kind);
          assert forall j :: 0 <= j < k + 1 ==> !UnknownType(custom, services[j].kind);
        }
      }
    }
  }

  /** An extra port is published as declared unless a later extra port claims the same internal port. */
  lemma {:induction false} ExtraPortsTakePrecedence(m: map<int, int>, extras: seq<ExposedPort>, j: nat)
    requires j < |extras|
    requires forall k :: j < k < |extras| ==> extras[k].internalPort != extras[j].internalPort
    ensures extras[j].internalPort in WithExtras(m, extras)
            && WithExtras(m, extras)[extras[j].internalPort] == extras[j].externalPort
    decreases |extras|
  {
    WithExtrasKeys(m, extras);
    var n := |extras| - 1;
    if j < n {
      var front := extras[..n];
      assert forall k :: j < k < n ==> front[k] == extras[k];
      ExtraPortsTakePrecedence(m, front, j);
    }
  }

  /** An internal port no extra entry names keeps what the services gave it. */
  lemma {:induction false} ServicePortKept(m: map<int, int>, extras: seq<ExposedPort>, p: int)
    requires p in m
    requires forall k :: 0 <= k < |extras| ==> extras[k].internalPort != p
    ensures p in WithExtras(m, extras) && WithExtras(m, extras)[p] == m[p]
    decreases |extras|
  {
    WithExtrasKeys(m, extras);
    if extras != [] {
      var n := |extras| - 1;
      var front := extras[..n];
      assert forall k :: 0 <= k < n ==> front[k] == extras[k];
      ServicePortKept(m, front, p);
    }
  }

  /**
   * A service's internal port maps to that service's external port, unless a
   * later service of the container names the same internal port and overwrites it.
   */
  lemma {:induction false} ServicePortsValue(services: seq<Service>, i: nat)
    requires AllAssigned(services)
    requires i < |services|
    requires forall j :: i < j < |services| ==> services[j].internalPort != services[i].internalPort
    ensures services[i].internalPort in ServicePorts(services)
    ensures ServicePorts(services)[services[i].internalPort] == PortOf(services[i])
    decreases |services|
  {
    var n := |services| - 1;
    if i < n {
      var front := services[..n];
      assert forall k :: 0 <= k < n ==> front[k] == services[k];
      ServicePortsValue(front, i);
    }
  }

  /** In a container's port map, a service's internal port no later service and no extra entry names maps to its external port. */
  lemma PortMapValue(c: Container, i: nat)
    requires AllAssigned(c.services)
    requires i < |c.services|
    requires forall j :: i < j < |c.services| ==> c.services[j].internalPort != c.services[i].internalPort
    requires forall k :: 0 <= k < |c.extraExposedPorts| ==> c.extraExposedPorts[k].internalPort != c.services[i].internalPort
    ensures c.services[i].internalPort in PortMap(c)
    ensures PortMap(c)[c.services[i].internalPort] == PortOf(c.services[i])
  {
    ServicePortsValue(c.services, i);
    ServicePortKept(ServicePorts(c.services), c.extraExposedPorts, c.services[i].internalPort);
  }

  /** A walk that succeeds yields one display line per service. */
  lemma {:induction false} WalkLineCount(custom: seq<ServiceType>, services: seq<Service>, cursor: int)
    ensures var w := WalkServices(custom, services, cursor); w.failure.None? ==> |w.lines| == |services|
    decreases |services|
  {
    if services != [] {
      var (s, next) := Assign(services[0], cursor);
      WalkLineCount(custom, services[1..], next);
    }
  }

  /** A walk over containers that succeeds yields one display line per service of every container. */
  lemma {:induction false} ContainerLineCount(custom: seq<ServiceType>, cs: seq<Container>, cursor: int)
    ensures var w := WalkContainers(custom, cs, cursor); w.failure.None? ==> |w.lines| == |AllServices(cs)|
    decreases |cs|
  {
    if cs != [] {
      var w := WalkServices(custom, cs[0].services, cursor);
      WalkLineCount(custom, cs[0].services, cursor);
      ContainerLineCount(custom, cs[1..], w.cursor);
    }
  }

  /**
   * Walking again over the services a successful walk left behind assigns
   * nothing, leaves the cursor where it is and gives the same lines.
   */
  lemma WalkServicesAgain(custom: seq<ServiceType>, services: seq<Service>, cursor: int, again: int)
    requires WalkServices(custom, services, cursor).failure.None?
    ensures var w := WalkServices(custom, services, cursor);
      WalkServices(custom, w.services, again) == ServiceWalk(w.services, again, w.lines, None)
  {
    var w := WalkServices(custom, services, cursor);
    WalkIsAllocation(custom, services, cursor);
    AllocationIdempotent(w.services, again);
    WalkIsAllocation(custom, w.services, again);
  }

  /** The same for a whole walk over containers: every container is finished again, unchanged. */
  lemma {:induction false} WalkContainersAgain(custom: seq<ServiceType>, cs: seq<Container>, cursor: int, again: int)
    requires WalkContainers(custom, cs, cursor).failure.None?
    ensures var w := WalkContainers(custom, cs, cursor);
      WalkContainers(custom, w.containers, again) == ContainerWalk(w.containers, w.containers, again, w.lines, None)
    decreases |cs|
  {
    if cs != [] {
      var ws := WalkServices(custom, cs[0].services, cursor);
      var c := cs[0].(services := ws.services);
      var rest := WalkContainers(custom, cs[1..], ws.cursor);
      var w := WalkContainers(custom, cs, cursor);
      WalkServicesAgain(custom, cs[0].services, cursor, again);
      WalkContainersAgain(custom, cs[1..], ws.cursor, again);
      assert w.containers[0] == c && w.containers[1..] == rest.containers;
      assert c.(services := ws.services) == c;
    }
  }

  /** A walk changes the services of the containers and nothing else about them. */
  lemma WalkKeepsContainers(custom: seq<ServiceType>, cs: seq<Container>, cursor: int)
    ensures var w := WalkContainers(custom, cs, cursor);
      forall i :: 0 <= i < |cs| ==> w.containers[i] == cs[i].(services := w.containers[i].services)
  {
    var w := WalkContainers(custom, cs, cursor);
    forall i | 0 <= i < |cs| ensures w.containers[i] == cs[i].(services := w.containers[i].services) {
      WalkKeepsContainer(custom, cs, cursor, i);
    }
  }

  /** The same for the container at position i, by induction on that position. */
  lemma {:induction false} WalkKeepsContainer(custom: seq<ServiceType>, cs: seq<Container>, cursor: int, i: nat)
    requires i < |cs|
    ensures var w := WalkContainers(custom, cs, cursor);
      w.containers[i] == cs[i].(services := w.containers[i].services)
    decreases i
  {
    if i > 0 {
      var ws := WalkServices(custom, cs[0].services, cursor);
      assert cs[i] == cs[1..][i - 1];
      if ws.failure.None? {
        WalkKeepsContainer(custom, cs[1..], ws.cursor, i - 1);
      }
    }
  }

  /** Every service type of every container is declared somewhere. */
  predicate KnownTypes(custom: seq<ServiceType>, cs: seq<Container>) {
    forall i, j :: 0 <= i < |cs| && 0 <= j < |cs[i].services| ==> !UnknownType(custom, cs[i].services[j].kind)
  }

  /** The walk over containers succeeds exactly when every service of every container has a known type. */
  lemma {:induction false} ContainerWalkSucceedsExactly(custom: seq<ServiceType>, cs: seq<Container>, cursor: int)
    ensures WalkContainers(custom, cs, cursor).failure.None? <==> KnownTypes(custom, cs)
    decreases |cs|
  {
    if cs != [] {
      var ws := WalkServices(custom, cs[0].services, cursor);
      WalkFailsOnUnknownType(custom, cs[0].services, cursor);
      if ws.failure.Some? {
        var j :| 0 <= j < |cs[0].services| && UnknownType(custom, cs[0].services[j].kind);
        assert !KnownTypes(custom, cs);
      } else {
        ContainerWalkSucceedsExactly(custom, cs[1..], ws.cursor);
        assert KnownTypes(custom, cs) <==> KnownTypes(custom, cs[1..]) by {
          if KnownTypes(custom, cs) {
            forall i, j | 0 <= i < |cs[1..]| && 0 <= j < |cs[1..][i].services|
              ensures !UnknownType(custom, cs[1..][i].services[j].kind)
            {
              assert cs[1..][i] == cs[i + 1];
            }
          }
          if KnownTypes(custom, cs[1..]) {
            forall i, j | 0 <= i < |cs| && 0 <= j < |cs[i].services|
              ensures !UnknownType(custom, cs[i].services[j].kind)
            {
              if i > 0 {
                assert cs[i] == cs[1..][i - 1];
              }
            }
          }
        }
      }
    }
  }

  /** A failed walk over containers names the unknown type of one of their services. */
  lemma {:induction false} ContainerWalkFailsOnUnknownType(custom: seq<ServiceType>, cs: seq<Container>, cursor: int)
    ensures var w := WalkContainers(custom, cs, cursor);
      w.failure.Some? ==> exists i, j :: 0 <= i < |cs| && 0 <= j < |cs[i].services|
                            && UnknownType(custom, cs[i].services[j].kind)
                            && w.failure == Some(UnknownServiceType(cs[i].services[j].kind))
    decreases |cs|
  {
    if cs != [] {
      var ws := WalkServices(custom, cs[0].services, cursor);
      WalkFailsOnUnknownType(custom, cs[0].services, cursor);
      var w := WalkContainers(custom, cs, cursor);
      if ws.failure.Some? {
        var j :| 0 <= j < |cs[0].services| && UnknownType(custom, cs[0].services[j].kind)
                 && ws.failure == Some(UnknownServiceType(cs[0].services[j].kind));
        assert w.failure == ws.failure;
      } else if w.failure.Some? {
        ContainerWalkFailsOnUnknownType(custom, cs[1..], ws.cursor);
        var i, j :| 0 <= i < |cs[1..]| && 0 <= j < |cs[1..][i].services|
                    && UnknownType(custom, cs[1..][i].services[j].kind)
                    && w.failure == Some(UnknownServiceType(cs[1..][i].services[j].kind));
        assert cs[i + 1] == cs[1..][i];
      }
    }
  }
}
