/**
 * The start phase: start_chall (lines 503-607) and start_solution (lines
 * 610-675). Each is described by a function from the configuration and the
 * engine state it starts from to its result, the deployment it leaves in the
 * configuration (ports assigned in place persist, also when a later step
 * fails) and the containers it adds to the engine; the methods do the work
 * step by step and are proved equal to those functions.
 */
module Start {
  import opened Wrappers
  import opened Errors
  import opened DockerNames
  import opened Services
  import opened Config
  import opened Ports
  import opened ContainerEngine
  import opened Build

  // ------------------------------------------------------- prerequisites

  /** The first of `names` that `present` does not hold. */
  function FirstMissing(names: seq<string>, present: seq<string>): (r: Option<string>)
    ensures r.None? <==> forall i :: 0 <= i < |names| ==> names[i] in present
    ensures r.Some? ==> exists i :: 0 <= i < |names| && names[i] == r.value && r.value !in present
                          && forall j :: 0 <= j < i ==> names[j] in present
    decreases |names|
  {
    if names == [] then None
    else if names[0] !in present then Some(names[0])
    else
      var r := FirstMissing(names[1..], present);
      assert forall i :: 1 <= i < |names| ==> names[1..][i - 1] == names[i];
      if r.Some? then
        assert exists i :: 0 <= i < |names| && names[i] == r.value && r.value !in present
                 && forall j :: 0 <= j < i ==> names[j] in present by {
          var k :| 0 <= k < |names[1..]| && names[1..][k] == r.value && r.value !in present
                   && forall j :: 0 <= j < k ==> names[1..][j] in present;
          assert names[k + 1] == names[1..][k];
        }
        r
      else r
  }

  /** The image tags of the containers, in order (lines 530-534). */
  function ContainerTags(md5: Md5, ch: Challenge, cs: seq<Container>): (r: seq<string>)
    ensures |r| == |cs| && forall i :: 0 <= i < |cs| ==> r[i] == ContainerTag(md5, ch, cs[i])
  {
    seq(|cs|, i requires 0 <= i < |cs| => ContainerTag(md5, ch, cs[i]))
  }

  /**
   * What start_chall finds missing before it starts anything: the first
   * container image, else the first network, else the first volume.
   */
  function Prerequisite(md5: Md5, ch: Challenge, dep: Deployment, tags: seq<string>,
                        networks: seq<string>, volumes: seq<string>): (r: Option<Error>)
    ensures r.None? <==> (forall i :: 0 <= i < |dep.containers| ==> ContainerTag(md5, ch, dep.containers[i]) in tags)
                         && (forall i :: 0 <= i < |dep.networks| ==> dep.networks[i].name in networks)
                         && (forall i :: 0 <= i < |dep.volumes| ==> dep.volumes[i] in volumes)
    ensures r.Some? ==> r.value.MissingImage? || r.value.MissingNetwork? || r.value.MissingVolume?
  {
    match FirstMissing(ContainerTags(md5, ch, dep.containers), tags)
    case Some(t) => Some(MissingImage(t))
    case None =>
      match FirstMissing(NetworkNames(dep.networks), networks)
      case Some(n) => Some(MissingNetwork(n))
      case None =>
        match FirstMissing(dep.volumes, volumes)
        case Some(v) => Some(MissingVolume(v))
        case None => None
  }

  /**
   * The refusal names the resource that is missing: the first container whose
   * derived tag is not listed; else, with every image present, the first
   * declared network that does not exist; else the first missing volume.
   */
  lemma {:induction false} PrerequisiteNamesMissing(md5: Md5, ch: Challenge, dep: Deployment, tags: seq<string>,
                                                    networks: seq<string>, volumes: seq<string>)
    ensures var r := Prerequisite(md5, ch, dep, tags, networks, volumes);
      r.Some? && r.value.MissingImage? ==>
        exists i :: 0 <= i < |dep.containers| && r.value.tag == ContainerTag(md5, ch, dep.containers[i])
          && r.value.tag !in tags
          && forall j :: 0 <= j < i ==> ContainerTag(md5, ch, dep.containers[j]) in tags
    ensures var r := Prerequisite(md5, ch, dep, tags, networks, volumes);
      r.Some? && r.value.MissingNetwork? ==>
        (forall i :: 0 <= i < |dep.containers| ==> ContainerTag(md5, ch, dep.containers[i]) in tags)
        && (exists i :: 0 <= i < |dep.networks| && r.value.name == dep.networks[i].name
              && r.value.name !in networks
              && forall j :: 0 <= j < i ==> dep.networks[j].name in networks)
    ensures var r := Prerequisite(md5, ch, dep, tags, networks, volumes);
      r.Some? && r.value.MissingVolume? ==>
        (forall i :: 0 <= i < |dep.containers| ==> ContainerTag(md5, ch, dep.containers[i]) in tags)
        && (forall i :: 0 <= i < |dep.networks| ==> dep.networks[i].name in networks)
        && (exists i :: 0 <= i < |dep.volumes| && r.value.name == dep.volumes[i]
              && r.value.name !in volumes
              && forall j :: 0 <= j < i ==> dep.volumes[j] in volumes)
  {
    var cts := ContainerTags(md5, ch, dep.containers);
    var nns := NetworkNames(dep.networks);
    var image := FirstMissing(cts, tags);
    if image.Some? {
      var i :| 0 <= i < |cts| && cts[i] == image.value && image.value !in tags
               && forall j :: 0 <= j < i ==> cts[j] in tags;
      assert ContainerTag(md5, ch, dep.containers[i]) == image.value;
    } else {
      var network := FirstMissing(nns, networks);
      if network.Some? {
        var i :| 0 <= i < |nns| && nns[i] == network.value && network.value !in networks
                 && forall j :: 0 <= j < i ==> nns[j] in networks;
        assert dep.networks[i].name == network.value;
      }
    }
  }

  /** One of the checking loops of lines 529-554. */
  method FindMissing(names: seq<string>, present: seq<string>) returns (r: Option<string>)
    ensures r == FirstMissing(names, present)
  {
    var i := 0;
    assert names[0..] == names;
    while i < |names|
      invariant 0 <= i <= |names|
      invariant FirstMissing(names[i..], present) == FirstMissing(names, present)
    {
      assert names[i..][0] == names[i] && names[i..][1..] == names[i + 1..];
      if names[i] !in present {
        return Some(names[i]);
      }
      i := i + 1;
    }
    assert names[i..] == [];
    return None;
  }

  /** Lines 529-554: images, then networks, then volumes. */
  method CheckPrerequisites(md5: Md5, ch: Challenge, dep: Deployment, tags: seq<string>,
                            networks: seq<string>, volumes: seq<string>) returns (failure: Option<Error>)
    ensures failure == Prerequisite(md5, ch, dep, tags, networks, volumes)
  {
    var image := FindMissing(ContainerTags(md5, ch, dep.containers), tags);
    if image.Some? {
      return Some(MissingImage(image.value));
    }
    var network := FindMissing(NetworkNames(dep.networks), networks);
    if network.Some? {
      return Some(MissingNetwork(network.value));
    }
    var volume := FindMissing(dep.volumes, volumes);
    if volume.Some? {
      return Some(MissingVolume(volume.value));
    }
    return None;
  }

  // ------------------------------------------------------- the containers

  /** The networks a container joins (lines 600-602): those listing its name, in declared order. */
  function Attached(networks: seq<Network>, name: string): (r: seq<string>)
    ensures |r| <= |networks|
  {
    if networks == [] then []
    else
      var n := |networks| - 1;
      Attached(networks[..n], name) + (if name in networks[n].members then [networks[n].name] else [])
  }

  /** A container joins exactly the networks that list it. */
  lemma {:induction false} AttachedExactly(networks: seq<Network>, name: string)
    ensures forall x :: x in Attached(networks, name) <==>
              exists i :: 0 <= i < |networks| && networks[i].name == x && name in networks[i].members
    decreases |networks|
  {
    if networks != [] {
      var n := |networks| - 1;
      var front := networks[..n];
      AttachedExactly(front, name);
      assert forall i :: 0 <= i < n ==> front[i] == networks[i];
    }
  }

  /** The containers start_chall leaves running for the containers whose services it finished. */
  function ContainerRuns(md5: Md5, ch: Challenge, networks: seq<Network>, cs: seq<Container>): (r: seq<Run>)
    requires ContainersAssigned(cs)
    ensures |r| == |cs|
  {
    if cs == [] then []
    else
      var n := |cs| - 1;
      assert forall i :: 0 <= i < n ==> cs[..n][i] == cs[i];
      ContainerRuns(md5, ch, networks, cs[..n]) + [Run(ContainerTag(md5, ch, cs[n]), PortMap(cs[n]), Attached(networks, cs[n].name), false, [], true)]
  }

  /** The handles of `n` containers created after `existing` others. */
  function Ids(existing: nat, n: nat): (r: seq<nat>)
    ensures |r| == n && forall k :: 0 <= k < n ==> r[k] == existing + k
  {
    if n == 0 then [] else Ids(existing, n - 1) + [existing + n - 1]
  }

  // ------------------------------------------------------- start_chall

  /** What start_chall returns, the deployment it leaves behind and the containers it adds. */
  datatype ChallStart = ChallStart(result: Result<(seq<nat>, seq<string>), Error>, deployment: Option<Deployment>, runs: seq<Run>)

  /** Lines 520-554: why start_chall refuses a non-empty deployment before it starts anything. */
  function ChallRefusal(md5: Md5, ch: Challenge, dep: Deployment, reachable: bool, tags: seq<string>,
                        networks: seq<string>, volumes: seq<string>): (r: Option<Error>)
  {
    if dep.kind != "docker" then Some(UnsupportedDeploymentType(dep.kind))
    else if !reachable then Some(EngineUnreachable)
    else Prerequisite(md5, ch, dep, tags, networks, volumes)
  }

  /** start_chall, from the engine's tag list, networks, volumes and number of containers. */
  function StartChallenge(md5: Md5, ch: Challenge, dep: Option<Deployment>, reachable: bool, tags: seq<string>,
                          networks: seq<string>, volumes: seq<string>, existing: nat): ChallStart
  {
    if dep.None? || dep.value.containers == [] then ChallStart(Success(([], [])), dep, [])
    else
      match ChallRefusal(md5, ch, dep.value, reachable, tags, networks, volumes)
      case Some(e) => ChallStart(Failure(e), dep, [])
      case None =>
        var w := WalkContainers(ch.customServiceTypes, dep.value.containers, FirstPort);
        ChallStart(if w.failure.Some? then Failure(w.failure.value) else Success((Ids(existing, |w.finished|), w.lines)),
                   Some(dep.value.(containers := w.containers)),
                   ContainerRuns(md5, ch, dep.value.networks, w.finished))
  }

  /** One step of WalkServices from position k. */
  lemma WalkServicesStep(custom: seq<ServiceType>, services: seq<Service>, k: nat, cursor: int)
    requires k < |services|
    ensures var (s, next) := Assign(services[k], cursor);
      WalkServices(custom, services[k..], cursor)
      == match ServiceLine(custom, s)
         case Failure(e) => ServiceWalk([s] + services[k + 1..], next, [], Some(e))
         case Success(line) =>
           var rest := WalkServices(custom, services[k + 1..], next);
           ServiceWalk([s] + rest.services, rest.cursor, [line] + rest.lines, rest.failure)
  {
    assert services[k..][0] == services[k] && services[k..][1..] == services[k + 1..];
  }

  /**
   * The services loop of lines 569-584 (and 653-664): assign a missing port,
   * record it in the port map, format the display line.
   */
  method ServeServices(custom: seq<ServiceType>, services: seq<Service>, cursor: int)
    returns (w: ServiceWalk, ports: map<int, int>)
    ensures w == WalkServices(custom, services, cursor)
    ensures w.failure.None? ==> ports == ServicePorts(w.services)
  {
    ghost var total := WalkServices(custom, services, cursor);
    var out: seq<Service> := [];
    var lines: seq<string> := [];
    var cur := cursor;
    ports := map[];
    var k := 0;
    assert services[0..] == services;
    while k < |services|
      invariant 0 <= k <= |services|
      invariant |out| == k && AllAssigned(out)
      invariant ports == ServicePorts(out)
      invariant var rest := WalkServices(custom, services[k..], cur);
        total == ServiceWalk(out + rest.services, rest.cursor, lines + rest.lines, rest.failure)
    {
      ServiceAdvance(custom, services, k, cur, out, lines, total);
      var (s, next) := Assign(services[k], cur);
      var line := FormatUserService(custom, s.kind, LocalKeywords(PortOf(s)));
      PortsSnoc(out, s);
      ports := ports[s.internalPort := PortOf(s)];
      if line.Failure? {
        return ServiceWalk(out + [s] + services[k + 1..], next, lines, Some(line.error)), ports;
      }
      out := out + [s];
      lines := lines + [line.value];
      cur := next;
      k := k + 1;
    }
    assert services[k..] == [];
    assert out + [] == out && lines + [] == lines;
    w := ServiceWalk(out, cur, lines, None);
  }

  /** Lines 586-587. */
  method AddExtras(ports: map<int, int>, extras: seq<ExposedPort>) returns (m: map<int, int>)
    ensures m == WithExtras(ports, extras)
  {
    m := ports;
    var j := 0;
    while j < |extras|
      invariant 0 <= j <= |extras|
      invariant m == WithExtras(ports, extras[..j])
    {
      assert extras[..j + 1][..j] == extras[..j];
      m := m[extras[j].internalPort := extras[j].externalPort];
      j := j + 1;
    }
    assert extras[..j] == extras;
  }

  /** Lines 589-603: create the container, connect it to its networks, start it. */
  method LaunchContainer(engine: Engine, tag: string, ports: map<int, int>, networks: seq<Network>, name: string)
    returns (id: nat)
    modifies engine
    ensures id == |old(engine.containers)|
    ensures engine.containers == old(engine.containers) + [Run(tag, ports, Attached(networks, name), false, [], true)]
    ensures engine.images == old(engine.images) && engine.networks == old(engine.networks)
    ensures engine.volumes == old(engine.volumes)
  {
    id := engine.CreateContainer(tag, ports, false, []);
    var j := 0;
    while j < |networks|
      invariant 0 <= j <= |networks|
      invariant engine.containers == old(engine.containers) + [Run(tag, ports, Attached(networks[..j], name), false, [], false)]
      invariant engine.images == old(engine.images) && engine.networks == old(engine.networks)
      invariant engine.volumes == old(engine.volumes)
    {
      assert networks[..j + 1][..j] == networks[..j] && networks[..j + 1][j] == networks[j];
      assert Attached(networks[..j + 1], name)
          == Attached(networks[..j], name) + (if name in networks[j].members then [networks[j].name] else []);
      ghost var before := Run(tag, ports, Attached(networks[..j], name), false, [], false);
      if name in networks[j].members {
        engine.Connect(networks[j].name, id);
        UpdateLast(old(engine.containers), before, before.(networks := before.networks + [networks[j].name]));
      } else {
        assert before.networks + [] == before.networks;
      }
      j := j + 1;
    }
    assert networks[..j] == networks;
    engine.Start(id);
  }

  /** How the remaining-work form of the walk over services advances by one service. */
  lemma ServiceAdvance(custom: seq<ServiceType>, services: seq<Service>, k: nat, cursor: int,
                       out: seq<Service>, lines: seq<string>, total: ServiceWalk)
    requires k < |services|
    requires var rest := WalkServices(custom, services[k..], cursor);
      total == ServiceWalk(out + rest.services, rest.cursor, lines + rest.lines, rest.failure)
    ensures var (s, next) := Assign(services[k], cursor);
      match ServiceLine(custom, s)
      case Failure(e) => total == ServiceWalk(out + [s] + services[k + 1..], next, lines, Some(e))
      case Success(line) =>
        var rest := WalkServices(custom, services[k + 1..], next);
        total == ServiceWalk((out + [s]) + rest.services, rest.cursor, (lines + [line]) + rest.lines, rest.failure)
  {
    WalkServicesStep(custom, services, k, cursor);
    var (s, next) := Assign(services[k], cursor);
    Associative(out, [s], services[k + 1..]);
    assert lines + [] == lines;
    var rest := WalkServices(custom, services[k + 1..], next);
    Associative(out, [s], rest.services);
    if ServiceLine(custom, s).Success? {
      Associative(lines, [ServiceLine(custom, s).value], rest.lines);
    }
  }

  lemma PortsSnoc(out: seq<Service>, s: Service)
    requires AllAssigned(out) && Assigned(s)
    ensures AllAssigned(out + [s])
    ensures ServicePorts(out + [s]) == ServicePorts(out)[s.internalPort := PortOf(s)]
  {
    assert (out + [s])[..|out|] == out;
  }

  /** One step of WalkContainers from position i. */
  lemma WalkContainersStep(custom: seq<ServiceType>, cs: seq<Container>, i: nat, cursor: int)
    requires i < |cs|
    ensures var w := WalkServices(custom, cs[i].services, cursor); var c := cs[i].(services := w.services);
      WalkContainers(custom, cs[i..], cursor)
      == if w.failure.Some? then ContainerWalk([c] + cs[i + 1..], [], w.cursor, w.lines, w.failure)
         else
           var rest := WalkContainers(custom, cs[i + 1..], w.cursor);
           ContainerWalk([c] + rest.containers, [c] + rest.finished, rest.cursor, w.lines + rest.lines, rest.failure)
  {
    assert cs[i..][0] == cs[i] && cs[i..][1..] == cs[i + 1..];
  }

  lemma IdsStep(ids: seq<nat>, existing: nat, n: nat, id: nat)
    requires ids == Ids(existing, n) && id == existing + n
    ensures ids + [id] == Ids(existing, n + 1)
  {
  }

  lemma UpdateLast<T>(xs: seq<T>, x: T, y: T)
    ensures (xs + [x])[|xs| := y] == xs + [y]
  {
  }

  lemma Associative<T>(a: seq<T>, b: seq<T>, c: seq<T>)
    ensures a + (b + c) == (a + b) + c
  {
  }

  /** How the remaining-work form of the walk over containers advances by one container. */
  lemma WalkAdvance(custom: seq<ServiceType>, cs: seq<Container>, i: nat, cursor: int,
                    done: seq<Container>, lines: seq<string>, total: ContainerWalk)
    requires i < |cs|
    requires var rest := WalkContainers(custom, cs[i..], cursor);
      total == ContainerWalk(done + rest.containers, done + rest.finished, rest.cursor, lines + rest.lines, rest.failure)
    ensures var w := WalkServices(custom, cs[i].services, cursor); var c := cs[i].(services := w.services);
      && (w.failure.Some? ==>
            total == ContainerWalk(done + [c] + cs[i + 1..], done, w.cursor, lines + w.lines, w.failure))
      && (w.failure.None? ==>
            var rest := WalkContainers(custom, cs[i + 1..], w.cursor);
            total == ContainerWalk((done + [c]) + rest.containers, (done + [c]) + rest.finished, rest.cursor,
                                   (lines + w.lines) + rest.lines, rest.failure))
  {
    WalkContainersStep(custom, cs, i, cursor);
    var w := WalkServices(custom, cs[i].services, cursor);
    var c := cs[i].(services := w.services);
    if w.failure.Some? {
      Associative(done, [c], cs[i + 1..]);
      assert done + [] == done;
    } else {
      var rest := WalkContainers(custom, cs[i + 1..], w.cursor);
      Associative(done, [c], rest.containers);
      Associative(done, [c], rest.finished);
      Associative(lines, w.lines, rest.lines);
    }
  }

  lemma RunsSnoc(md5: Md5, ch: Challenge, networks: seq<Network>, cs: seq<Container>, c: Container)
    requires ContainersAssigned(cs) && AllAssigned(c.services)
    ensures ContainersAssigned(cs + [c])
    ensures ContainerRuns(md5, ch, networks, cs + [c])
            == ContainerRuns(md5, ch, networks, cs) + [Run(ContainerTag(md5, ch, c), PortMap(c), Attached(networks, c.name), false, [], true)]
  {
    assert forall i :: 0 <= i < |cs| ==> (cs + [c])[i] == cs[i];
    assert (cs + [c])[|cs|] == c;
    assert (cs + [c])[..|cs|] == cs;
  }

  /** Lines 562-605: serve each container's services, then start it. */
  method LaunchAll(config: ChallengeConfig, engine: Engine, md5: Md5, dep: Deployment)
    returns (r: Result<(seq<nat>, seq<string>), Error>)
    requires config.deployment == Some(dep)
    modifies config, engine
    ensures var w := WalkContainers(config.challenge.customServiceTypes, dep.containers, FirstPort);
      && config.deployment == Some(dep.(containers := w.containers))
      && engine.containers == old(engine.containers) + ContainerRuns(md5, config.challenge, dep.networks, w.finished)
      && r == (if w.failure.Some? then Failure(w.failure.value)
               else Success((Ids(|old(engine.containers)|, |w.finished|), w.lines)))
    ensures engine.images == old(engine.images) && engine.networks == old(engine.networks)
    ensures engine.volumes == old(engine.volumes)
  {
    var ch := config.challenge;
    var custom := ch.customServiceTypes;
    ghost var existing := |engine.containers|;
    ghost var total := WalkContainers(custom, dep.containers, FirstPort);
    var done: seq<Container> := [];
    var ids: seq<nat> := [];
    var lines: seq<string> := [];
    var cursor := FirstPort;
    var i := 0;
    assert dep.containers[0..] == dep.containers;
    assert dep.(containers := done + dep.containers[0..]) == dep;
    while i < |dep.containers|
      invariant 0 <= i <= |dep.containers|
      invariant |done| == i && ContainersAssigned(done)
      invariant config.deployment == Some(dep.(containers := done + dep.containers[i..]))
      invariant engine.containers == old(engine.containers) + ContainerRuns(md5, ch, dep.networks, done)
      invariant existing == |old(engine.containers)|
      invariant ids == Ids(existing, i)
      invariant var rest := WalkContainers(custom, dep.containers[i..], cursor);
        total == ContainerWalk(done + rest.containers, done + rest.finished, rest.cursor, lines + rest.lines, rest.failure)
      invariant engine.images == old(engine.images) && engine.networks == old(engine.networks)
      invariant engine.volumes == old(engine.volumes)
    {
      WalkAdvance(custom, dep.containers, i, cursor, done, lines, total);
      var w, id := ServeAndLaunch(config, engine, md5, dep, done, i, cursor);
      var updated := dep.containers[i].(services := w.services);
      if w.failure.Some? {
        return Failure(w.failure.value);
      }
      RunsSnoc(md5, ch, dep.networks, done, updated);
      Associative(old(engine.containers), ContainerRuns(md5, ch, dep.networks, done),
                  [Run(ContainerTag(md5, ch, updated), PortMap(updated), Attached(dep.networks, updated.name), false, [], true)]);
      IdsStep(ids, existing, i, id);
      done := done + [updated];
      ids := ids + [id];
      lines := lines + w.lines;
      cursor := w.cursor;
      i := i + 1;
    }
    assert dep.containers[i..] == [];
    assert done + [] == done && lines + [] == lines;
    return Success((ids, lines));
  }

  /**
   * One pass of the loop of lines 562-605: serve the services of container i,
   * write the ports back, and unless a service type is unknown, create and
   * start the container.
   */
  method ServeAndLaunch(config: ChallengeConfig, engine: Engine, md5: Md5, dep: Deployment,
                        done: seq<Container>, i: nat, cursor: int) returns (w: ServiceWalk, id: nat)
    requires i < |dep.containers|
    modifies config, engine
    ensures w == WalkServices(config.challenge.customServiceTypes, dep.containers[i].services, cursor)
    ensures var updated := dep.containers[i].(services := w.services);
      && config.deployment == Some(dep.(containers := done + [updated] + dep.containers[i + 1..]))
      && (w.failure.Some? ==> engine.containers == old(engine.containers))
      && (w.failure.None? ==>
            AllAssigned(updated.services) && id == |old(engine.containers)|
            && engine.containers == old(engine.containers)
               + [Run(ContainerTag(md5, config.challenge, updated), PortMap(updated), Attached(dep.networks, updated.name), false, [], true)])
    ensures engine.images == old(engine.images) && engine.networks == old(engine.networks)
    ensures engine.volumes == old(engine.volumes)
  {
    var c := dep.containers[i];
    var ports;
    w, ports := ServeServices(config.challenge.customServiceTypes, c.services, cursor);
    var updated := c.(services := w.services);
    config.deployment := Some(dep.(containers := done + [updated] + dep.containers[i + 1..]));
    if w.failure.Some? {
      return w, 0;
    }
    ports := AddExtras(ports, c.extraExposedPorts);
    id := LaunchContainer(engine, ContainerTag(md5, config.challenge, c), ports, dep.networks, c.name);
  }

  /** start_chall(config): the handles of the started containers and the display lines. */
  method StartChall(config: ChallengeConfig, engine: Engine, md5: Md5) returns (r: Result<(seq<nat>, seq<string>), Error>)
    modifies config, engine
    ensures var s := StartChallenge(md5, config.challenge, old(config.deployment), engine.reachable, TagNames(old(engine.images)),
                                    old(engine.networks), old(engine.volumes), |old(engine.containers)|);
      r == s.result && config.deployment == s.deployment && engine.containers == old(engine.containers) + s.runs
    ensures engine.images == old(engine.images) && engine.networks == old(engine.networks)
    ensures engine.volumes == old(engine.volumes)
  {
    if config.deployment.None? || config.deployment.value.containers == [] {
      return Success(([], []));
    }
    var refusal := CheckStart(engine, md5, config.challenge, config.deployment.value);
    if refusal.Some? {
      return Failure(refusal.value);
    }
    r := LaunchAll(config, engine, md5, config.deployment.value);
  }

  /** Lines 520-554 on the engine. */
  method CheckStart(engine: Engine, md5: Md5, ch: Challenge, dep: Deployment) returns (refusal: Option<Error>)
    ensures refusal == ChallRefusal(md5, ch, dep, engine.reachable, TagNames(engine.images), engine.networks, engine.volumes)
  {
    if dep.kind != "docker" {
      return Some(UnsupportedDeploymentType(dep.kind));
    }
    if !engine.reachable {
      return Some(EngineUnreachable);
    }
    var tagList := TagNames(engine.images);
    refusal := CheckPrerequisites(md5, ch, dep, tagList, engine.networks, engine.volumes);
  }

  // ------------------------------------------------------- start_solution

  /** What start_solution returns, the deployment it leaves behind and the containers it adds. */
  datatype SolutionStart = SolutionStart(result: Result<Option<nat>, Error>, deployment: Option<Deployment>, runs: seq<Run>)

  /**
   * Lines 624-649 as written: why start_solution stops before it serves any
   * service. The predefined-services loop names a variable that is only bound
   * later (line 646), and the containers loop reads the deployment without
   * checking that there is one (line 649).
   */
  function SolutionRefusal(md5: Md5, ch: Challenge, dep: Option<Deployment>, reachable: bool, tags: seq<string>): (r: Option<Error>)
    ensures r.None? ==> dep.Some?
  {
    var tag := SolutionTag(md5, ch.title, ch.challengeId);
    if !reachable then Some(EngineUnreachable)
    else if tag !in tags then Some(MissingSolutionImage(tag))
    else if ch.predefinedServices != [] then Some(UnboundLocal("service"))
    else if dep.None? then Some(NoDeployment)
    else None
  }

  /** start_solution as written, from the engine's tag list and number of containers. */
  function StartSolutionAsWritten(md5: Md5, ch: Challenge, dep: Option<Deployment>, reachable: bool,
                                  tags: seq<string>, existing: nat): SolutionStart
  {
    if ch.solutionImage == "" then SolutionStart(Success(None), dep, [])
    else
      match SolutionRefusal(md5, ch, dep, reachable, tags)
      case Some(e) => SolutionStart(Failure(e), dep, [])
      case None =>
        var w := WalkContainers(ch.customServiceTypes, dep.value.containers, FirstPort);
        var updated := Some(dep.value.(containers := w.containers));
        if w.failure.Some? then SolutionStart(Failure(w.failure.value), updated, [])
        else SolutionStart(Success(Some(existing)), updated,
                           [Run(SolutionTag(md5, ch.title, ch.challengeId), map[], [], true, w.lines, true)])
  }

  /** Lines 649-664 without starting anything: serve the services of every container. */
  method ServeAll(config: ChallengeConfig, custom: seq<ServiceType>, dep: Deployment) returns (walk: ContainerWalk)
    requires config.deployment == Some(dep)
    modifies config
    ensures walk == WalkContainers(custom, dep.containers, FirstPort)
    ensures config.deployment == Some(dep.(containers := walk.containers))
  {
    ghost var total := WalkContainers(custom, dep.containers, FirstPort);
    var done: seq<Container> := [];
    var lines: seq<string> := [];
    var cursor := FirstPort;
    var i := 0;
    assert dep.containers[0..] == dep.containers;
    assert dep.(containers := done + dep.containers[0..]) == dep;
    while i < |dep.containers|
      invariant Serving(custom, dep.containers, total, done, lines, cursor, i)
      invariant config.deployment == Some(dep.(containers := done + dep.containers[i..]))
    {
      var next := ServeContainer(config, custom, dep, total, done, lines, cursor, i);
      if next.failure.Some? {
        return next;
      }
      done, lines, cursor := next.containers, next.lines, next.cursor;
      i := i + 1;
    }
    assert dep.containers[i..] == [];
    assert done + [] == done && lines + [] == lines;
    return ContainerWalk(done, done, cursor, lines, None);
  }

  /** The loop state of ServeAll after `i` containers: what is left of the walk completes `total`. */
  ghost predicate Serving(custom: seq<ServiceType>, cs: seq<Container>, total: ContainerWalk,
                          done: seq<Container>, lines: seq<string>, cursor: int, i: nat)
  {
    && i <= |cs| && |done| == i
    && var rest := WalkContainers(custom, cs[i..], cursor);
       total == ContainerWalk(done + rest.containers, done + rest.finished, rest.cursor, lines + rest.lines, rest.failure)
  }

  /** One container served: either the walk stops here with `total`, or the loop state advances. */
  lemma ServingStep(custom: seq<ServiceType>, cs: seq<Container>, total: ContainerWalk,
                    done: seq<Container>, lines: seq<string>, cursor: int, i: nat, w: ServiceWalk)
    requires Serving(custom, cs, total, done, lines, cursor, i) && i < |cs|
    requires w == WalkServices(custom, cs[i].services, cursor)
    ensures w.failure.Some? ==>
              total == ContainerWalk(done + [cs[i].(services := w.services)] + cs[i + 1..], done, w.cursor, lines + w.lines, w.failure)
    ensures w.failure.None? ==>
              Serving(custom, cs, total, done + [cs[i].(services := w.services)], lines + w.lines, w.cursor, i + 1)
  {
    WalkAdvance(custom, cs, i, cursor, done, lines, total);
  }

  /**
   * Lines 650-660 for container i: serve its services and write them back into the
   * configuration. On a failure the result is the whole walk; otherwise it is the walk
   * over the first i + 1 containers.
   */
  method ServeContainer(config: ChallengeConfig, custom: seq<ServiceType>, dep: Deployment, ghost total: ContainerWalk,
                        done: seq<Container>, lines: seq<string>, cursor: int, i: nat) returns (next: ContainerWalk)
    requires i < |dep.containers| && Serving(custom, dep.containers, total, done, lines, cursor, i)
    modifies config
    ensures next.failure.Some? ==> next == total && config.deployment == Some(dep.(containers := next.containers))
    ensures next.failure.None? ==> Serving(custom, dep.containers, total, next.containers, next.lines, next.cursor, i + 1)
    ensures next.failure.None? ==> config.deployment == Some(dep.(containers := next.containers + dep.containers[i + 1..]))
  {
    var w, unusedPorts := ServeServices(custom, dep.containers[i].services, cursor);  // start_solution builds no port map
    ServingStep(custom, dep.containers, total, done, lines, cursor, i, w);
    var updated := dep.containers[i].(services := w.services);
    config.deployment := Some(dep.(containers := done + [updated] + dep.containers[i + 1..]));
    if w.failure.Some? {
      return ContainerWalk(done + [updated] + dep.containers[i + 1..], done, w.cursor, lines + w.lines, w.failure);
    }
    return ContainerWalk(done + [updated], done + [updated], w.cursor, lines + w.lines, None);
  }

  /** start_solution(config): the handle of the started solution container, if there is a solution image. */
  method StartSolution(config: ChallengeConfig, engine: Engine, md5: Md5) returns (r: Result<Option<nat>, Error>)
    modifies config, engine
    ensures var s := StartSolutionAsWritten(md5, config.challenge, old(config.deployment), engine.reachable,
                                            TagNames(old(engine.images)), |old(engine.containers)|);
      r == s.result && config.deployment == s.deployment && engine.containers == old(engine.containers) + s.runs
    ensures engine.images == old(engine.images) && engine.networks == old(engine.networks)
    ensures engine.volumes == old(engine.volumes)
  {
    if config.challenge.solutionImage == "" {
      return Success(None);
    }
    var refusal := CheckSolution(config, engine, md5);
    if refusal.Some? {
      return Failure(refusal.value);
    }
    var walk := ServeAll(config, config.challenge.customServiceTypes, config.deployment.value);
    if walk.failure.Some? {
      return Failure(walk.failure.value);
    }
    var tag := SolutionTag(md5, config.challenge.title, config.challenge.challengeId);
    var id := engine.CreateContainer(tag, map[], true, walk.lines);
    ghost var created := Run(tag, map[], [], true, walk.lines, false);
    engine.Start(id);
    UpdateLast(old(engine.containers), created, created.(started := true));
    return Success(Some(id));
  }

  /** Lines 624-649 on the engine and the configuration. */
  method CheckSolution(config: ChallengeConfig, engine: Engine, md5: Md5) returns (refusal: Option<Error>)
    ensures refusal == SolutionRefusal(md5, config.challenge, config.deployment, engine.reachable, TagNames(engine.images))
  {
    if !engine.reachable {
      return Some(EngineUnreachable);
    }
    var tagList := TagNames(engine.images);
    var ch := config.challenge;
    var tag := SolutionTag(md5, ch.title, ch.challengeId);
    if tag !in tagList {
      return Some(MissingSolutionImage(tag));
    }
    if ch.predefinedServices != [] {
      return Some(UnboundLocal("service"));
    }
    if config.deployment.None? {
      return Some(NoDeployment);
    }
    return None;
  }
}
