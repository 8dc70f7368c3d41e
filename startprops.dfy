/**
 * What the start phase promises as a whole: when start_chall and
 * start_solution succeed, what they leave behind, that starting again reuses
 * the ports handed out the first time, and that a successful build leaves
 * everything start_chall checks for in place.
 */
module StartProperties {
  import opened Wrappers
  import opened Errors
  import opened DockerNames
  import opened Config
  import opened Ports
  import opened ContainerEngine
  import opened Build
  import opened Start

  /** The i-th run is the i-th finished container: its tag, its port map, its networks, started. */
  lemma ContainerRunsAt(md5: Md5, ch: Challenge, networks: seq<Network>, cs: seq<Container>)
    requires ContainersAssigned(cs)
    ensures forall i :: 0 <= i < |cs| ==>
      ContainerRuns(md5, ch, networks, cs)[i]
      == Run(ContainerTag(md5, ch, cs[i]), PortMap(cs[i]), Attached(networks, cs[i].name), false, [], true)
  {
    forall i | 0 <= i < |cs|
      ensures ContainerRuns(md5, ch, networks, cs)[i]
           == Run(ContainerTag(md5, ch, cs[i]), PortMap(cs[i]), Attached(networks, cs[i].name), false, [], true)
    {
      ContainerRunAt(md5, ch, networks, cs, i);
    }
  }

  /** The same for the run at position i, by induction on the length of the list. */
  lemma {:induction false} ContainerRunAt(md5: Md5, ch: Challenge, networks: seq<Network>, cs: seq<Container>, i: nat)
    requires ContainersAssigned(cs) && i < |cs|
    ensures ContainerRuns(md5, ch, networks, cs)[i]
         == Run(ContainerTag(md5, ch, cs[i]), PortMap(cs[i]), Attached(networks, cs[i].name), false, [], true)
    decreases |cs|
  {
    var n := |cs| - 1;
    var front := cs[..n];
    assert forall k :: 0 <= k < n ==> front[k] == cs[k];
    assert cs == front + [cs[n]];
    RunsSnoc(md5, ch, networks, front, cs[n]);
    if i < n {
      ContainerRunAt(md5, ch, networks, front, i);
    }
  }

  /** The tags checked for a deployment depend on the containers' names only. */
  lemma SameNamesSameTags(md5: Md5, ch: Challenge, a: seq<Container>, b: seq<Container>)
    requires |a| == |b| && forall i :: 0 <= i < |a| ==> a[i].name == b[i].name
    ensures ContainerTags(md5, ch, a) == ContainerTags(md5, ch, b)
  {
  }

  /** The walk start_chall performs over a deployment's containers. */
  function ChallWalk(ch: Challenge, dep: Deployment): ContainerWalk {
    WalkContainers(ch.customServiceTypes, dep.containers, FirstPort)
  }

  /**
   * start_chall succeeds exactly when there is nothing to start, or the
   * deployment is of type docker, the engine is reachable, every derived tag,
   * network and volume exists and every service type is known. When it refuses
   * before the services, it touches neither the configuration nor the engine.
   */
  lemma StartChallSucceedsExactly(md5: Md5, ch: Challenge, dep: Option<Deployment>, reachable: bool, tags: seq<string>,
                                  networks: seq<string>, volumes: seq<string>, existing: nat)
    ensures var s := StartChallenge(md5, ch, dep, reachable, tags, networks, volumes, existing);
      && (s.result.Success? <==>
            dep.None? || dep.value.containers == []
            || (dep.value.kind == "docker" && reachable && Prerequisite(md5, ch, dep.value, tags, networks, volumes).None?
                && KnownTypes(ch.customServiceTypes, dep.value.containers)))
      && (dep.None? || dep.value.containers == [] ==> s.result == Success(([], [])) && s.runs == [])
      && (dep.Some? && ChallRefusal(md5, ch, dep.value, reachable, tags, networks, volumes).Some? ==>
            s.deployment == dep && s.runs == [])
  {
    if dep.Some? && dep.value.containers != [] {
      ContainerWalkSucceedsExactly(ch.customServiceTypes, dep.value.containers, FirstPort);
    }
  }

  /**
   * A successful start_chall with containers hands out the ports exactly as
   * the plain allocation does (50000, 50001, … in declared order across all
   * containers), leaves every service with a port, starts one container per
   * declared container, with its derived tag, port map and networks, and
   * shows one line per service.
   */
  lemma StartChallStartsAll(md5: Md5, ch: Challenge, dep: Deployment, reachable: bool, tags: seq<string>,
                            networks: seq<string>, volumes: seq<string>, existing: nat)
    requires dep.containers != []
    requires StartChallenge(md5, ch, Some(dep), reachable, tags, networks, volumes, existing).result.Success?
    ensures var s := StartChallenge(md5, ch, Some(dep), reachable, tags, networks, volumes, existing);
      var cs := s.deployment.value.containers;
      && s.deployment == Some(dep.(containers := cs))
      && cs == AllocateContainers(dep.containers, FirstPort).0
      && AllServices(cs) == AllocateServices(AllServices(dep.containers), FirstPort).0
      && ContainersAssigned(cs)
      && |s.runs| == |dep.containers|
      && s.result.value.0 == Ids(existing, |dep.containers|)
      && |s.result.value.1| == |AllServices(dep.containers)|
      && forall i :: 0 <= i < |dep.containers| ==>
           s.runs[i] == Run(ContainerTag(md5, ch, dep.containers[i]), PortMap(cs[i]),
                            Attached(dep.networks, dep.containers[i].name), false, [], true)
  {
    var custom := ch.customServiceTypes;
    var w := ChallWalk(ch, dep);
    var s := StartChallenge(md5, ch, Some(dep), reachable, tags, networks, volumes, existing);
    assert w.failure.None? && s.deployment == Some(dep.(containers := w.containers))
        && s.runs == ContainerRuns(md5, ch, dep.networks, w.finished)
        && s.result.value == (Ids(existing, |w.finished|), w.lines) by {
      assert ChallRefusal(md5, ch, dep, reachable, tags, networks, volumes).None?;
    }
    ContainerWalkIsAllocation(custom, dep.containers, FirstPort);
    AllocationAcrossContainers(dep.containers, FirstPort);
    ContainerLineCount(custom, dep.containers, FirstPort);
    WalkKeepsContainers(custom, dep.containers, FirstPort);
    ContainerRunsAt(md5, ch, dep.networks, w.finished);
    assert forall i :: 0 <= i < |dep.containers| ==> w.finished[i].name == dep.containers[i].name;
  }

  /**
   * Starting the challenge again from the configuration a successful start
   * left behind assigns no new port and starts the same containers, with the
   * same display lines; only the handles move on.
   */
  lemma RestartReusesPorts(md5: Md5, ch: Challenge, dep: Deployment, reachable: bool, tags: seq<string>,
                           networks: seq<string>, volumes: seq<string>, existing: nat, again: nat)
    requires dep.containers != []
    requires StartChallenge(md5, ch, Some(dep), reachable, tags, networks, volumes, existing).result.Success?
    ensures var s := StartChallenge(md5, ch, Some(dep), reachable, tags, networks, volumes, existing);
      StartChallenge(md5, ch, s.deployment, reachable, tags, networks, volumes, again)
      == ChallStart(Success((Ids(again, |dep.containers|), s.result.value.1)), s.deployment, s.runs)
  {
    var custom := ch.customServiceTypes;
    var w := ChallWalk(ch, dep);
    var next := dep.(containers := w.containers);
    assert ChallRefusal(md5, ch, dep, reachable, tags, networks, volumes).None?;
    assert ChallRefusal(md5, ch, next, reachable, tags, networks, volumes).None? by {
      WalkKeepsContainers(custom, dep.containers, FirstPort);
      SameNamesSameTags(md5, ch, w.containers, dep.containers);
      assert Prerequisite(md5, ch, next, tags, networks, volumes) == Prerequisite(md5, ch, dep, tags, networks, volumes);
    }
    assert ChallWalk(ch, next) == ContainerWalk(w.containers, w.containers, FirstPort, w.lines, None) by {
      WalkContainersAgain(custom, dep.containers, FirstPort, FirstPort);
    }
    assert w.finished == w.containers;
    assert next.(containers := w.containers) == next;
  }

  /**
   * start_solution run after a successful start_chall, on the configuration
   * it left behind, assigns nothing new and hands the solution container the
   * challenge's display lines as its arguments.
   */
  lemma SolutionAfterChallenge(md5: Md5, ch: Challenge, dep: Deployment, reachable: bool, tags: seq<string>,
                               networks: seq<string>, volumes: seq<string>, existing: nat,
                               solutionTags: seq<string>, again: nat)
    requires dep.containers != [] && ch.solutionImage != ""
    requires StartChallenge(md5, ch, Some(dep), reachable, tags, networks, volumes, existing).result.Success?
    requires var s := StartChallenge(md5, ch, Some(dep), reachable, tags, networks, volumes, existing);
      SolutionRefusal(md5, ch, s.deployment, reachable, solutionTags).None?
    ensures var s := StartChallenge(md5, ch, Some(dep), reachable, tags, networks, volumes, existing);
      StartSolutionAsWritten(md5, ch, s.deployment, reachable, solutionTags, again)
      == SolutionStart(Success(Some(again)), s.deployment,
                       [Run(SolutionTag(md5, ch.title, ch.challengeId), map[], [], true, s.result.value.1, true)])
  {
    var custom := ch.customServiceTypes;
    var w := ChallWalk(ch, dep);
    var next := dep.(containers := w.containers);
    WalkContainersAgain(custom, dep.containers, FirstPort, FirstPort);
    assert next.(containers := w.containers) == next;
  }

  /**
   * start_solution as written succeeds exactly when there is no solution
   * image, or the engine is reachable, the solution tag exists, there are no
   * predefined services, there is a deployment and every service type is
   * known; on success it starts nothing or exactly one container, on the host
   * network, with the solution tag.
   */
  lemma SolutionSucceedsExactly(md5: Md5, ch: Challenge, dep: Option<Deployment>, reachable: bool,
                                tags: seq<string>, existing: nat)
    ensures var s := StartSolutionAsWritten(md5, ch, dep, reachable, tags, existing);
      && (s.result.Success? <==>
            ch.solutionImage == ""
            || (reachable && SolutionTag(md5, ch.title, ch.challengeId) in tags && ch.predefinedServices == []
                && dep.Some? && KnownTypes(ch.customServiceTypes, dep.value.containers)))
      && (s.result.Success? ==> (s.result.value.None? <==> ch.solutionImage == ""))
      && (s.result == Success(None) ==> s.runs == [] && s.deployment == dep)
      && (s.result.Success? && s.result.value.Some? ==>
            s.result.value.value == existing && |s.runs| == 1 && s.runs[0].hostNetwork && s.runs[0].started
            && s.runs[0].image == SolutionTag(md5, ch.title, ch.challengeId) && s.runs[0].ports == map[])
  {
    if ch.solutionImage != "" && SolutionRefusal(md5, ch, dep, reachable, tags).None? {
      ContainerWalkSucceedsExactly(ch.customServiceTypes, dep.value.containers, FirstPort);
    }
  }

  /**
   * The two defects of start_solution as written: any predefined service
   * fails on the unbound `service` (line 646), and a missing deployment fails
   * on indexing None (line 649); neither starts a container.
   */
  lemma SolutionDefects(md5: Md5, ch: Challenge, dep: Option<Deployment>, reachable: bool,
                        tags: seq<string>, existing: nat)
    requires ch.solutionImage != "" && reachable && SolutionTag(md5, ch.title, ch.challengeId) in tags
    ensures var s := StartSolutionAsWritten(md5, ch, dep, reachable, tags, existing);
      && (ch.predefinedServices != [] ==> s.result == Failure(UnboundLocal("service")) && s.runs == [])
      && (ch.predefinedServices == [] && dep.None? ==> s.result == Failure(NoDeployment) && s.runs == [])
  {
  }

  /** Listed tags stay listed when more images are added, for a whole list of tags at once. */
  lemma AllStillListed(names: seq<string>, images: seq<seq<string>>, more: seq<seq<string>>)
    requires forall i :: 0 <= i < |names| ==> names[i] in TagNames(images)
    ensures forall i :: 0 <= i < |names| ==> names[i] in TagNames(images + more)
  {
    forall i | 0 <= i < |names| ensures names[i] in TagNames(images + more) {
      TagNamesGrow(images, more, names[i]);
    }
  }

  /**
   * The build and start phases agree on the derived tags: after a successful
   * build of a deployment whose images are all directories, start_chall's
   * checks find every image, network and volume, and a solution image built
   * from a directory is listed under the tag start_solution looks for.
   */
  lemma {:induction false} BuildEnablesStart(md5: Md5, ch: Challenge, dep: Deployment, reachable: bool, before: Store,
                                             sources: Sources, runScript: Script)
    requires BuildChallenge(md5, ch, Some(dep), reachable, before, sources, runScript).0.Success?
    requires forall i :: 0 <= i < |dep.containers| ==> sources(dep.containers[i].image).Directory?
    ensures var after := BuildChallenge(md5, ch, Some(dep), reachable, before, sources, runScript).1;
      && ChallRefusal(md5, ch, dep, reachable, TagNames(after.images), after.networks, after.volumes).None?
      && (ch.solutionImage != "" && sources(ch.solutionImage).Directory? ==>
            SolutionTag(md5, ch.title, ch.challengeId) in TagNames(after.images))
  {
    var mid := BuildDeployment(md5, ch, dep, before, sources).1;
    BuildStoreShape(md5, ch, dep, reachable, before, sources, runScript);
    DeploymentReady(md5, ch, dep, before, sources, SolutionBuilt(md5, ch, sources));
    if ch.solutionImage != "" && sources(ch.solutionImage).Directory? {
      var tag := SolutionTag(md5, ch.title, ch.challengeId);
      SolutionTagShape(md5, ch.title, ch.challengeId);
      TagHasNoColon(tag);
      BuiltTagListed(mid.images, tag);
    }
  }

  /**
   * After the deployment part of the build has built every container image
   * from a directory, every image, network and volume start_chall checks for
   * is there, whatever images are added afterwards.
   */
  lemma DeploymentReady(md5: Md5, ch: Challenge, dep: Deployment, before: Store, sources: Sources,
                        extra: seq<seq<string>>)
    requires BuildContainers(md5, ch, dep.containers, sources).0.None?
    requires forall i :: 0 <= i < |dep.containers| ==> sources(dep.containers[i].image).Directory?
    ensures var mid := BuildDeployment(md5, ch, dep, before, sources).1;
      Prerequisite(md5, ch, dep, TagNames(mid.images + extra), mid.networks, mid.volumes).None?
  {
    var mid := BuildDeployment(md5, ch, dep, before, sources).1;
    var built := BuildContainers(md5, ch, dep.containers, sources).1;
    assert mid.images == before.images + built;
    assert forall i :: 0 <= i < |dep.containers| ==> ContainerTag(md5, ch, dep.containers[i]) in TagNames(mid.images + extra) by {
      BuiltContainersListed(md5, ch, dep.containers, sources, before.images);
      AllStillListed(ContainerTags(md5, ch, dep.containers), mid.images, extra);
    }
    var names := NetworkNames(dep.networks);
    assert forall i :: 0 <= i < |dep.networks| ==> dep.networks[i].name in mid.networks by {
      assert forall i :: 0 <= i < |dep.networks| ==> dep.networks[i].name == names[i];
    }
  }

  /** The solution image build_chall adds after the deployment, if any. */
  function SolutionBuilt(md5: Md5, ch: Challenge, sources: Sources): seq<seq<string>> {
    if ch.solutionImage != "" then ImagesBuilt(sources(ch.solutionImage), SolutionTag(md5, ch.title, ch.challengeId)) else []
  }

  /** A successful build with a deployment: the deployment's store, then the solution image. */
  lemma BuildStoreShape(md5: Md5, ch: Challenge, dep: Deployment, reachable: bool, before: Store,
                        sources: Sources, runScript: Script)
    requires BuildChallenge(md5, ch, Some(dep), reachable, before, sources, runScript).0.Success?
    ensures var after := BuildChallenge(md5, ch, Some(dep), reachable, before, sources, runScript).1;
      var mid := BuildDeployment(md5, ch, dep, before, sources);
      && dep.kind == "docker" && reachable && mid.0.None?
      && (ch.solutionImage != "" ==> ImageBuildError(sources(ch.solutionImage)).None?)
      && mid.1.images == before.images + BuildContainers(md5, ch, dep.containers, sources).1
      && after == mid.1.(images := mid.1.images + SolutionBuilt(md5, ch, sources))
  {
  }
}
