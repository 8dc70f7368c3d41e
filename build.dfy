/**
 * The build phase: build_image (lines 374-415) and build_chall (lines 418-500).
 * What an image path is on disk, and what the engine streams back while it
 * builds a directory, is given by a `Sources` function; the build script is
 * given by its exit code for a path and a flag.
 */
module Build {
  import opened Wrappers
  import opened Errors
  import opened PyStrings
  import opened DockerNames
  import opened Flags
  import opened Config
  import opened ContainerEngine

  /** One decoded entry of the build stream, or the engine's APIError while streaming. */
  datatype Chunk = Output(text: string) | ErrorEntry(message: string) | Progress | ApiFailure(explanation: string)

  /** What an image path names: a directory (with the engine's answer to building it), a regular file, or neither. */
  datatype ImageSource = Directory(stream: seq<Chunk>) | ArchiveFile | ExistingImage

  type Sources = string -> ImageSource

  /** The exit code of `<script> <flag>`. */
  type Script = (string, string) -> int

  predicate Fatal(c: Chunk) {
    c.ErrorEntry? || c.ApiFailure?
  }

  /** The message of the first fatal entry of a stream, if any (lines 397-406). */
  function StreamError(stream: seq<Chunk>): (r: Option<string>)
    decreases |stream|
  {
    if stream == [] then None
    else
      match stream[0]
      case ErrorEntry(m) => Some(m)
      case ApiFailure(e) => Some(e)
      case _ => StreamError(stream[1..])
  }

  /** A stream has no error exactly when no entry is fatal, and otherwise the first fatal entry's message. */
  lemma {:induction false} StreamErrorFirst(stream: seq<Chunk>)
    ensures var r := StreamError(stream);
      && (r.None? <==> forall i :: 0 <= i < |stream| ==> !Fatal(stream[i]))
      && (r.Some? ==> exists i :: 0 <= i < |stream| && Fatal(stream[i])
                        && r.value == (if stream[i].ErrorEntry? then stream[i].message else stream[i].explanation)
                        && forall j :: 0 <= j < i ==> !Fatal(stream[j]))
    decreases |stream|
  {
    if stream != [] && !Fatal(stream[0]) {
      StreamErrorFirst(stream[1..]);
      assert forall i :: 1 <= i < |stream| ==> stream[1..][i - 1] == stream[i];
      var r := StreamError(stream);
      if r.Some? {
        var k :| 0 <= k < |stream[1..]| && Fatal(stream[1..][k])
                 && r.value == (if stream[1..][k].ErrorEntry? then stream[1..][k].message else stream[1..][k].explanation)
                 && forall j :: 0 <= j < k ==> !Fatal(stream[1..][j]);
        assert stream[k + 1] == stream[1..][k];
      }
    }
  }

  /** The error build_image raises for a source, if any. */
  function ImageBuildError(source: ImageSource): Option<Error> {
    match source
    case Directory(stream) => (match StreamError(stream) case None => None case Some(m) => Some(BuildFailed(m)))
    case ArchiveFile => Some(ArchiveImportNotImplemented)
    case ExistingImage => None
  }

  /** The images build_image adds: one, tagged `tag:latest`, for a directory built without error. */
  function ImagesBuilt(source: ImageSource, tag: string): seq<seq<string>> {
    if source.Directory? && StreamError(source.stream).None? then [[tag + ":latest"]] else []
  }

  /** build_image(image, tag, client) */
  method BuildImage(image: string, tag: string, engine: Engine, sources: Sources) returns (failure: Option<Error>)
    modifies engine
    ensures failure == ImageBuildError(sources(image))
    ensures engine.images == old(engine.images) + ImagesBuilt(sources(image), tag)
    ensures engine.networks == old(engine.networks) && engine.volumes == old(engine.volumes)
    ensures engine.containers == old(engine.containers)
  {
    match sources(image)
    case Directory(stream) =>
      var i := 0;
      while i < |stream|
        invariant 0 <= i <= |stream|
        invariant StreamError(stream[i..]) == StreamError(stream)
      {
        match stream[i]
        case ErrorEntry(m) =>
          return Some(BuildFailed(m));
        case ApiFailure(e) =>
          return Some(BuildFailed(e));
        case _ =>
        assert stream[i..][1..] == stream[i + 1..];
        i := i + 1;
      }
      engine.TagImage(tag);
      failure := None;
    case ArchiveFile =>
      failure := Some(ArchiveImportNotImplemented);
    case ExistingImage =>
      failure := None;
  }

  // ------------------------------------------------------- the whole phase

  /** The engine state the build phase changes. */
  datatype Store = Store(images: seq<seq<string>>, networks: seq<string>, volumes: seq<string>)

  /** The tag of a container's image (lines 466-470, 530-534). */
  function ContainerTag(md5: Md5, ch: Challenge, c: Container): string {
    DockerName(md5, ch.title, c.name, ch.challengeId)
  }

  /** Lines 462-472: build the containers' images in order, stopping at the first failure. */
  function BuildContainers(md5: Md5, ch: Challenge, cs: seq<Container>, sources: Sources): (r: (Option<Error>, seq<seq<string>>))
    decreases |cs|
  {
    if cs == [] then (None, [])
    else
      var source := sources(cs[0].image);
      var built := ImagesBuilt(source, ContainerTag(md5, ch, cs[0]));
      match ImageBuildError(source)
      case Some(e) => (Some(e), built)
      case None =>
        var rest := BuildContainers(md5, ch, cs[1..], sources);
        (rest.0, built + rest.1)
  }

  /** The names of `names` that `existing` does not hold, in order: what lines 474-488 create. */
  function Absent(names: seq<string>, existing: seq<string>): (r: seq<string>)
    ensures forall x :: x in r <==> x in names && x !in existing
  {
    if names == [] then []
    else
      var n := |names| - 1;
      var front := Absent(names[..n], existing);
      assert names == names[..n] + [names[n]];
      front + (if names[n] in existing then [] else [names[n]])
  }

  /** The deployment part of build_chall, from the state it starts in. */
  function BuildDeployment(md5: Md5, ch: Challenge, dep: Deployment, before: Store, sources: Sources): (Option<Error>, Store) {
    var (failure, built) := BuildContainers(md5, ch, dep.containers, sources);
    var images := before.images + built;
    if failure.Some? then (failure, before.(images := images))
    else (None, Store(images,
                      before.networks + Absent(NetworkNames(dep.networks), before.networks),
                      before.volumes + Absent(dep.volumes, before.volumes)))
  }

  /** build_chall as a whole: its result and the engine state it leaves. */
  function BuildChallenge(md5: Md5, ch: Challenge, dep: Option<Deployment>, reachable: bool, before: Store,
                          sources: Sources, runScript: Script): (Result<bool, Error>, Store)
  {
    if dep.Some? && dep.value.kind != "docker" then (Failure(UnsupportedDeploymentType(dep.value.kind)), before)
    else if dep.Some? && !reachable then (Failure(EngineUnreachable), before)
    else if ch.buildScript.Some? && runScript(ch.buildScript.value, GetFirstTextFlag(ch.format, ch.flags)) != 0 then
      (Failure(BuildScriptFailed(runScript(ch.buildScript.value, GetFirstTextFlag(ch.format, ch.flags)))), before)
    else
      var (failure, after) := if dep.Some? then BuildDeployment(md5, ch, dep.value, before, sources) else (None, before);
      if failure.Some? then (Failure(failure.value), after)
      else if ch.solutionImage == "" then (Success(ch.buildScript.Some? || dep.Some?), after)
      else if dep.None? then (Failure(UnboundLocal("client")), after)
      else
        var source := sources(ch.solutionImage);
        var tag := SolutionTag(md5, ch.title, ch.challengeId);
        var state := after.(images := after.images + ImagesBuilt(source, tag));
        match ImageBuildError(source)
        case Some(e) => (Failure(e), state)
        case None => (Success(true), state)
  }

  /** build_chall(config) */
  method BuildChall(config: ChallengeConfig, engine: Engine, md5: Md5, sources: Sources, runScript: Script)
    returns (r: Result<bool, Error>)
    modifies engine
    ensures var before := Store(old(engine.images), old(engine.networks), old(engine.volumes));
      (r, Store(engine.images, engine.networks, engine.volumes))
      == BuildChallenge(md5, config.challenge, config.deployment, engine.reachable, before, sources, runScript)
    ensures engine.containers == old(engine.containers)
  {
    var ch := config.challenge;
    var haveClient := false;
    if config.deployment.Some? {
      if config.deployment.value.kind != "docker" {
        return Failure(UnsupportedDeploymentType(config.deployment.value.kind));
      }
      if !engine.reachable {
        return Failure(EngineUnreachable);
      }
      haveClient := true;
    }

    var flag := "";
    if ch.buildScript.Some? || config.deployment.Some? {
      flag := GetFirstTextFlag(ch.format, ch.flags);
    }

    var didSomething := false;
    if ch.buildScript.Some? {
      didSomething := true;
      var code := runScript(ch.buildScript.value, flag);
      if code != 0 {
        return Failure(BuildScriptFailed(code));
      }
    }

    if config.deployment.Some? {
      didSomething := true;
      var dep := config.deployment.value;
      var failure := BuildAllContainers(engine, md5, ch, dep.containers, sources);
      if failure.Some? {
        return Failure(failure.value);
      }
      var networkList := engine.networks;
      CreateAbsentNetworks(engine, NetworkNames(dep.networks), networkList);
      var volumeList := engine.volumes;
      CreateAbsentVolumes(engine, dep.volumes, volumeList);
    }

    if ch.solutionImage != "" {
      didSomething := true;
      if !haveClient {
        return Failure(UnboundLocal("client"));
      }
      var failure := BuildImage(ch.solutionImage, SolutionTag(md5, ch.title, ch.challengeId), engine, sources);
      if failure.Some? {
        return Failure(failure.value);
      }
    }
    return Success(didSomething);
  }

  /** One step of BuildContainers from position i. */
  lemma BuildContainersStep(md5: Md5, ch: Challenge, cs: seq<Container>, i: nat, sources: Sources)
    requires i < |cs|
    ensures var source := sources(cs[i].image);
      var built := ImagesBuilt(source, ContainerTag(md5, ch, cs[i]));
      var rest := BuildContainers(md5, ch, cs[i + 1..], sources);
      BuildContainers(md5, ch, cs[i..], sources)
      == if ImageBuildError(source).Some? then (ImageBuildError(source), built) else (rest.0, built + rest.1)
  {
    assert cs[i..][0] == cs[i] && cs[i..][1..] == cs[i + 1..];
  }

  /** The loop at lines 462-472. */
  method BuildAllContainers(engine: Engine, md5: Md5, ch: Challenge, cs: seq<Container>, sources: Sources)
    returns (failure: Option<Error>)
    modifies engine
    ensures failure == BuildContainers(md5, ch, cs, sources).0
    ensures engine.images == old(engine.images) + BuildContainers(md5, ch, cs, sources).1
    ensures engine.networks == old(engine.networks) && engine.volumes == old(engine.volumes)
    ensures engine.containers == old(engine.containers)
  {
    ghost var total := BuildContainers(md5, ch, cs, sources);
    var built: seq<seq<string>> := [];
    var i := 0;
    assert cs[0..] == cs;
    assert built + total.1 == total.1;
    while i < |cs|
      invariant Building(md5, ch, cs, sources, total, built, i)
      invariant engine.images == old(engine.images) + built
      invariant engine.networks == old(engine.networks) && engine.volumes == old(engine.volumes)
      invariant engine.containers == old(engine.containers)
    {
      var tag := ContainerTag(md5, ch, cs[i]);
      BuildingStep(md5, ch, cs, sources, total, built, i);
      var f := BuildImage(cs[i].image, tag, engine, sources);
      if f.Some? {
        return f;
      }
      built := built + ImagesBuilt(sources(cs[i].image), tag);
      i := i + 1;
    }
    assert cs[i..] == [];
    assert built + [] == built;
    return None;
  }

  /** The loop state of BuildAllContainers after `i` containers: building the rest completes `total`. */
  ghost predicate Building(md5: Md5, ch: Challenge, cs: seq<Container>, sources: Sources,
                           total: (Option<Error>, seq<seq<string>>), built: seq<seq<string>>, i: nat)
  {
    && i <= |cs|
    && total.0 == BuildContainers(md5, ch, cs[i..], sources).0
    && total.1 == built + BuildContainers(md5, ch, cs[i..], sources).1
  }

  /** One container built: either the phase stops here with `total`, or the loop state advances. */
  lemma BuildingStep(md5: Md5, ch: Challenge, cs: seq<Container>, sources: Sources,
                     total: (Option<Error>, seq<seq<string>>), built: seq<seq<string>>, i: nat)
    requires Building(md5, ch, cs, sources, total, built, i) && i < |cs|
    ensures var source := sources(cs[i].image);
      var more := ImagesBuilt(source, ContainerTag(md5, ch, cs[i]));
      && (ImageBuildError(source).Some? ==> total == (ImageBuildError(source), built + more))
      && (ImageBuildError(source).None? ==> Building(md5, ch, cs, sources, total, built + more, i + 1))
  {
    BuildContainersStep(md5, ch, cs, i, sources);
    var more := ImagesBuilt(sources(cs[i].image), ContainerTag(md5, ch, cs[i]));
    var rest := BuildContainers(md5, ch, cs[i + 1..], sources);
    assert built + (more + rest.1) == (built + more) + rest.1;
  }

  /** Lines 474-480: create each declared network the list taken beforehand does not hold. */
  method CreateAbsentNetworks(engine: Engine, names: seq<string>, networkList: seq<string>)
    modifies engine
    ensures engine.networks == old(engine.networks) + Absent(names, networkList)
    ensures engine.images == old(engine.images) && engine.volumes == old(engine.volumes)
    ensures engine.containers == old(engine.containers)
  {
    var i := 0;
    while i < |names|
      invariant 0 <= i <= |names|
      invariant engine.networks == old(engine.networks) + Absent(names[..i], networkList)
      invariant engine.images == old(engine.images) && engine.volumes == old(engine.volumes)
      invariant engine.containers == old(engine.containers)
    {
      assert names[..i + 1][..i] == names[..i];
      if names[i] !in networkList {
        engine.CreateNetwork(names[i]);
      }
      i := i + 1;
    }
    assert names[..i] == names;
  }

  /** Lines 482-488: the same for volumes. */
  method CreateAbsentVolumes(engine: Engine, names: seq<string>, volumeList: seq<string>)
    modifies engine
    ensures engine.volumes == old(engine.volumes) + Absent(names, volumeList)
    ensures engine.images == old(engine.images) && engine.networks == old(engine.networks)
    ensures engine.containers == old(engine.containers)
  {
    var i := 0;
    while i < |names|
      invariant 0 <= i <= |names|
      invariant engine.volumes == old(engine.volumes) + Absent(names[..i], volumeList)
      invariant engine.images == old(engine.images) && engine.networks == old(engine.networks)
      invariant engine.containers == old(engine.containers)
    {
      assert names[..i + 1][..i] == names[..i];
      if names[i] !in volumeList {
        engine.CreateVolume(names[i]);
      }
      i := i + 1;
    }
    assert names[..i] == names;
  }

  // ------------------------------------------------------- properties

  /** The container builds succeed exactly when every container's image source builds. */
  lemma {:induction false} BuildSucceedsExactly(md5: Md5, ch: Challenge, cs: seq<Container>, sources: Sources)
    ensures BuildContainers(md5, ch, cs, sources).0.None?
        <==> forall i :: 0 <= i < |cs| ==> ImageBuildError(sources(cs[i].image)).None?
    decreases |cs|
  {
    if cs != [] {
      BuildSucceedsExactly(md5, ch, cs[1..], sources);
      assert forall i :: 1 <= i < |cs| ==> cs[1..][i - 1] == cs[i];
    }
  }

  /** The container images build until the first one that fails, and that failure is the phase's. */
  lemma {:induction false} BuildStopsAtFirstFailure(md5: Md5, ch: Challenge, cs: seq<Container>, sources: Sources)
    ensures var r := BuildContainers(md5, ch, cs, sources);
      r.0.Some? ==> exists i :: 0 <= i < |cs| && r.0 == ImageBuildError(sources(cs[i].image))
                      && forall j :: 0 <= j < i ==> ImageBuildError(sources(cs[j].image)).None?
    decreases |cs|
  {
    if cs != [] && ImageBuildError(sources(cs[0].image)).None? {
      var r := BuildContainers(md5, ch, cs, sources);
      if r.0.Some? {
        BuildStopsAtFirstFailure(md5, ch, cs[1..], sources);
        var k :| 0 <= k < |cs[1..]| && r.0 == ImageBuildError(sources(cs[1..][k].image))
                 && forall j :: 0 <= j < k ==> ImageBuildError(sources(cs[1..][j].image)).None?;
        assert cs[k + 1] == cs[1..][k];
        assert forall j :: 0 <= j < k + 1 ==> ImageBuildError(sources(cs[j].image)).None? by {
          forall j | 0 < j < k + 1 ensures ImageBuildError(sources(cs[j].image)).None? {
            assert cs[j] == cs[1..][j - 1];
          }
        }
      }
    }
  }

  /** After a failure-free build of directory images, every container's tag is listed, whatever was there before. */
  lemma BuiltContainersListed(md5: Md5, ch: Challenge, cs: seq<Container>, sources: Sources,
                              images: seq<seq<string>>)
    requires BuildContainers(md5, ch, cs, sources).0.None?
    requires forall i :: 0 <= i < |cs| ==> sources(cs[i].image).Directory?
    ensures forall i :: 0 <= i < |cs| ==> ContainerTag(md5, ch, cs[i]) in TagNames(images + BuildContainers(md5, ch, cs, sources).1)
  {
    forall i | 0 <= i < |cs|
      ensures ContainerTag(md5, ch, cs[i]) in TagNames(images + BuildContainers(md5, ch, cs, sources).1)
    {
      BuiltContainerListed(md5, ch, cs, sources, images, i);
    }
  }

  /** A freshly tagged container image makes its tag a listed one. */
  lemma ContainerTagListed(md5: Md5, ch: Challenge, c: Container, images: seq<seq<string>>)
    ensures ContainerTag(md5, ch, c) in TagNames(images + [[ContainerTag(md5, ch, c) + ":latest"]])
  {
    var tag := ContainerTag(md5, ch, c);
    DockerNameShape(md5, ch.title, c.name, ch.challengeId);
    TagHasNoColon(tag);
    BuiltTagListed(images, tag);
  }

  /** The same for the container at position i, by induction on that position. */
  lemma {:induction false} BuiltContainerListed(md5: Md5, ch: Challenge, cs: seq<Container>, sources: Sources,
                                                images: seq<seq<string>>, i: nat)
    requires i < |cs| && BuildContainers(md5, ch, cs, sources).0.None?
    requires forall k :: 0 <= k < |cs| ==> sources(cs[k].image).Directory?
    ensures ContainerTag(md5, ch, cs[i]) in TagNames(images + BuildContainers(md5, ch, cs, sources).1)
    decreases i
  {
    var tag := ContainerTag(md5, ch, cs[0]);
    var first := images + [[tag + ":latest"]];
    var rest := BuildContainers(md5, ch, cs[1..], sources);
    assert sources(cs[0].image).Directory?;
    assert images + BuildContainers(md5, ch, cs, sources).1 == first + rest.1 by {
      assert BuildContainers(md5, ch, cs, sources).1 == [[tag + ":latest"]] + rest.1;
    }
    if i == 0 {
      ContainerTagListed(md5, ch, cs[0], images);
      TagNamesGrow(first, rest.1, tag);
    } else {
      assert forall k :: 0 <= k < |cs[1..]| ==> cs[1..][k] == cs[k + 1];
      BuiltContainerListed(md5, ch, cs[1..], sources, first, i - 1);
      assert cs[1..][i - 1] == cs[i];
    }
  }

  /**
   * build_chall's verdict: on success it reports whether it did anything,
   * which is whether there was a build script, a deployment or a solution
   * image; a solution image without a deployment ends in the unbound `client`
   * of line 497 once the build script, if any, has exited with 0.
   */
  lemma BuildVerdict(md5: Md5, ch: Challenge, dep: Option<Deployment>, reachable: bool, before: Store,
                     sources: Sources, runScript: Script)
    ensures var (r, after) := BuildChallenge(md5, ch, dep, reachable, before, sources, runScript);
      && (r.Success? ==> (r.value <==> ch.buildScript.Some? || dep.Some? || ch.solutionImage != ""))
      && (r.Success? && ch.solutionImage != "" ==> dep.Some?)
      && (dep.None? && ch.solutionImage != "" ==> r.Failure? && after == before)
      && (dep.None? && ch.solutionImage != ""
          && (ch.buildScript.None? || runScript(ch.buildScript.value, GetFirstTextFlag(ch.format, ch.flags)) == 0)
          ==> r == Failure(UnboundLocal("client")))
  {
  }

  /** A source build_image refuses: an archive file, or a directory whose stream has a fatal entry. */
  predicate Refused(source: ImageSource) {
    source.ArchiveFile? || (source.Directory? && exists k :: 0 <= k < |source.stream| && Fatal(source.stream[k]))
  }

  /** build_image fails exactly on a refused source. */
  lemma RefusedFails(source: ImageSource)
    ensures ImageBuildError(source).Some? <==> Refused(source)
  {
    if source.Directory? {
      StreamErrorFirst(source.stream);
    }
  }

  /**
   * The fatal outcomes of build_chall once its deployment checks pass: a
   * non-zero build-script exit fails with that code before anything is built;
   * an archive or a failing directory build, of a container image or of the
   * solution image, fails the phase.
   */
  lemma BuildFatal(md5: Md5, ch: Challenge, dep: Option<Deployment>, reachable: bool, before: Store,
                   sources: Sources, runScript: Script)
    requires dep.None? || (dep.value.kind == "docker" && reachable)
    ensures var (r, after) := BuildChallenge(md5, ch, dep, reachable, before, sources, runScript);
      var flag := GetFirstTextFlag(ch.format, ch.flags);
      && (ch.buildScript.Some? && runScript(ch.buildScript.value, flag) != 0 ==>
            r == Failure(BuildScriptFailed(runScript(ch.buildScript.value, flag))) && after == before)
      && (dep.Some? && (exists i :: 0 <= i < |dep.value.containers| && Refused(sources(dep.value.containers[i].image)))
          ==> r.Failure?)
      && (dep.Some? && ch.solutionImage != "" && Refused(sources(ch.solutionImage)) ==> r.Failure?)
  {
    if dep.Some? {
      var cs := dep.value.containers;
      BuildSucceedsExactly(md5, ch, cs, sources);
      forall i | 0 <= i < |cs| ensures Refused(sources(cs[i].image)) ==> ImageBuildError(sources(cs[i].image)).Some? {
        RefusedFails(sources(cs[i].image));
      }
      RefusedFails(sources(ch.solutionImage));
    }
  }

  /** Nothing is built or created for a deployment of another type, or without an engine. */
  lemma BuildRefusesUntouched(md5: Md5, ch: Challenge, dep: Deployment, reachable: bool, before: Store,
                              sources: Sources, runScript: Script)
    requires dep.kind != "docker" || !reachable
    ensures var (r, after) := BuildChallenge(md5, ch, Some(dep), reachable, before, sources, runScript);
      r.Failure? && after == before
      && r.error == (if dep.kind != "docker" then UnsupportedDeploymentType(dep.kind) else EngineUnreachable)
  {
  }

  /**
   * A successful build with a deployment leaves every declared network and
   * volume present and creates nothing else: the engine's networks are the old
   * ones followed by the declared ones not already there, in declaration
   * order, and likewise its volumes.
   */
  lemma {:induction false} BuildCreatesDeclared(md5: Md5, ch: Challenge, dep: Deployment, reachable: bool, before: Store,
                                                sources: Sources, runScript: Script)
    requires BuildChallenge(md5, ch, Some(dep), reachable, before, sources, runScript).0.Success?
    ensures var after := BuildChallenge(md5, ch, Some(dep), reachable, before, sources, runScript).1;
      && after.networks == before.networks + Absent(NetworkNames(dep.networks), before.networks)
      && after.volumes == before.volumes + Absent(dep.volumes, before.volumes)
      && (forall x :: x in after.networks <==> x in before.networks || x in NetworkNames(dep.networks))
      && (forall x :: x in after.volumes <==> x in before.volumes || x in dep.volumes)
      && after.networks[..|before.networks|] == before.networks
      && after.volumes[..|before.volumes|] == before.volumes
  {
    var after := BuildChallenge(md5, ch, Some(dep), reachable, before, sources, runScript).1;
    var nets := Absent(NetworkNames(dep.networks), before.networks);
    var vols := Absent(dep.volumes, before.volumes);
    assert after.networks == before.networks + nets;
    assert after.volumes == before.volumes + vols;
    assert (before.networks + nets)[..|before.networks|] == before.networks;
    assert (before.volumes + vols)[..|before.volumes|] == before.volumes;
  }
}
