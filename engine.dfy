/**
 * The container engine as the orchestration code sees it through its client:
 * images with their repository tags, networks and volumes by name, and the
 * containers it has created. Whether a client can be had at all is fixed per
 * engine (`reachable`); get_docker_client fails when it is not.
 */
module ContainerEngine {
  import opened PyStrings

  /** A created container: image, port map, joined networks, host networking, command, started. */
  datatype Run = Run(image: string, ports: map<int, int>, networks: seq<string>,
                     hostNetwork: bool, command: seq<string>, started: bool)

  /** The tag list of lines 523-527 (and 627-631): every repository tag up to its first colon. */
  function TagNames(images: seq<seq<string>>): (r: seq<string>)
  {
    if images == [] then [] else TagNames(images[..|images| - 1]) + RepoNames(images[|images| - 1])
  }

  function RepoNames(tags: seq<string>): (r: seq<string>)
    ensures |r| == |tags| && forall k :: 0 <= k < |tags| ==> r[k] == BeforeColon(tags[k])
  {
    seq(|tags|, k requires 0 <= k < |tags| => BeforeColon(tags[k]))
  }

  /** An image tagged `name:latest` for a colon-free name makes `name` a listed tag. */
  lemma BuiltTagListed(images: seq<seq<string>>, name: string)
    requires forall k :: 0 <= k < |name| ==> name[k] != ':'
    ensures name in TagNames(images + [[name + ":latest"]])
  {
    var all := images + [[name + ":latest"]];
    assert all[..|all| - 1] == images;
    BeforeColonOfTagged(name, "latest");
    assert name + ":latest" == name + ":" + "latest";
    var last := RepoNames(all[|all| - 1]);
    assert last[0] == name;
    assert TagNames(all) == TagNames(images) + last;
  }

  /** Adding images never removes a listed tag. */
  lemma {:induction false} TagNamesGrow(images: seq<seq<string>>, more: seq<seq<string>>, name: string)
    requires name in TagNames(images)
    ensures name in TagNames(images + more)
    decreases |more|
  {
    if more != [] {
      var all := images + more;
      var n := |more| - 1;
      assert all[..|all| - 1] == images + more[..n];
      TagNamesGrow(images, more[..n], name);
      var front := TagNames(images + more[..n]);
      assert TagNames(all) == front + RepoNames(all[|all| - 1]);
      var i :| 0 <= i < |front| && front[i] == name;
      assert TagNames(all)[i] == name;
    } else {
      assert images + more == images;
    }
  }

  class Engine {
    const reachable: bool
    var images: seq<seq<string>>
    var networks: seq<string>
    var volumes: seq<string>
    var containers: seq<Run>

    constructor (reachable: bool, images: seq<seq<string>>, networks: seq<string>, volumes: seq<string>)
      ensures this.reachable == reachable && this.images == images
      ensures this.networks == networks && this.volumes == volumes && this.containers == []
    {
      this.reachable := reachable;
      this.images := images;
      this.networks := networks;
      this.volumes := volumes;
      this.containers := [];
    }

    /** A finished build of `tag`: the new image carries `tag:latest`. */
    method TagImage(tag: string)
      modifies this
      ensures images == old(images) + [[tag + ":latest"]]
      ensures networks == old(networks) && volumes == old(volumes) && containers == old(containers)
    {
      images := images + [[tag + ":latest"]];
    }

    method CreateNetwork(name: string)
      modifies this
      ensures networks == old(networks) + [name]
      ensures images == old(images) && volumes == old(volumes) && containers == old(containers)
    {
      networks := networks + [name];
    }

    method CreateVolume(name: string)
      modifies this
      ensures volumes == old(volumes) + [name]
      ensures images == old(images) && networks == old(networks) && containers == old(containers)
    {
      volumes := volumes + [name];
    }

    /** containers.create: a new, not yet started container; its handle is its position. */
    method CreateContainer(image: string, ports: map<int, int>, hostNetwork: bool, command: seq<string>)
      returns (id: nat)
      modifies this
      ensures id == |old(containers)|
      ensures containers == old(containers) + [Run(image, ports, [], hostNetwork, command, false)]
      ensures images == old(images) && networks == old(networks) && volumes == old(volumes)
    {
      id := |containers|;
      containers := containers + [Run(image, ports, [], hostNetwork, command, false)];
    }

    /** networks.get(network).connect(container) */
    method Connect(network: string, id: nat)
      requires id < |containers|
      modifies this
      ensures containers == old(containers)[id := old(containers)[id].(networks := old(containers)[id].networks + [network])]
      ensures images == old(images) && networks == old(networks) && volumes == old(volumes)
    {
      containers := containers[id := containers[id].(networks := containers[id].networks + [network])];
    }

    /** container.start() */
    method Start(id: nat)
      requires id < |containers|
      modifies this
      ensures containers == old(containers)[id := old(containers)[id].(started := true)]
      ensures images == old(images) && networks == old(networks) && volumes == old(volumes)
    {
      containers := containers[id := containers[id].(started := true)];
    }
  }
}
