/**
 * The normalised challenge configuration the orchestration code reads. The
 * deployment part is the one piece the start phase writes to: it fills in
 * missing external ports of services in place, and those stay filled in.
 */
module Config {
  import opened Wrappers
  import opened Flags
  import opened Services

  /** A service of a container; `externalPort` None stands for the missing key. */
  datatype Service = Service(kind: string, internalPort: int, externalPort: Option<int>)

  /** An entry of `extra_exposed_ports`: always with both ports. */
  datatype ExposedPort = ExposedPort(internalPort: int, externalPort: int)

  /** One entry of `deployment.containers`, keyed by `name`, in declaration order. */
  datatype Container = Container(name: string, image: string, services: seq<Service>, extraExposedPorts: seq<ExposedPort>)

  /** One entry of `deployment.networks`: the network's name and the containers that join it. */
  datatype Network = Network(name: string, members: seq<string>)

  datatype Deployment = Deployment(kind: string, containers: seq<Container>, networks: seq<Network>, volumes: seq<string>)

  /**
   * The parts of the configuration nothing writes to. An unset `challenge_id`
   * or `solution_image` is ""; `buildScript` is `custom.build_script`, if present.
   */
  datatype Challenge = Challenge(
    title: string,
    challengeId: string,
    format: FlagFormat,
    flags: seq<Flag>,
    customServiceTypes: seq<ServiceType>,
    predefinedServices: seq<seq<Keyword>>,
    solutionImage: string,
    buildScript: Option<string>)

  /** The configuration dictionary: a fixed challenge and a deployment the start phase updates. */
  class ChallengeConfig {
    const challenge: Challenge
    var deployment: Option<Deployment>

    constructor (challenge: Challenge, deployment: Option<Deployment>)
      ensures this.challenge == challenge && this.deployment == deployment
    {
      this.challenge := challenge;
      this.deployment := deployment;
    }
  }

  function NetworkNames(networks: seq<Network>): (r: seq<string>)
    ensures |r| == |networks| && forall i :: 0 <= i < |networks| ==> r[i] == networks[i].name
  {
    seq(|networks|, i requires 0 <= i < |networks| => networks[i].name)
  }
}
