# challtools orchestration core in Dafny

This project models the deterministic core of challtools' `challtools/utils.py`. That core turns a validated challenge configuration into work for a container engine:

- it summarises validator messages (`process_messages`);
- it derives image tags (`create_docker_name`);
- it generates and checks flags (`get_first_text_flag`, `validate_flag`, `validate_solution_output`);
- it renders what a player sees for a service (`format_user_service`);
- it builds a challenge (`build_image`, `build_chall`);
- it starts a challenge and its solver (`start_chall`, `start_solution`).

The modules follow that split:

| module (file) | contents |
|---|---|
| `Wrappers` (wrappers.dfy) | `Option` and `Result` |
| `Errors` (errors.dfy) | one constructor per exception the code raises or lets escape |
| `PyStrings` (pystrings.dfy) | the Python string operations the code relies on: slicing with negative bounds, `replace`, `rsplit`, `strip`, `split(":")[0]`, `str(int)` |
| `Messages` (messages.dfy) | `process_messages` |
| `DockerNames` (names.dfy) | `create_docker_name` and the solution tag |
| `Flags` (flags.dfy) | the flag functions |
| `Services` (services.dfy) | `format_user_service` |
| `Config` (config.dfy) | the configuration. `ChallengeConfig` is a class because `start_chall` and `start_solution` write missing external ports into the configuration's services in place, and those writes persist. |
| `ContainerEngine` (engine.dfy) | the engine as the code's client sees it: images with their repository tags, networks, volumes and the containers created, in a class whose methods are the client calls. |
| `Build` (build.dfy) | `build_image` and `build_chall` |
| `Ports` (ports.dfy) | the port cursor and the walk over services shared by both start functions |
| `Start` (start.dfy) | `start_chall` and `start_solution` |
| `StartProperties` (startprops.dfy) | properties that relate the phases |

Where the source works by updating state, the model does too, with methods over `ChallengeConfig` and `Engine`:

- `process_messages`'s tally loop;
- `build_image`'s stream loop;
- `build_chall`'s build and create-if-absent loops;
- the port-assigning walks and container launches of `start_chall`.

Each such method is proved equal to a pure specification function of the old state. Examples are `BuildChallenge`, `StartChallenge` and `StartSolutionAsWritten`. The properties are proved as lemmas about those functions.

The collaborators the model does not see are parameters:

- MD5 is `md5: string -> Digest`, a 32-digit lowercase hex string as RFC 1321 digests are printed;
- `re.search` is `search`;
- the kind of an image path and the build stream the engine returns is `sources`;
- the build script is its exit code, `runScript(path, flag)`;
- whether `get_docker_client` can reach an engine is the engine's `reachable` flag;
- the ANSI styling constants are a `Styling` value.

The known defects of the source are modelled as error outcomes:

- `start_solution` reads `service` before binding it when there are predefined services (line 646). This gives `UnboundLocal("service")`.
- `start_solution` indexes an absent deployment (line 649). This gives `NoDeployment`.
- `build_chall` uses `client` unbound when there is a solution image but no deployment (line 497). This gives `UnboundLocal("client")`.

Two behaviours of the code that a reader might not expect are modelled as written:

- `start_solution` fails on any predefined service, before it renders a string for one.
- `validate_flag` cuts with `[len(p):-len(q)]`, and `validate_solution_output` inherits that cut (see Findings).

## Model

| member | source | states |
|---|---|---|
| Messages.MessageString | challtools/utils.py:42-49 | The line for one message. Its structure is stated by MessageLineShape and its documented example by CriticalExample. |
| Messages.FormatMessage | challtools/utils.py:42-49 | The step-by-step construction of lines 42-49 builds MessageString. |
| Messages.MessageLineShape | challtools/utils.py:42-49 | A line starts with the styled level and bold code in brackets. It holds `field: ` right after them only when the field is set, then the name. In verbose mode it ends with a newline and the message text. Its length is the sum of these parts. |
| Messages.CriticalExample | challtools/utils.py:29 | The documented example: an unstyled CRITICAL message A002 "Schema violation" without a field gives `[CRITICAL] [A002] Schema violation`. |
| Messages.ProcessMessages | challtools/utils.py:35-74 | One line per message, in order. The highest level is the maximum over the messages. The count sentence is built from the per-level counts of all messages. Proved through loop invariants over the processed prefix. |
| Messages.LevelCount | challtools/utils.py:39 | A level's count never exceeds the number of messages. |
| Messages.Highest | challtools/utils.py:36-40 | The highest level is between 0 and 5. |
| Messages.NonZero | challtools/utils.py:52 | Every entry has a positive count, and there are at most as many entries as levels. It is empty exactly when every count is zero. |
| Messages.NonZeroKeepsLevels | challtools/utils.py:52 | The k-th entry is the count and name of the k-th level with a non-zero count. Those levels increase, and a level is among them exactly when its count is non-zero. |
| Messages.CountString | challtools/utils.py:52-68 | The count sentence. Its properties are CountStringEmpty, PluralFollowsLastCount, CountSentence and TwoSingleCounts. |
| Messages.HighestIsMaximum | challtools/utils.py:33-40 | No message is above the highest level and some message is at it. The level is 0 exactly when there are no messages. |
| Messages.CountsAddUp | challtools/utils.py:35-39 | Every message is counted once: the five counts add up to the number of messages. |
| Messages.CountStringEmpty | challtools/utils.py:55-59 | Without messages the sentence is "No issues raised.". With any message it starts on a new line. |
| Messages.PluralFollowsLastCount | challtools/utils.py:68 | The sentence says "issues" exactly when there are no counts or the last non-zero count exceeds one. The total plays no part. |
| Messages.CountSentence | challtools/utils.py:61-68 | With two or more non-empty levels, the parts are joined by ", ", except that the last separator becomes " and ". |
| Messages.TwoSingleCounts | challtools/utils.py:31 | The docstring's example: one message at each of two levels gives "1 X and 1 Y issue raised.". |
| DockerNames.KeepNameChars | challtools/utils.py:288 | The filter keeps only `[A-Za-z0-9_.-]` and never lengthens. |
| DockerNames.StripSeparators | challtools/utils.py:289 | After `lstrip("_.-")` the string is empty or starts with none of `_.-`. |
| DockerNames.StrippedIsSuffix | challtools/utils.py:289 | `lstrip` leaves a suffix of its input. |
| DockerNames.LowerAscii | challtools/utils.py:290 | Lowercasing maps every character and keeps the length. |
| DockerNames.Sanitize | challtools/utils.py:287-290 | A sanitised part uses only `[a-z0-9_.-]` and starts with none of `_.-`. |
| DockerNames.Take | challtools/utils.py:298-300 | `s[:n]` is a prefix of at most n characters, and the whole string when it is short. |
| DockerNames.DockerName | challtools/utils.py:272-300 | create_docker_name. Its properties are DockerNameShape, TitlePartStartsClean and TagSurvivesRepoTag. |
| DockerNames.DockerNameShape | challtools/utils.py:281-300 | A derived name is at most 66 characters with a container name and 49 without. It uses only `[a-z0-9_.-]` and ends with the first 16 digits of the digest of title, container name and id joined by vertical bars. |
| DockerNames.SolutionTagShape | challtools/utils.py:495-496 | The solution tag starts with `sol_`, uses only tag characters and is at most 53 characters. |
| DockerNames.SolutionTag | challtools/utils.py:495-496 | The solution image tag: `sol_` and the derived name without a container name. SolutionTagShape states its shape. |
| DockerNames.TitlePartStartsClean | challtools/utils.py:289-300 | The name starts with the truncated sanitised title and `_`. That title part starts with none of `_.-`. |
| DockerNames.SanitizeIdempotent | challtools/utils.py:287-290 | Sanitising a sanitised string changes nothing. |
| DockerNames.TagSurvivesRepoTag | challtools/utils.py:523-527 | A derived tag has no colon, so `split(":")[0]` of its `tag:version` form gives the tag back. |
| Flags.AnyAccepts | challtools/utils.py:362-371 | The flag loop answers true exactly when some flag accepts: a text flag by equality, a regex flag by search. |
| Flags.FirstTextFlagFirst | challtools/utils.py:258-264 | The search finds nothing exactly when no flag is a text flag. Otherwise it finds the value of the first text flag. |
| Flags.GetFirstTextFlag | challtools/utils.py:258-269 | "" without a text flag. The bare first text flag when no prefix is set. Otherwise that flag between prefix and suffix. |
| Flags.AcceptedWearsWrapper | challtools/utils.py:353-357 | With a prefix set, only a submission that starts with the prefix and ends with the suffix can be accepted. |
| Flags.WrappedCandidateIsCore | challtools/utils.py:358-371 | With a prefix and a non-empty suffix, `prefix + core + suffix` is accepted exactly when some flag accepts `core`. |
| Flags.EmptySuffixLeavesNothing | challtools/utils.py:358-360 | With a prefix and an empty suffix, the flags judge "" whatever follows the prefix. |
| Flags.NoPrefixIgnoresSuffix | challtools/utils.py:353 | Without a prefix the suffix plays no part and the submission is judged uncut. |
| Flags.Unwrap | challtools/utils.py:353-360 | The cut of the flag format off a submission. AcceptedWearsWrapper, WrappedCandidateIsCore, EmptySuffixLeavesNothing and NoPrefixIgnoresSuffix state what it keeps and refuses. |
| Flags.ValidateFlag | challtools/utils.py:343-371 | validate_flag. Its properties are AcceptedWearsWrapper, WrappedCandidateIsCore, EmptySuffixLeavesNothing, NoPrefixIgnoresSuffix and TextFlagExamples. |
| Flags.ValidateSolutionOutput | challtools/utils.py:330-340 | validate_solution_output: `validate_flag` on the stripped output. Its properties are SolutionOutputIgnoresPadding and SolutionOutputEmptySuffix. |
| Flags.FirstTextFlag | challtools/utils.py:258-264 | The first text flag's value. FirstTextFlagFirst states which one. |
| Flags.SolutionOutputIgnoresPadding | challtools/utils.py:340 | Output padded with whitespace around a trimmed flag is judged exactly as `validate_flag` judges the flag itself. |
| Flags.SolutionOutputEmptySuffix | challtools/utils.py:340 | With prefix "flag{", no suffix and text flag "abc", the solver output " flag{abc\n" is rejected. |
| Flags.IntendedSolutionOutputAccepts | challtools/utils.py:340 | With the corrected cut, the generated flag with any whitespace around it is accepted for every prefix and suffix. |
| Flags.GeneratedFlagValidates | challtools/utils.py:258-269 | With a text flag, and either no prefix or a non-empty suffix, `validate_flag` accepts the flag `get_first_text_flag` builds. |
| Flags.TextFlagExamples | challtools/utils.py:353-365 | Prefix "flag{", suffix "}", text flag "abc": "flag{abc}" is accepted; "abc" and "flag{abd}" are rejected. |
| Flags.GeneratedFlagRejectedWithoutSuffix | challtools/utils.py:358-360 | As written, a prefix with an empty suffix rejects the generated flag unless some flag accepts "". |
| Flags.EmptySuffixCounterexample | challtools/utils.py:358-360 | The concrete case: the generator gives "flag{abc" and the validator rejects it. |
| Flags.IntendedGeneratedFlagValidates | challtools/utils.py:358-360 | With the suffix cut counted from the end, the generated flag is accepted for every prefix and suffix. |
| Flags.IntendedAgreesWithSuffix | challtools/utils.py:358-360 | The corrected check agrees with the written one whenever no prefix is set or the suffix is non-empty. |
| Services.FindTypeFirst | challtools/utils.py:318-322 | The lookup finds nothing exactly when no type has the name. Otherwise it finds the template of the first type that has it. |
| Services.FindType | challtools/utils.py:314-322 | The lookup of a service type's template. FindTypeFirst states that it fails exactly when no type has the name and otherwise gives the first match. |
| Services.FormatUserServiceFails | challtools/utils.py:314-321 | Formatting fails exactly for a type that is neither `website`, `tcp` nor custom, and the error names that type. |
| Services.BuiltinTakesPrecedence | challtools/utils.py:314-322 | `website` and `tcp` always use the built-in templates, whatever custom types share the name. |
| Services.CustomTypeFirstMatch | challtools/utils.py:317-322 | Any other type uses the first custom type of that name, or fails. |
| Services.SubstituteNoPlaceholders | challtools/utils.py:324-325 | Keywords whose placeholders do not occur leave the template unchanged. |
| Services.Substitute3 | challtools/utils.py:324-325 | Three keywords are three replacements of every occurrence, in keyword order. |
| Services.TcpDisplay | challtools/utils.py:316 | `tcp` renders as `nc <host> <port>` when host and port hold no `{`. |
| Services.WebsiteDisplay | challtools/utils.py:315 | `website` renders as the url itself. |
| Services.LocalServiceDisplay | challtools/utils.py:576-584 | A service published locally on a port shows `nc 127.0.0.1 <port>` for `tcp` and `http://127.0.0.1:<port>` for `website`. |
| Services.LocalKeywords | challtools/utils.py:579-583 | The keywords start_chall formats a service with: host 127.0.0.1, the port as text, and the URL. LocalServiceDisplay and UnmatchedPlaceholderExample state the lines they give. |
| Services.TcpExample | challtools/utils.py:579-582 | `tcp` on 127.0.0.1 and port 50000 shows `nc 127.0.0.1 50000`. |
| Services.FormatUserService | challtools/utils.py:303-327 | format_user_service. Its properties are FormatUserServiceFails, BuiltinTakesPrecedence, CustomTypeFirstMatch, TcpDisplay, WebsiteDisplay and UnmatchedPlaceholderKept. |
| Services.Substitute | challtools/utils.py:324-325 | The replacement loop. Its properties are SubstituteNoPlaceholders, Substitute3 and UnmatchedPlaceholderKept. |
| Services.ReplaceAround | challtools/utils.py:325 | Replacing `{a}` leaves an occurrence of a different placeholder `{x}` in place, when neither name holds a brace. The text before it and the text after it are replaced on their own. |
| Services.UnmatchedPlaceholderKept | challtools/utils.py:324-327 | For any template `front + {x} + back`, where no keyword is named x and no name holds a brace, the output is the substituted front, then `{x}` verbatim, then the substituted back. |
| Services.UnmatchedPlaceholderExample | challtools/utils.py:324-327 | A custom `ssh` type shown as `{user}` is shown verbatim by the start phase. |
| PyStrings.Slice | challtools/utils.py:358-360 | Python slicing: in-range bounds give the subsequence, a stop of 0 gives "", and a negative stop counts from the end. |
| PyStrings.ReplaceAllAbsent | challtools/utils.py:325 | `replace` of a pattern that does not occur returns the string unchanged. |
| PyStrings.ReplaceChar | challtools/utils.py:287 | Replacing one character by another maps every position and keeps the length. |
| PyStrings.RFind | challtools/utils.py:65 | `rfind` gives the start of the last occurrence, or -1 when there is none. |
| PyStrings.ReplaceLastSeparator | challtools/utils.py:61-65 | `rep.join(s.rsplit(", ", 1))` on a ", "-joined list replaces exactly the separator in front of the last part, when that part holds no ", ". |
| PyStrings.StripLeft | challtools/utils.py:340 | The left strip leaves nothing, or a string that does not start with whitespace. |
| PyStrings.StripLeftRemovesSpace | challtools/utils.py:340 | The left strip removes a whitespace prefix and keeps the rest. |
| PyStrings.StripRight | challtools/utils.py:340 | The right strip removes a whitespace suffix and keeps the rest, which does not end with whitespace. |
| PyStrings.Strip | challtools/utils.py:340 | `strip()` leaves a string with whitespace at neither end. |
| PyStrings.StripPadded | challtools/utils.py:340 | Stripping whitespace around a trimmed core gives the core. |
| PyStrings.BeforeColon | challtools/utils.py:524 | `split(":")[0]` is the longest colon-free prefix. |
| PyStrings.BeforeColonOfTagged | challtools/utils.py:524 | A colon-free name in front of `:suffix` comes back from `split(":")[0]`. |
| PyStrings.NatToStringValue | challtools/utils.py:581 | The decimal digits of a natural number denote it and have no leading zero. |
| PyStrings.IntToStringValue | challtools/utils.py:581 | `str(i)` denotes i. For i >= 0 it is the digits of i with no leading zero. For i < 0 it is `-` followed by the digits of -i. |
| PyStrings.IntToString | challtools/utils.py:581 | `str(i)`: a non-empty string of digits and `-`. IntToStringValue states that it denotes i. |
| Ports.AllocateServices | challtools/utils.py:569-573 | Allocation gives every service a port, keeps the length, and moves the cursor by the number of services that had none. |
| Ports.AllocationOrder | challtools/utils.py:570-573 | A service with a port keeps it. The k-th service without one gets cursor + k. Type and internal port are kept. |
| Ports.AllocationIdempotent | challtools/utils.py:571 | Services that all have ports are left alone and the cursor does not move. |
| Ports.AllocateAppend | challtools/utils.py:558-573 | Allocating two lists in a row is allocating their concatenation. |
| Ports.AllocationAcrossContainers | challtools/utils.py:558-573 | The cursor is shared across containers: container by container is the same as one flat list of all services. |
| Ports.AllocatedContainersAssigned | challtools/utils.py:562-573 | After allocation every service of every container has a port. |
| Ports.SecondPassAssignsNothing | challtools/utils.py:571 | A second pass over containers whose services all have ports changes nothing. |
| Ports.AllocationExample | challtools/utils.py:558-573 | Three services without ports and one with 12345 get 50000, 50001, 50002; 12345 is untouched. |
| Ports.Assign | challtools/utils.py:571-573 | One service: a missing port becomes the cursor, which moves on. AllocationOrder and AllocationIdempotent state what it does over a list. |
| Ports.ServicePorts | challtools/utils.py:574 | `ports[internal_port] = external_port` over the services. ServicePortsKeys states its keys; ServicePortsValue states its values. |
| Ports.ServicePortsValue | challtools/utils.py:574 | A service's internal port maps to that service's external port when no later service names the same internal port. |
| Ports.WithExtras | challtools/utils.py:586-587 | The extra ports written over the map, in order. WithExtrasKeys, ExtraPortsTakePrecedence and ServicePortKept state its keys and values. |
| Ports.PortMap | challtools/utils.py:568-587 | The port map a container is created with. PortMapValue states the value of a service's port. |
| Ports.PortMapValue | challtools/utils.py:568-587 | In a container's port map, a service's internal port that no later service and no extra port names maps to that service's external port. |
| Ports.ServiceLine | challtools/utils.py:576-584 | The display line of a service, from 127.0.0.1 and its port. LocalServiceDisplay gives it for `tcp` and `website`; WalkFailsOnUnknownType says it fails exactly on an unknown type. |
| Ports.Lines | challtools/utils.py:576-584 | Formatting all services, when it succeeds, gives one line per service. |
| Ports.ServicePortsKeys | challtools/utils.py:574 | The port map has a key for every service's internal port and no other. |
| Ports.WithExtrasKeys | challtools/utils.py:586-587 | The extra ports add exactly their internal ports to the map's keys. |
| Ports.ExtraPortsTakePrecedence | challtools/utils.py:586-587 | An extra port is published as declared unless a later extra port claims the same internal port. |
| Ports.ServicePortKept | challtools/utils.py:586-587 | An internal port no extra port names keeps the port its service gave it. |
| Ports.WalkServices | challtools/utils.py:569-584 | The walk keeps the number of services. When it succeeds, every service has a port. |
| Ports.WalkContainers | challtools/utils.py:562-584 | The walk keeps the number of containers. The containers it finished are a prefix of them, all with ports, and it finishes all of them when it succeeds. |
| Ports.WalkIsAllocation | challtools/utils.py:569-584 | The walk over services succeeds exactly when formatting the allocated services does. It then equals the plain allocation, with those lines. On failure it has the formatting error. |
| Ports.ContainerWalkIsAllocation | challtools/utils.py:562-584 | A successful walk over containers is the plain allocation across containers. |
| Ports.WalkFailsOnUnknownType | challtools/utils.py:576-584 | The walk fails exactly when some service has an unknown type, and then on the first one. |
| Ports.ContainerWalkSucceedsExactly | challtools/utils.py:562-584 | The walk over containers succeeds exactly when every service of every container has a known type. |
| Ports.ContainerWalkFailsOnUnknownType | challtools/utils.py:562-584 | A failed walk over containers names the unknown type of one of their services. |
| Ports.WalkLineCount | challtools/utils.py:576-584 | A successful walk gives one line per service. |
| Ports.ContainerLineCount | challtools/utils.py:562-584 | A successful walk over containers gives one line per service of every container. |
| Ports.WalkServicesAgain | challtools/utils.py:571 | Walking again over the services a successful walk left behind assigns nothing, keeps the cursor and gives the same lines. |
| Ports.WalkContainersAgain | challtools/utils.py:562-584 | The same for a whole walk over containers. |
| Ports.WalkKeepsContainers | challtools/utils.py:572 | The walk changes the services of the containers and nothing else about them. |
| Build.StreamErrorFirst | challtools/utils.py:397-406 | A build stream fails exactly when some entry is an error or an engine failure, and then with the first such entry's message. |
| Build.StreamError | challtools/utils.py:397-406 | The first fatal entry of a build stream. StreamErrorFirst states when it exists and which it is. |
| Build.ImageBuildError | challtools/utils.py:374-415 | build_image's failure, if any. RefusedFails states that it fails exactly on a refused source; BuildImage states the images it adds. |
| Build.BuildImage | challtools/utils.py:374-415 | A directory's build error is the first fatal stream entry; without one it adds one image tagged `tag:latest`. A regular file fails as not implemented. Anything else is an existing image: nothing to do. Networks, volumes and containers are unchanged. |
| Build.BuildAllContainers | challtools/utils.py:462-472 | Builds each container's image under its derived tag, in order, stopping at the first failure. The images and the failure are those of BuildContainers. |
| Build.Absent | challtools/utils.py:474-488 | The names created are exactly the declared names missing from the list taken beforehand. |
| Build.CreateAbsentNetworks | challtools/utils.py:474-480 | Adds exactly the declared networks absent from the earlier list, in order, and changes nothing else. |
| Build.CreateAbsentVolumes | challtools/utils.py:482-488 | The same for volumes. |
| Build.BuildChall | challtools/utils.py:418-500 | The result and the engine state are those of BuildChallenge. No container is created. |
| Build.BuildSucceedsExactly | challtools/utils.py:462-472 | The container builds succeed exactly when every container's image source builds. |
| Build.BuildStopsAtFirstFailure | challtools/utils.py:462-472 | A failed build of the containers has the error of the first container whose source fails. |
| Build.BuiltContainersListed | challtools/utils.py:464-471 | After a failure-free build from directories, every container's derived tag is in the tag list, whatever was there before. |
| Build.BuildContainers | challtools/utils.py:462-472 | The images of the containers in order, up to the first failure. BuildSucceedsExactly, BuildStopsAtFirstFailure and BuiltContainersListed state its outcome. |
| Build.BuildDeployment | challtools/utils.py:460-488 | The deployment part of build_chall. BuildCreatesDeclared states the networks and volumes it leaves; BuildFatal states its failures. |
| Build.ContainerTag | challtools/utils.py:464-468 | The tag of a container's image: the derived docker name of the title, the container name and the id. DockerNameShape, TagSurvivesRepoTag and BuiltContainersListed state its properties. |
| Build.BuildChallenge | challtools/utils.py:418-500 | build_chall as a function of the starting state. Its properties are BuildVerdict, BuildFatal, BuildRefusesUntouched and BuildCreatesDeclared. |
| Build.RefusedFails | challtools/utils.py:397-411 | build_image fails exactly on an archive file or on a directory whose stream has a fatal entry. |
| Build.BuildFatal | challtools/utils.py:440-500 | Once the deployment checks pass, a non-zero build-script exit fails with that code and leaves the engine as it was. A refused container source or a refused solution-image source fails the build. |
| Build.BuildVerdict | challtools/utils.py:430-500 | On success the result is true exactly when there is a build script, a deployment or a solution image. A solution image without a deployment leaves the engine as it was and fails; when the build script is absent or exits with 0, the failure is the unbound `client`. |
| Build.BuildRefusesUntouched | challtools/utils.py:432-438 | A non-docker deployment, or an unreachable engine, fails with that error and builds and creates nothing. |
| Build.BuildCreatesDeclared | challtools/utils.py:474-488 | After a successful build, the networks are exactly the old ones followed by the declared ones that were not yet present, in declaration order, and likewise the volumes. So every declared one is present and nothing else is created. |
| ContainerEngine.BuiltTagListed | challtools/utils.py:523-527 | An image tagged `name:latest` for a colon-free name puts `name` in the tag list. |
| ContainerEngine.TagNamesGrow | challtools/utils.py:523-527 | Adding images never removes a name from the tag list. |
| ContainerEngine.RepoNames | challtools/utils.py:524-526 | An image's entries in the tag list are its repository tags cut at the first colon. |
| ContainerEngine.Engine.constructor | challtools/utils.py:522 | A client over given images, networks and volumes, with no container created yet. |
| ContainerEngine.Engine.TagImage | challtools/utils.py:391-395 | A finished build adds one image tagged `tag:latest` and changes nothing else. |
| ContainerEngine.Engine.CreateNetwork | challtools/utils.py:478-480 | Adds one network and changes nothing else. |
| ContainerEngine.Engine.CreateVolume | challtools/utils.py:486-488 | Adds one volume and changes nothing else. |
| ContainerEngine.Engine.CreateContainer | challtools/utils.py:589-596 | Adds one container that is not yet started and not yet on any network. Its handle is its position. |
| ContainerEngine.Engine.Connect | challtools/utils.py:600 | Adds the network to that one container's networks. |
| ContainerEngine.Engine.Start | challtools/utils.py:602 | Marks that one container started. |
| Config.ChallengeConfig.constructor | challtools/utils.py:418 | A configuration with the given challenge and deployment. |
| Config.NetworkNames | challtools/utils.py:475 | The declared network names, in order. |
| Start.FirstMissing | challtools/utils.py:529-554 | Finds nothing exactly when every name is present. Otherwise it finds the first name that is missing. |
| Start.ContainerTags | challtools/utils.py:530-534 | The derived tag of each container, in order. |
| Start.Prerequisite | challtools/utils.py:529-554 | Nothing is missing exactly when every container tag, network and volume is present. Otherwise it reports a missing image, network or volume. |
| Start.PrerequisiteNamesMissing | challtools/utils.py:529-554 | A missing image is the derived tag of the first container whose tag is not listed. A missing network comes only when every tag is listed, and it is the first declared network that does not exist. A missing volume comes only when every tag and network is present, and it is the first missing volume. |
| Start.ChallRefusal | challtools/utils.py:519-554 | Why start_chall refuses to start, if it does. PrerequisiteNamesMissing states which image, network or volume it names; StartChallSucceedsExactly states that the start succeeds only without a refusal, and that a refusal starts nothing and leaves the configuration as it was. |
| Start.FindMissing | challtools/utils.py:536-554 | The checking loop returns the first missing name. |
| Start.CheckPrerequisites | challtools/utils.py:529-554 | The three checking loops report what Prerequisite finds. |
| Start.Attached | challtools/utils.py:598-600 | The networks a container joins, in declared order. |
| Start.AttachedExactly | challtools/utils.py:598-600 | A container joins exactly the networks whose member list names it. |
| Start.ContainerRuns | challtools/utils.py:589-605 | One started container per finished container. |
| Start.Ids | challtools/utils.py:605 | The handles of containers created one after another. |
| Start.ServeServices | challtools/utils.py:569-584 | The services loop is the walk over services. When it succeeds, the port map is `{internal: external}` of the updated services. |
| Start.AddExtras | challtools/utils.py:586-587 | The extra ports written over the map, in order. |
| Start.LaunchContainer | challtools/utils.py:589-603 | Adds one started container with the tag, the port map and the networks that name it. Nothing else changes. |
| Start.ServeAndLaunch | challtools/utils.py:562-605 | One container: its services are walked and written back into the configuration. Unless a type is unknown, it is created and started. |
| Start.LaunchAll | challtools/utils.py:562-607 | The configuration holds the walked containers. The engine gains a started container for each finished one. The result is their handles and lines, or the walk's error. |
| Start.StartChallenge | challtools/utils.py:503-607 | start_chall as a function of the starting state. Its properties are in StartProperties. |
| Start.StartChall | challtools/utils.py:503-607 | The result, the configuration and the new containers are those of StartChallenge on the old state. Images, networks and volumes are unchanged. |
| Start.CheckStart | challtools/utils.py:519-554 | The refusal start_chall gives before starting anything: deployment type, engine, then prerequisites. |
| Start.SolutionRefusal | challtools/utils.py:626-649 | When start_solution reaches the containers loop, there is a deployment. |
| Start.ServeAll | challtools/utils.py:649-664 | The solution's services loop is the walk over all containers from port 50000. Its containers are written back. |
| Start.ServeContainer | challtools/utils.py:650-664 | One container of that loop: either the whole walk stops here, or the loop state advances by one container. |
| Start.StartSolutionAsWritten | challtools/utils.py:610-675 | start_solution as a function of the starting state, with the defects of lines 646 and 649. Its properties are SolutionAfterChallenge, SolutionSucceedsExactly and SolutionDefects. |
| Start.StartSolution | challtools/utils.py:610-675 | The result, the configuration and the new containers are those of StartSolutionAsWritten on the old state. Images, networks and volumes are unchanged. |
| Start.CheckSolution | challtools/utils.py:623-649 | The refusal start_solution gives before it serves a service. |
| StartProperties.ContainerRunsAt | challtools/utils.py:589-605 | The i-th started container has the i-th container's derived tag, port map and networks. |
| StartProperties.SameNamesSameTags | challtools/utils.py:529-534 | The tags checked depend on the container names only. |
| StartProperties.StartChallSucceedsExactly | challtools/utils.py:516-584 | start_chall succeeds exactly in two cases: nothing is to be started, or the deployment is docker, the engine is reachable, every tag, network and volume exists and every service type is known. With nothing to start it gives `([], [])`. When it refuses early it touches neither the configuration nor the engine. |
| StartProperties.StartChallStartsAll | challtools/utils.py:556-607 | A successful start hands out ports exactly as the flat allocation from 50000 does and leaves every service with a port. It starts one container per declared container, with its tag, port map and networks, and gives one line per service. |
| StartProperties.RestartReusesPorts | challtools/utils.py:571-573 | Starting again from the configuration a successful start left behind assigns no new port and starts the same containers with the same lines. |
| StartProperties.SolutionAfterChallenge | challtools/utils.py:649-675 | After a successful start_chall, start_solution assigns nothing new. Its one container runs on the host network with the challenge's lines as its command. |
| StartProperties.SolutionSucceedsExactly | challtools/utils.py:623-675 | start_solution succeeds exactly when there is no solution image, or the engine is reachable, the solution tag exists, there are no predefined services, there is a deployment and every service type is known. On success it starts nothing, or one host-network container with the solution tag. |
| StartProperties.SolutionDefects | challtools/utils.py:644-649 | Any predefined service fails on the unbound `service`. A missing deployment fails on indexing it. Neither starts a container. |
| StartProperties.AllStillListed | challtools/utils.py:523-527 | Listed tags stay listed when images are added. |
| StartProperties.BuildEnablesStart | challtools/utils.py:464-471 | After a successful build from directories, start_chall finds every image, network and volume. A solution image built from a directory is listed under the tag start_solution looks for. |
| StartProperties.DeploymentReady | challtools/utils.py:460-488 | After the deployment part of the build, every image, network and volume start_chall checks for is present, whatever images are added afterwards. |
| StartProperties.BuildStoreShape | challtools/utils.py:432-498 | A successful build with a deployment had a docker type and a reachable engine. Its images are the old ones, then the containers', then the solution's. |

## Left out

- Printing and terminal styling: `print` calls are not modelled. `STYLED_LEVELS`, `BOLD` and `CLEAR` come from `challtools/constants.py`, which is not part of this model, so they are a `Styling` parameter.
- Loading, discovering and validating configurations are outside this core: `get_ctf_config_path`, `load_ctf_config`, `load_config`, `discover_challenges` and `get_valid_config`. The model takes a normalised configuration.
- `get_docker_client` is only its outcome, the engine's `reachable` flag. The Docker SDK calls are the methods of `Engine`.
- `json.loads` of build-stream chunks: chunks arrive decoded as `Chunk` values.
- MD5 is a parameter returning 32 lowercase hex digits; the hash itself is not computed.
- `re.search` is a parameter; regular-expression semantics are not modelled, so the regex examples are not stated.
- The build script's subprocess and its output forwarding are reduced to its exit code for the given path and flag.
- Whether an image path is a directory or a regular file is the `sources` parameter; no filesystem is modelled.
- Archive import (line 411) is the error outcome `ArchiveImportNotImplemented`. Nothing is imported.
- Container creation options with no effect on the model's state are not recorded: `detach`, `auto_remove` and the `TEST` environment variable. Volumes are not mounted, as in the source (TODO at line 595).
- Concurrency and the check-then-create races on networks, volumes and ports between runs: the code is sequential, and the engine is modelled as used by one invocation at a time.
- An unset `challenge_id`, container name, service field or solution image (None) is the same as "", as the source treats both alike with `or ""` and truthiness.
- Messages.ProcessMessages: requires levels between 1 and 5 and five styled level names, as the validator and the constants provide. Other levels would index `STYLED_LEVELS` out of range or from the end.
- DockerNames.LowerAscii: lowercases ASCII letters only. That is exact here because the filter before it has removed every other letter.
- Engine call failures: every call of `Engine` succeeds in the model. In the source, a `docker.errors.APIError` from `containers.create`, `start`, `network.connect`, `networks.create` or `volumes.create` escapes, for example on a port already in use or a name conflict. StartProperties.StartChallStartsAll and the build lemmas hold only for an engine that accepts every call. The APIError of the build stream itself is modelled, as `ApiFailure`.
- Start.StartSolution: builds no port map, as the source's `start_solution` passes none. The ports it assigns are kept in the configuration.

## Findings

| source | as written | input that shows it | evidently intended | confidence | as-written member | corrected member |
|---|---|---|---|---|---|---|
| challtools/utils.py:358-360 | `submitted_flag[len(p):-len(q)]` with an empty suffix q is `s[len(p):0]`, which is always "" | prefix "flag{", suffix "", text flag "abc": `get_first_text_flag` gives "flag{abc", and `validate_flag` rejects it | cut the suffix by counting from the end, `s[len(p):len(s)-len(q)]`, so that every generated flag is accepted | not executed | Flags.EmptySuffixCounterexample | Flags.IntendedGeneratedFlagValidates |
