# beaker-puppet `PuppetUtils`, modelled in Dafny

This project models the `PuppetUtils` helpers of beaker-puppet
(`lib/beaker-puppet/install_utils/puppet_utils.rb`). These helpers prepare the
hosts of a Puppet acceptance-test run. They:

- normalise a host's declared type,
- map a version string to the name of a Puppet release collection,
- read versions from the output of probe commands,
- build and apply the PATH that holds Puppet's binaries,
- install or remove the per-type defaults,
- re-sign every agent's certificate on the master,
- stop the firewall of each host.

The pure helpers become functions. The helpers that walk a list of hosts and
issue commands become methods of the class `PuppetUtils.PuppetUtils`. Each
method appends every harness call it makes to the field `log`, in order. It
is proved to make exactly the calls, and to end exactly as, a specification
function says. The properties of the helpers are then proved about those
functions.

Modules:

- `RubyText` — the parts of Ruby's String behaviour the code relies on:
  - `strip`, which removes NUL and ASCII whitespace at both ends;
  - `split` with a one-character separator, which drops trailing empty fields;
  - `to_i`, which skips leading whitespace, reads an optional sign and then
    the leading digits (single underscores between digits allowed), and gives
    0 when there are none;
  - `Integer#to_s`, `join`, and substring search.
- `Harness` — the harness vocabulary:
  - hosts, with their options, roles and the answers to `is_powershell?`,
    `use_service_scripts?` and `aio_version?`;
  - the output of a command;
  - accepted exit codes;
  - the logged calls;
  - the raised errors and their messages;
  - traces (an outcome plus the calls made).
- `HostTypes` — `normalize_type`, with a reference definition that splits on
  dashes.
- `Collections` — the three collection resolvers.
- `VersionProbe` — `puppet_agent_version_on` and `puppetserver_version_on` over
  the probe's exit code and output, including Ruby's `scan(/\d+\.\d+\.\d+/).last`.
- `PuppetPath` — `construct_puppet_path` and the PATH edits.
- `Defaults` — `remove_defaults_on`, `configure_defaults_on` and
  `configure_type_defaults_on` as traces, together with the hosts as the
  handlers leave them.
- `CertSigning` — `sign_agent_cert_for` as a trace.
- `Firewall` — the platform dispatch of `stop_firewall_with_puppet_on`.
- `PuppetUtils` — the class with the log and the imperative helpers.

The surroundings of the helpers are parameters:

- `echo_on(host, value)` is a function `echo`, fixed when the object is built.
- The output of a command run on a host is given by a function `respond(host, command)`.
- The handlers the object responds to (`add_foss_defaults_on`, ...) are a map
  from their names to the update each makes to a host's record. Calling a
  handler is logged as `Send(name, host)`, and the host is replaced by the
  handler's result; every later step sees the updated host. A name outside
  the map is the raise path.
- The ambient `master` of the DSL is an argument of `sign_agent_cert_for`.

Where the code and its documentation disagree, the model follows the code:

- The comment example `normalize_type('git')` giving `'foss'` does not hold
  of the regular expressions. The model gives nothing for `git`.
- `\Z` is modelled as Ruby defines it: the end of the string, or just before a
  final newline. `HostTypes.NormalizeTypeTrailingNewline` shows a case.

Quirks of the code, reproduced as written:

- `remove_defaults_on` removes the paths of all the hosts passed in, for each
  typed host. The paths are those of the hosts as the handlers called so far
  left them.
- A type that does not normalise builds the handler name `remove__defaults_on`.
- `sign_agent_cert_for` counts masters among its hosts but acts on the master
  it is given.
- `get_puppet_collection` treats only the exact string `latest` as latest.
  The other two resolvers strip it first.

## Model

| member | source | states |
|---|---|---|
| `RubyText.StripSpec` | lib/beaker-puppet/install_utils/puppet_utils.rb:135 | what `strip` keeps: an infix surrounded only by NUL or whitespace, neither starting nor ending with one |
| `RubyText.StripIdempotent` | lib/beaker-puppet/install_utils/puppet_utils.rb:99 | stripping a stripped version changes nothing |
| `RubyText.StripSurrounded` | lib/beaker-puppet/install_utils/puppet_utils.rb:99 | a text that neither starts nor ends with NUL or whitespace is what `strip` leaves of it with any NUL or whitespace around it |
| `RubyText.Split` | lib/beaker-puppet/install_utils/puppet_utils.rb:101 | `split('.')` is the list of dot-separated fields with exactly the trailing empty ones removed |
| `RubyText.JoinFields` | lib/beaker-puppet/install_utils/puppet_utils.rb:101 | joining the fields of a string with the separator gives the string back |
| `RubyText.FieldsOfJoin` | lib/beaker-puppet/install_utils/puppet_utils.rb:49 | splitting a join of separator-free parts gives the parts back |
| `RubyText.ToINatToString` | lib/beaker-puppet/install_utils/puppet_utils.rb:108 | `to_i` reads back what `Integer#to_s` wrote |
| `RubyText.ToIOfDigits` | lib/beaker-puppet/install_utils/puppet_utils.rb:101 | `to_i` of a plain run of digits is its decimal value |
| `RubyText.Contains` | lib/beaker-puppet/install_utils/puppet_utils.rb:312-323 | a literal regular expression matches exactly when it occurs at some index |
| `HostTypes.HasToken` | lib/beaker-puppet/install_utils/puppet_utils.rb:24-29 | the pattern matches exactly when the tag occurs at the start or after a dash, and at the end, before a final newline or before a dash |
| `HostTypes.NormalizeType` | lib/beaker-puppet/install_utils/puppet_utils.rb:22-33 | foss exactly when foss matches; pe exactly when pe matches and foss does not; aio exactly when only aio matches; nil when none does |
| `HostTypes.TokenIffField` | lib/beaker-puppet/install_utils/puppet_utils.rb:24-29 | without a final newline, the pattern matches exactly when the tag is one of the dash-separated fields |
| `HostTypes.NormalizeTypeIsTokenLookup` | lib/beaker-puppet/install_utils/puppet_utils.rb:22-33 | `normalize_type` equals the reference definition: the first of foss, pe, aio among the dash-separated fields |
| `HostTypes.NormalizeTypePeAio` | lib/beaker-puppet/install_utils/puppet_utils.rb:13-15 | the documented example: `pe-aio` is pe |
| `HostTypes.NormalizeTypeFossInternal` | lib/beaker-puppet/install_utils/puppet_utils.rb:19-21 | the documented example: `foss-internal` is foss |
| `HostTypes.NormalizeTypeInsideWord` | lib/beaker-puppet/install_utils/puppet_utils.rb:24-29 | a tag inside a longer word does not match: `pefoss` is nil |
| `HostTypes.NormalizeTypePriority` | lib/beaker-puppet/install_utils/puppet_utils.rb:23-29 | for every type string: foss whenever foss is a dash-separated field; foss or pe whenever pe is one; some type whenever aio is one |
| `HostTypes.NormalizeTypeTrailingNewline` | lib/beaker-puppet/install_utils/puppet_utils.rb:24 | `\Z` also matches before a final newline |
| `HostTypes.FieldStart` | lib/beaker-puppet/install_utils/puppet_utils.rb:24-29 | every dash-separated field stands between the start or a dash and the end or a dash; only the first starts at 0 |
| `HostTypes.FieldBack` | lib/beaker-puppet/install_utils/puppet_utils.rb:24-29 | a dash-delimited occurrence is one of the fields |
| `Collections.VersionFields` | lib/beaker-puppet/install_utils/puppet_utils.rb:101 | `split('.').map(&:to_i)`: one number per field, each the `to_i` of its field |
| `Collections.LexLessIrreflexive` | lib/beaker-puppet/install_utils/puppet_utils.rb:84 | the stand-in for `version_is_less` is irreflexive |
| `Collections.LexLessTransitive` | lib/beaker-puppet/install_utils/puppet_utils.rb:84 | the stand-in for `version_is_less` is transitive |
| `Collections.GetPuppetCollection` | lib/beaker-puppet/install_utils/puppet_utils.rb:81-91 | always PC1, puppet5 or puppet6; PC1 for `latest`; puppet5 exactly when not below 5.5.4 and below 5.99; puppet6 exactly when not below 5.99 |
| `Collections.GetPuppetCollectionBuckets` | lib/beaker-puppet/install_utils/puppet_utils.rb:83-88 | for x.y.z: puppet6 exactly from 5.99 on, puppet5 exactly from 5.5.4 up to 5.99, PC1 exactly below 5.5.4 |
| `Collections.CollectionFor` | lib/beaker-puppet/install_utils/puppet_utils.rb:98-126 | both resolvers, with legacy major 1 (agent) or 4 (gem): `puppet` for a stripped `latest`; nil for fewer than three fields; `pc1` for the legacy major; otherwise exactly `puppet` followed by the decimal digits of the bumped major n (no leading zero) when n > 4, and nil when n <= 4 |
| `Collections.ResolversAgreeOffLegacy` | lib/beaker-puppet/install_utils/puppet_utils.rb:98-126 | the two resolvers agree unless the major field is 1 or 4 |
| `Collections.CollectionLatest` | lib/beaker-puppet/install_utils/puppet_utils.rb:98-126 | `latest` with any NUL or whitespace around it is `puppet` for both resolvers |
| `Collections.AgentLegacy` | lib/beaker-puppet/install_utils/puppet_utils.rb:104 | agent 1.2.3 is pc1 |
| `Collections.AgentPrerelease` | lib/beaker-puppet/install_utils/puppet_utils.rb:106-108 | agent 5.99.0 is puppet6 |
| `Collections.AgentFour` | lib/beaker-puppet/install_utils/puppet_utils.rb:108 | agent 4.3.0 has no collection |
| `Collections.PuppetFour` | lib/beaker-puppet/install_utils/puppet_utils.rb:121 | puppet 4.0.0 is pc1 |
| `Collections.PuppetSix` | lib/beaker-puppet/install_utils/puppet_utils.rb:125 | puppet 6.0.0 is puppet6 |
| `Collections.LegacyBeforeBump` | lib/beaker-puppet/install_utils/puppet_utils.rb:98-126 | the legacy check comes before the bump: 4.99.0 is pc1 for the gem and puppet5 for the agent |
| `Collections.TrailingDot` | lib/beaker-puppet/install_utils/puppet_utils.rb:101-102 | `5.0.` splits into two fields, so it has no collection |
| `Collections.NonNumericField` | lib/beaker-puppet/install_utils/puppet_utils.rb:101-108 | a non-numeric field reads as 0 and is not missing: `5.x.0` is puppet5 |
| `Collections.EmptyField` | lib/beaker-puppet/install_utils/puppet_utils.rb:101-108 | an empty inner field reads as 0 and is not missing: `5..0` is puppet5 |
| `VersionProbe.AgentVersionFrom` | lib/beaker-puppet/install_utils/puppet_utils.rb:132-137 | a version exactly when the probe exited 0, that version being the stripped output |
| `VersionProbe.DigitRun` | lib/beaker-puppet/install_utils/puppet_utils.rb:146 | `\d+` takes the whole run of digits at a position |
| `VersionProbe.MatchIsTriple` | lib/beaker-puppet/install_utils/puppet_utils.rb:146 | every match of `\d+\.\d+\.\d+` is three non-empty digit fields joined by dots |
| `VersionProbe.ScanFrom` | lib/beaker-puppet/install_utils/puppet_utils.rb:146 | `scan` finds only positions where a match starts, from the given one on |
| `VersionProbe.ScanOrdered` | lib/beaker-puppet/install_utils/puppet_utils.rb:146 | each match found ends at or before the start of every later one |
| `VersionProbe.ScanNoneBefore` | lib/beaker-puppet/install_utils/puppet_utils.rb:146-147 | no match starts before the first one found, and none at all when nothing is found |
| `VersionProbe.ScanNoneAfter` | lib/beaker-puppet/install_utils/puppet_utils.rb:146-147 | no match starts after the end of the last one found |
| `VersionProbe.ScanCovers` | lib/beaker-puppet/install_utils/puppet_utils.rb:146 | every position where a match starts lies inside a match found: the leftmost, non-overlapping search skips no match it could take |
| `VersionProbe.ScanSpec` | lib/beaker-puppet/install_utils/puppet_utils.rb:146-147 | what `scan` returns, completely: matches only, in order without overlap, none before the first or after the last, none skipped |
| `VersionProbe.LastStart` | lib/beaker-puppet/install_utils/puppet_utils.rb:146-147 | `.last`: none exactly when nothing matches, exactly when the scan is empty; otherwise the last position of the scan, a match after whose end nothing matches |
| `VersionProbe.LastMatch` | lib/beaker-puppet/install_utils/puppet_utils.rb:146-147 | the text of the last match of the scan, `s[p..p + MatchLen(s, p)]` for its start p: a dotted triple with no match after it; nil exactly when nothing matches |
| `VersionProbe.LastMatchAt` | lib/beaker-puppet/install_utils/puppet_utils.rb:146-147 | at the last start of the scan the match is non-empty, lies inside the text, is a dotted triple, and no match begins after its end |
| `VersionProbe.PuppetserverVersionFrom` | lib/beaker-puppet/install_utils/puppet_utils.rb:143-149 | a version only when the probe exited 0, and then exactly the text of the last match of the scan of the stripped output; nil after exit 0 only when that output has no match |
| `VersionProbe.MatchOfSuffixed` | lib/beaker-puppet/install_utils/puppet_utils.rb:146 | `6.0.1-SNAPSHOT` matches as `6.0.1` |
| `VersionProbe.DigitRunExact` | lib/beaker-puppet/install_utils/puppet_utils.rb:146 | `\d+` at a position is exactly the digits standing there |
| `VersionProbe.TripleMatches` | lib/beaker-puppet/install_utils/puppet_utils.rb:146 | wherever three digit runs stand joined by dots, a match starts there, and it takes the whole third run |
| `VersionProbe.LastMatchOverlapping` | lib/beaker-puppet/install_utils/puppet_utils.rb:146-147 | `1.2.3.4` gives `1.2.3`: the scan resumes after the first match, so `2.3.4` is never found |
| `PuppetPath.Values` | lib/beaker-puppet/install_utils/puppet_utils.rb:38-41 | no more option values than keys are kept, and none of them is empty |
| `PuppetPath.PathValuesInOrder` | lib/beaker-puppet/install_utils/puppet_utils.rb:38-41 | each of puppetbindir, facterbindir, hierabindir, privatebindir contributes its value, in that order, exactly when it is set and not empty |
| `PuppetPath.ValuesAllPresent` | lib/beaker-puppet/install_utils/puppet_utils.rb:38-41 | with all four set, all four values are kept, duplicates included |
| `PuppetPath.ValuesNonePresent` | lib/beaker-puppet/install_utils/puppet_utils.rb:38-41 | with none set, nothing is kept |
| `PuppetPath.ValuesFromKeys` | lib/beaker-puppet/install_utils/puppet_utils.rb:40-41 | every value kept is the value of a key that is set |
| `PuppetPath.ValuesAppend` | lib/beaker-puppet/install_utils/puppet_utils.rb:40-41 | the values of two runs of keys come one after the other |
| `PuppetPath.ValueOf` | lib/beaker-puppet/install_utils/puppet_utils.rb:40-41 | one option gives one value exactly when it is set and not empty |
| `PuppetPath.EchoAllSpec` | lib/beaker-puppet/install_utils/puppet_utils.rb:43 | each value is replaced by its echo, in place |
| `PuppetPath.PathEntries` | lib/beaker-puppet/install_utils/puppet_utils.rb:37-50 | splitting the path on ':' (or on the PowerShell host's separator) gives back the echoed values in order |
| `PuppetPath.PathEmpty` | lib/beaker-puppet/install_utils/puppet_utils.rb:37-50 | with no option set, the path is empty |
| `PuppetPath.PathCalls` | lib/beaker-puppet/install_utils/puppet_utils.rb:55-73 | two environment edits per host |
| `PuppetPath.PathCallsAt` | lib/beaker-puppet/install_utils/puppet_utils.rb:55-73 | host i's edits are calls 2i and 2i+1: its path added (or deleted), then `PATH` added back |
| `PuppetPath.PathKept` | lib/beaker-puppet/install_utils/puppet_utils.rb:55-73 | whatever the edit, every host gets `PATH` added back |
| `Harness.Then` | lib/beaker-puppet/install_utils/puppet_utils.rb:157-170 | a step that raised ends the run; otherwise the next step's calls follow |
| `Harness.MissingAddMessage` | lib/beaker-puppet/install_utils/puppet_utils.rb:162-167 | the missing-add-handler error names the type, the host and the handler |
| `Harness.MissingRemoveMessage` | lib/beaker-puppet/install_utils/puppet_utils.rb:298 | the missing-remove-handler error names the type, the host and the handler |
| `Harness.MasterCountMessage` | lib/beaker-puppet/install_utils/puppet_utils.rb:212 | the master-count error names the count, which reads back as that number |
| `Defaults.BlockOn` | lib/beaker-puppet/install_utils/puppet_utils.rb:156-171 | `block_on`: the hosts one after the other, each seeing the list as the hosts before it left it; the hosts from n on are left as they are |
| `Defaults.BlockOnPass` | lib/beaker-puppet/install_utils/puppet_utils.rb:156-171 | a run passes exactly when every host passes, and then makes every host's calls in order and leaves every host as its own step left it |
| `Defaults.BlockOnStops` | lib/beaker-puppet/install_utils/puppet_utils.rb:156-171 | a host that raises ends the run: the hosts after it make no call and are left as they are |
| `Defaults.BlockOnNext` | lib/beaker-puppet/install_utils/puppet_utils.rb:156-171 | one more host after a passing run adds its calls and its outcome, and replaces that host by the one its step leaves |
| `Defaults.BlockOnFirstFailure` | lib/beaker-puppet/install_utils/puppet_utils.rb:156-171 | the run raises the error of the first host that raises, after the calls of the hosts before it and its own |
| `Defaults.LocalRun` | lib/beaker-puppet/install_utils/puppet_utils.rb:156-171 | with steps that read only their own host: a pass exactly when every host passes, then every host left as its step leaves it; otherwise the first failing host's error |
| `Defaults.Direct` | lib/beaker-puppet/install_utils/puppet_utils.rb:193-196 | a handler called by name passes exactly when it exists, then logs one call and leaves the host as the handler does; otherwise it raises NoMethodError without a call and leaves the host as it is |
| `Defaults.RemoveDefaultsUntyped` | lib/beaker-puppet/install_utils/puppet_utils.rb:286-305 | when no host has a type, nothing is done at all and every host is left as it is |
| `Defaults.RemoveTyped` | lib/beaker-puppet/install_utils/puppet_utils.rb:288-303 | a typed host first removes the paths of every host passed in, then calls its remove handler if it exists and raises naming the type otherwise; an unknown type builds `remove__defaults_on`; the aio check reads the host as the remove handler left it, and the host is left as the last handler called leaves it |
| `Defaults.RemovePathsAsLeft` | lib/beaker-puppet/install_utils/puppet_utils.rb:286-296 | host i removes the PATH of each host as it is at that moment: an earlier host as its own step left it, a later one as passed in |
| `Defaults.RemovePathAt` | lib/beaker-puppet/install_utils/puppet_utils.rb:291 | a typed host's first calls delete the path of every host of the list it is given, each with its own path |
| `Defaults.RemoveStepAt` | lib/beaker-puppet/install_utils/puppet_utils.rb:286-296 | host i works on the list as the hosts before it left it |
| `Defaults.RemoveSingle` | lib/beaker-puppet/install_utils/puppet_utils.rb:159 | `remove_defaults_on(host)` is that host's step on the list of it alone |
| `Defaults.ConfigureOrder` | lib/beaker-puppet/install_utils/puppet_utils.rb:158-169 | on a passing host: the removal first; then the add handler, sent with the host as the removal left it; then the two PATH edits with the path of the host as the add handler left it, which is the host left |
| `Defaults.ConfigureMissingHandler` | lib/beaker-puppet/install_utils/puppet_utils.rb:162-167 | a missing add handler raises after the removal and before any PATH edit, naming the type and the host, and leaves the host as the removal left it |
| `Defaults.ConfigureStopsAtFailure` | lib/beaker-puppet/install_utils/puppet_utils.rb:156-171 | configure_defaults_on raises the first failing host's error, after the calls of the hosts before it, each fully configured |
| `Defaults.ConfigureDefaultsHosts` | lib/beaker-puppet/install_utils/puppet_utils.rb:156-171 | configure_defaults_on passes exactly when every host passes, and then leaves each host as its own configuration left it |
| `Defaults.ConfigureTypePaths` | lib/beaker-puppet/install_utils/puppet_utils.rb:174-202 | a passing host calls the type handler when the foss/pe branch fires, then add_aio_defaults_on when the host as the type handler left it is aio, and adds, exactly once if either fired and never otherwise, the path of the host as both handlers left it, which is the host left |
| `Defaults.ConfigureTypeFails` | lib/beaker-puppet/install_utils/puppet_utils.rb:177-196 | a host raises exactly when the type handler it needs is missing, or when the host as the type handler left it is aio and add_aio_defaults_on is missing |
| `Defaults.ConfigureTypeAioLabel` | lib/beaker-puppet/install_utils/puppet_utils.rb:181-183 | a host labelled aio that is not an aio host gets nothing and is left as it is |
| `Defaults.ConfigureTypeDefaultsHosts` | lib/beaker-puppet/install_utils/puppet_utils.rb:174-202 | configure_type_defaults_on passes exactly when every host passes, then leaves each host as its own configuration left it; otherwise it raises the first failing host's error |
| `Defaults.EnvEditsOfPaths` | lib/beaker-puppet/install_utils/puppet_utils.rb:55-73 | the PATH helpers make only environment edits and call no handler |
| `CertSigning.MastersAmong` | lib/beaker-puppet/install_utils/puppet_utils.rb:211 | the master count is the number of positions among the hosts that hold the master role |
| `CertSigning.OneMaster` | lib/beaker-puppet/install_utils/puppet_utils.rb:211-212 | the count is 1 exactly when one position holds the master role and no other does |
| `CertSigning.Agents` | lib/beaker-puppet/install_utils/puppet_utils.rb:256-274 | the agents are exactly the hosts other than the master |
| `CertSigning.AgentsCount` | lib/beaker-puppet/install_utils/puppet_utils.rb:256-274 | every host other than the master stays as often as it is listed, the master never, so the agents number the hosts less the master's listings |
| `CertSigning.AgentsAppend` | lib/beaker-puppet/install_utils/puppet_utils.rb:256-274 | the agents of two lists one after the other are the agents of each, in order |
| `CertSigning.AgentsOfOne` | lib/beaker-puppet/install_utils/puppet_utils.rb:258 | one host is an agent exactly when it is not the master |
| `CertSigning.WipeCalls` | lib/beaker-puppet/install_utils/puppet_utils.rb:231-236 | two calls per host: the ssldir lookup and the wipe |
| `CertSigning.SignNeedsOneMaster` | lib/beaker-puppet/install_utils/puppet_utils.rb:211-212 | no command at all exactly when the hosts do not hold exactly one master, and then the master-count error |
| `CertSigning.SignNeedsServer` | lib/beaker-puppet/install_utils/puppet_utils.rb:214-215 | with one master, it passes exactly when the probe gives a version; otherwise it raises right after the probe, in particular when the probe exits non-zero |
| `CertSigning.IntermediateCaThreshold` | lib/beaker-puppet/install_utils/puppet_utils.rb:217-218 | for the reported x.y.z, intermediate-CA mode holds exactly when x > 5 or x = 5 and y >= 99 |
| `CertSigning.AgentPassIsAgents` | lib/beaker-puppet/install_utils/puppet_utils.rb:256-274 | a pass runs `agent --test` once on each agent, in order, with the given exit codes |
| `CertSigning.PassSkipsMaster` | lib/beaker-puppet/install_utils/puppet_utils.rb:256-274 | no call of a pass goes to the master |
| `CertSigning.PassLength` | lib/beaker-puppet/install_utils/puppet_utils.rb:256-274 | a pass makes one call for each listing of a host other than the master |
| `CertSigning.WipeCallsAt` | lib/beaker-puppet/install_utils/puppet_utils.rb:231-236 | host i's ssldir is looked up and emptied at calls 2i and 2i+1 |
| `CertSigning.WipedBeforeStart` | lib/beaker-puppet/install_utils/puppet_utils.rb:228-251 | the ssldir of every host passed in is emptied before the start; the master's is among them exactly when the master is one of the hosts |
| `CertSigning.SignWithPass` | lib/beaker-puppet/install_utils/puppet_utils.rb:214-276 | a passing run is the probe followed by the preparation, the start and what follows it |
| `CertSigning.SignSequence` | lib/beaker-puppet/install_utils/puppet_utils.rb:228-275 | a passing run wipes every ssldir before the start; after it come pass 1 (exit 1), the signing (0 or 24, `ca sign` or `cert sign` by mode), pass 2 (0 or 2) and the stop |
| `CertSigning.CaSetupOnlyInIntermediateMode` | lib/beaker-puppet/install_utils/puppet_utils.rb:251 | `puppetserver ca setup` is run exactly in intermediate-CA mode |
| `CertSigning.NotInWipe` | lib/beaker-puppet/install_utils/puppet_utils.rb:231-236 | every call of the wipe goes to a listed host, accepts only exit 0, and is either the ssldir lookup or the `rm -rf` of the ssldir that lookup reported on that host |
| `Firewall.ChooseFirewallBranches` | lib/beaker-puppet/install_utils/puppet_utils.rb:311-327 | each branch is taken exactly when its pattern matches and no earlier one does; nothing when none matches or there is no platform |
| `Firewall.StoppedServices` | lib/beaker-puppet/install_utils/puppet_utils.rb:319-324 | the only services stopped are firewalld, iptables and ufw |
| `Firewall.El7MatchesEl` | lib/beaker-puppet/install_utils/puppet_utils.rb:319-322 | every el-7 platform matches `el-` too; only the branch order sends it to firewalld |
| `Firewall.NoActionNoCalls` | lib/beaker-puppet/install_utils/puppet_utils.rb:325-326 | a platform that matches nothing issues no command |
| `Firewall.FlushOnlyWhenFound` | lib/beaker-puppet/install_utils/puppet_utils.rb:312-318 | on debian the iptables lookup comes first, and it flushes exactly when the lookup exits 0 |
| `Firewall.FirewallCallsOnHost` | lib/beaker-puppet/install_utils/puppet_utils.rb:311-327 | every call goes to the host and accepts only exit 0, except the lookup, which accepts every code |
| `Firewall.StopFirewallOnHosts` | lib/beaker-puppet/install_utils/puppet_utils.rb:310 | every call of the run goes to one of the hosts |
| `Firewall.DebianFlushes` | lib/beaker-puppet/install_utils/puppet_utils.rb:312 | debian-10 flushes iptables |
| `Firewall.El7StopsFirewalld` | lib/beaker-puppet/install_utils/puppet_utils.rb:319-320 | el-7 stops firewalld |
| `Firewall.El8StopsIptables` | lib/beaker-puppet/install_utils/puppet_utils.rb:321-322 | el-8 stops the iptables service |
| `Firewall.Centos7StopsIptables` | lib/beaker-puppet/install_utils/puppet_utils.rb:321-322 | centos-7 stops the iptables service |
| `Firewall.UbuntuStopsUfw` | lib/beaker-puppet/install_utils/puppet_utils.rb:323-324 | ubuntu stops ufw |
| `Firewall.OtherPlatformDoesNothing` | lib/beaker-puppet/install_utils/puppet_utils.rb:325-326 | other platforms get nothing |
| `PuppetUtils.PuppetUtils.constructor` | lib/beaker-puppet/install_utils/puppet_utils.rb:7 | the helper object starts with an empty log and the given surroundings |
| `PuppetUtils.PuppetUtils.EditPuppetPathOn` | lib/beaker-puppet/install_utils/puppet_utils.rb:55-73 | one host's two PATH edits are logged |
| `PuppetUtils.PuppetUtils.EditPuppetPathsOn` | lib/beaker-puppet/install_utils/puppet_utils.rb:55-73 | the log grows by exactly the edits of `PuppetPath.PathCalls` |
| `PuppetUtils.PuppetUtils.AddPuppetPathsOn` | lib/beaker-puppet/install_utils/puppet_utils.rb:55-61 | the log grows by the adding edits of every host |
| `PuppetUtils.PuppetUtils.RemovePuppetPathsOn` | lib/beaker-puppet/install_utils/puppet_utils.rb:67-73 | the log grows by the deleting edits of every host |
| `PuppetUtils.PuppetUtils.CallDirect` | lib/beaker-puppet/install_utils/puppet_utils.rb:193-196 | ends, logs and leaves the host as `Defaults.Direct` |
| `PuppetUtils.PuppetUtils.RemoveDefaultsOnHost` | lib/beaker-puppet/install_utils/puppet_utils.rb:288-303 | ends, logs and leaves the host as one host of `Defaults.RemoveDefaults` |
| `PuppetUtils.PuppetUtils.RemoveDefaultsOn` | lib/beaker-puppet/install_utils/puppet_utils.rb:286-305 | ends, logs and leaves the hosts as `Defaults.RemoveDefaults` |
| `PuppetUtils.PuppetUtils.ConfigureDefaultsOnHost` | lib/beaker-puppet/install_utils/puppet_utils.rb:158-169 | ends, logs and leaves the host as one host of `Defaults.ConfigureDefaults` |
| `PuppetUtils.PuppetUtils.ConfigureDefaultsOn` | lib/beaker-puppet/install_utils/puppet_utils.rb:156-171 | ends, logs and leaves the hosts as `Defaults.ConfigureDefaults` |
| `PuppetUtils.PuppetUtils.AddTypeDefaultsOnHost` | lib/beaker-puppet/install_utils/puppet_utils.rb:176-192 | ends, logs and leaves the host as the type branch; the flag is set exactly when the branch fires |
| `PuppetUtils.PuppetUtils.ConfigureTypeDefaultsOnHost` | lib/beaker-puppet/install_utils/puppet_utils.rb:176-200 | ends, logs and leaves the host as one host of `Defaults.ConfigureTypeDefaults` |
| `PuppetUtils.PuppetUtils.ConfigureTypeDefaultsOn` | lib/beaker-puppet/install_utils/puppet_utils.rb:174-202 | ends, logs and leaves the hosts as `Defaults.ConfigureTypeDefaults` |
| `PuppetUtils.PuppetUtils.PuppetAgentVersionOn` | lib/beaker-puppet/install_utils/puppet_utils.rb:132-137 | logs the probe (every exit code accepted) and returns `VersionProbe.AgentVersionFrom` of its output |
| `PuppetUtils.PuppetUtils.PuppetserverVersionOn` | lib/beaker-puppet/install_utils/puppet_utils.rb:143-149 | logs the probe (every exit code accepted) and returns `VersionProbe.PuppetserverVersionFrom` of its output |
| `PuppetUtils.PuppetUtils.AgentPassOn` | lib/beaker-puppet/install_utils/puppet_utils.rb:256-274 | the log grows by exactly one `agent --test` pass |
| `PuppetUtils.PuppetUtils.ClearSslOn` | lib/beaker-puppet/install_utils/puppet_utils.rb:231-236 | the log grows by exactly the ssldir lookups and wipes |
| `PuppetUtils.PuppetUtils.ReadNamesOn` | lib/beaker-puppet/install_utils/puppet_utils.rb:241-249 | logs the two name lookups; the names give the start call |
| `PuppetUtils.PuppetUtils.PrepareOn` | lib/beaker-puppet/install_utils/puppet_utils.rb:224-251 | the log grows by exactly the stop, the wipes, the name lookups and the CA setup by mode |
| `PuppetUtils.PuppetUtils.WhileRunningOn` | lib/beaker-puppet/install_utils/puppet_utils.rb:253-275 | the log grows by exactly the passes, the signing and the stop |
| `PuppetUtils.PuppetUtils.SignInModeOn` | lib/beaker-puppet/install_utils/puppet_utils.rb:224-275 | the log grows by exactly everything after the probe |
| `PuppetUtils.PuppetUtils.SignAgentCertFor` | lib/beaker-puppet/install_utils/puppet_utils.rb:210-276 | ends and logs as `CertSigning.SignAgentCert` |
| `PuppetUtils.PuppetUtils.StopFirewallOnHost` | lib/beaker-puppet/install_utils/puppet_utils.rb:311-327 | logs exactly one host's firewall calls |
| `PuppetUtils.PuppetUtils.StopFirewallWithPuppetOn` | lib/beaker-puppet/install_utils/puppet_utils.rb:309-329 | the log grows by exactly every host's firewall calls, in order |

## Left out

- Remote execution is not modelled. A command's output comes from `respond`, a function of the host and the command. The command is logged with the exit codes it accepts. A command that exits outside those codes would raise inside the harness; that is not modelled, and the run continues as if it had passed.
- `echo_on` is the parameter `echo`. What `echo` prints on the host is not modelled.
- `block_on`, `hosts_with_role`, `is_powershell?`, `use_service_scripts?` and `aio_version?` are not modelled. Hosts come as a list of records that carry the answers. `block_on` given a role name, and its parallel mode, are not modelled.
- `host.add_env_var` and `host.delete_env_var` edit files on the remote host. Only the call is logged.
- `with_puppet_running_on` is not modelled. It appears as a start call carrying the `dns_alt_names` and `server` settings, and a stop call after the block. Its backups, reloads and error handling are not part of this model.
- `logger.notify` produces output only and is not modelled.
- The `puppet(...)` command builder is not modelled. Its commands are written as the plain strings it produces.
- Host identity: Ruby compares hosts as objects. Here the comparison `agent == master` is equality of host records.
- The ambient `master` is an argument. The model does not check that it is the master counted among the hosts, just as the code does not.
- Collections.VersionIsLess: `version_is_less` comes from beaker and is not part of this model. It stands in as the numeric lexicographic order on the `to_i` of the dot-separated fields, with a missing field counting as 0. The fixed versions 5.5.4 and 5.99 are given by their fields.
- `host['type']` (line 288) and `host[:type]` (line 177) are read as the same option, as beaker's host options do.
- Handler bodies (`add_foss_defaults_on`, `remove_pe_defaults_on`, ...) are not part of this model. Each is an arbitrary update of the host record, given with the helper object; a call is logged as `Send` and replaces the host by the handler's result. `respond_to?` is membership in the map. What a handler does beyond its own host (the harness, other hosts) is not modelled.
- Hosts are records, not shared objects. When the same host object is listed twice, a handler's update at one position is not seen at the other.
- `aio_version?` is a field of the host record. A handler that changes the options it reads changes the field, but the model does not derive the field from the options.
- The `alias_method` lines (203-204) add the names `configure_foss_defaults_on` and `configure_pe_defaults_on` for `ConfigureTypeDefaultsOn`. They are not modelled separately.
- Collections.GetPuppetCollection: the default argument `agent_version = 'latest'` (line 81) is not modelled; the version is always passed, and a call without it is the `'latest'` case, which gives PC1.
- `sign_agent_certs` (279-281) just calls `sign_agent_cert_for` on all hosts. It is not modelled separately.
- `to_i` handles only the cases listed above. It has no other bases and no overflow, since Ruby integers are unbounded.
- A PowerShell host without a `pathseparator` joins its path with nothing, because `join(nil)` does. `PuppetPath.Separator` models this, but no lemma states it.
