/** The test-harness vocabulary puppet_utils.rb works in: hosts, the output
    of a remote command, and the calls the helpers make on the harness.
    Remote execution itself is not modelled; each call is recorded in a log
    and the output of a command is supplied by an oracle. */
module Harness {
  import opened RubyText

  /** A host of the test run: its name, its string-valued options
      (`host['type']`, `host['platform']`, `host['puppetbindir']`, ...; a key
      that is absent reads as nil), its roles, and the answers of the harness
      predicates `is_powershell?`, `use_service_scripts?` and `aio_version?`. */
  datatype Host = Host(
    name: string,
    attrs: map<string, string>,
    roles: set<string>,
    isPowershell: bool,
    useServiceScripts: bool,
    aioVersion: bool)

  /** What a remote command printed and how it exited. */
  datatype Output = Output(exitCode: int, stdout: string)

  /** The exit codes a call of `on` accepts: a list, or all of them. */
  datatype Accept = Codes(codes: set<int>) | AnyCode

  /** The default of `on`: only exit code 0. */
  const Zero: Accept := Codes({0})

  /** One call the helpers make on the harness. */
  datatype Call =
    | Run(host: Host, command: string, accept: Accept)        // on(host, command, ...)
    | AddEnvVar(host: Host, key: string, value: string)       // host.add_env_var
    | DeleteEnvVar(host: Host, key: string, value: string)    // host.delete_env_var
    | Send(handler: string, host: Host)                       // self.send(handler, host)
    | StartPuppet(host: Host, dnsAltNames: string, server: string) // entering with_puppet_running_on
    | StopPuppet(host: Host)                                  // leaving with_puppet_running_on

  /** The exceptions the helpers raise themselves. */
  datatype Error =
    | MissingAddHandler(typeName: string, hostName: string, handler: string)
    | MissingRemoveHandler(typeName: string, hostName: string, handler: string)
    | NoMethod(handler: string)
    | MasterCount(found: nat)
    | PuppetserverMissing(masterName: string)

  datatype Outcome = Pass | Fail(error: Error)

  /** What a helper did: how it ended, and the calls it made, in order. */
  datatype Trace = Trace(outcome: Outcome, calls: seq<Call>)

  /** A trace followed by another, when the first one passed. */
  function Then(t: Trace, u: Trace): (r: Trace)
    ensures t.outcome.Fail? ==> r == t
    ensures t.outcome.Pass? ==> r.outcome == u.outcome && r.calls == t.calls + u.calls
  {
    if t.outcome.Fail? then t else Trace(u.outcome, t.calls + u.calls)
  }

  /** The message of the raised exception. */
  function Message(e: Error): string {
    match e
    case MissingAddHandler(t, h, m) =>
      "cannot add defaults of type " + t + " for host " + h + " (" + m + " not present)"
    case MissingRemoveHandler(t, h, m) =>
      "cannot remove defaults of type " + t + " associated with host " + h + " (" + m + " not present)"
    case NoMethod(m) => "undefined method " + m
    case MasterCount(n) => "Unable to find a single master node (found " + NatToString(n) + ")"
    case PuppetserverMissing(m) => "Puppetserver must be installed on " + m + " before agent certs can be signed"
  }

  /** `b` occurs in `a + b + c`. */
  lemma ContainsMiddle(a: string, b: string, c: string)
    ensures Contains(a + b + c, b)
  {
    assert (a + b + c)[|a|..|a| + |b|] == b;
    ContainsWitness(a + b + c, b, |a|);
  }

  /** Each of the three parts of a message built around fixed texts occurs in it. */
  lemma ContainsParts(a: string, t: string, b: string, h: string, c: string, m: string, d: string)
    ensures var msg := a + t + b + h + c + m + d;
      Contains(msg, t) && Contains(msg, h) && Contains(msg, m)
  {
    var msg := a + t + b + h + c + m + d;
    ContainsMiddle(a, t, b + h + c + m + d);
    assert msg == a + t + (b + h + c + m + d);
    ContainsMiddle(a + t + b, h, c + m + d);
    assert msg == (a + t + b) + h + (c + m + d);
    ContainsMiddle(a + t + b + h + c, m, d);
  }

  /** A missing add handler is reported with the type, the host and the handler. */
  lemma MissingAddMessage(t: string, h: string, m: string)
    ensures var msg := Message(MissingAddHandler(t, h, m));
      Contains(msg, t) && Contains(msg, h) && Contains(msg, m)
  {
    ContainsParts("cannot add defaults of type ", t, " for host ", h, " (", m, " not present)");
  }

  /** A missing remove handler is reported with the type, the host and the handler. */
  lemma MissingRemoveMessage(t: string, h: string, m: string)
    ensures var msg := Message(MissingRemoveHandler(t, h, m));
      Contains(msg, t) && Contains(msg, h) && Contains(msg, m)
  {
    ContainsParts("cannot remove defaults of type ", t, " associated with host ", h, " (", m, " not present)");
  }

  /** The master-count message names the count, which reads back as a number. */
  lemma MasterCountMessage(n: nat)
    ensures Contains(Message(MasterCount(n)), NatToString(n))
    ensures ToI(NatToString(n)) == n
  {
    ContainsMiddle("Unable to find a single master node (found ", NatToString(n), ")");
    ToINatToString(n);
  }
}
