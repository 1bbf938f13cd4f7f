/** The defaults manager (puppet_utils.rb:156-202, 286-305): what
    remove_defaults_on, configure_defaults_on and configure_type_defaults_on
    do to each host, as traces of harness calls together with the hosts as
    the handlers leave them. A handler is dispatched by a name built at run
    time; `handlers` maps the names the helper object responds to onto the
    updates they make to a host, and a name outside it is the raise path. */
module Defaults {
  import opened RubyText
  import opened Harness
  import opened HostTypes
  import opened PuppetPath

  /** The handlers the helper object responds to, by name. A handler
      updates the host it is sent with: the options it sets or clears. */
  type HandlerMap = map<string, Host -> Host>

  /** What a helper did on one host: its trace, and the host as it is left. */
  datatype HostRun = HostRun(trace: Trace, host: Host)

  /** What a helper did over the hosts: its trace, and the hosts as they are
      left. */
  datatype BlockRun = BlockRun(trace: Trace, hosts: seq<Host>)

  // ------------------------------------------------------------------
  // Running the hosts one after the other (`block_on hosts`)

  /** The first `n` hosts run one after the other; the first failure ends
      the run. Each step sees its host and the whole list as the steps
      before it left them, and its host is replaced by the one it leaves. */
  function BlockOn(hosts: seq<Host>, step: (Host, seq<Host>) -> HostRun, n: nat): (r: BlockRun)
    requires n <= |hosts|
    ensures |r.hosts| == |hosts|
    ensures forall j :: n <= j < |hosts| ==> r.hosts[j] == hosts[j]
    decreases n
  {
    if n == 0 then BlockRun(Trace(Pass, []), hosts)
    else
      var prev := BlockOn(hosts, step, n - 1);
      if prev.trace.outcome.Fail? then prev
      else
        var s := step(prev.hosts[n - 1], prev.hosts);
        BlockRun(Then(prev.trace, s.trace), prev.hosts[n - 1 := s.host])
  }

  /** What host i's step does, on the list as the hosts before it left it. */
  function StepAt(hosts: seq<Host>, step: (Host, seq<Host>) -> HostRun, i: nat): HostRun
    requires i < |hosts|
  {
    var prev := BlockOn(hosts, step, i);
    step(prev.hosts[i], prev.hosts)
  }

  /** The calls of the first `n` steps, one after the other. */
  function StepCalls(hosts: seq<Host>, step: (Host, seq<Host>) -> HostRun, n: nat): seq<Call>
    requires n <= |hosts|
    decreases n
  {
    if n == 0 then [] else StepCalls(hosts, step, n - 1) + StepAt(hosts, step, n - 1).trace.calls
  }

  /** One more host after a run that has passed so far: its calls are
      added, its outcome is the run's, its host is replaced by the one its
      step leaves, and a failure ends the run. */
  lemma BlockOnNext(hosts: seq<Host>, step: (Host, seq<Host>) -> HostRun, i: nat)
    requires i < |hosts| && BlockOn(hosts, step, i).trace.outcome == Pass
    ensures var prev, s := BlockOn(hosts, step, i), StepAt(hosts, step, i);
      && BlockOn(hosts, step, i + 1) == BlockRun(Trace(s.trace.outcome, prev.trace.calls + s.trace.calls), prev.hosts[i := s.host])
      && (s.trace.outcome.Fail? ==> BlockOn(hosts, step, |hosts|) == BlockOn(hosts, step, i + 1))
  {
    if StepAt(hosts, step, i).trace.outcome.Fail? {
      BlockOnStops(hosts, step, i + 1, |hosts|);
    }
  }

  /** The bookkeeping of one more host, for a caller that has kept the
      calls so far after `start` and gets back the step's outcome and host. */
  lemma BlockAdvance(hosts: seq<Host>, step: (Host, seq<Host>) -> HostRun, i: nat,
                     start: seq<Call>, before: seq<Call>, now: seq<Call>, o: Outcome, h: Host)
    requires i < |hosts| && BlockOn(hosts, step, i).trace.outcome == Pass
    requires before == start + BlockOn(hosts, step, i).trace.calls
    requires o == StepAt(hosts, step, i).trace.outcome && h == StepAt(hosts, step, i).host
    requires now == before + StepAt(hosts, step, i).trace.calls
    ensures now == start + BlockOn(hosts, step, i + 1).trace.calls
    ensures BlockOn(hosts, step, i).hosts[i := h] == BlockOn(hosts, step, i + 1).hosts
    ensures o == BlockOn(hosts, step, i + 1).trace.outcome
    ensures o.Fail? ==> BlockOn(hosts, step, |hosts|) == BlockOn(hosts, step, i + 1)
  {
    BlockOnNext(hosts, step, i);
  }

  /** A failure ends the run: the hosts after it make no call and are left
      as they are. */
  lemma {:induction false} BlockOnStops(hosts: seq<Host>, step: (Host, seq<Host>) -> HostRun, k: nat, n: nat)
    requires k <= n <= |hosts| && BlockOn(hosts, step, k).trace.outcome.Fail?
    ensures BlockOn(hosts, step, n) == BlockOn(hosts, step, k)
    decreases n
  {
    if n > k {
      BlockOnStops(hosts, step, k, n - 1);
    }
  }

  /** A run passes exactly when every step passes; then it makes every
      step's calls in order, and leaves every host as its step left it. */
  lemma {:induction false} BlockOnPass(hosts: seq<Host>, step: (Host, seq<Host>) -> HostRun, n: nat)
    requires n <= |hosts|
    ensures BlockOn(hosts, step, n).trace.outcome.Pass? <==>
      forall i :: 0 <= i < n ==> StepAt(hosts, step, i).trace.outcome.Pass?
    ensures BlockOn(hosts, step, n).trace.outcome.Pass? ==>
      && BlockOn(hosts, step, n).trace.calls == StepCalls(hosts, step, n)
      && forall i :: 0 <= i < n ==> BlockOn(hosts, step, n).hosts[i] == StepAt(hosts, step, i).host
    decreases n
  {
    if n > 0 {
      BlockOnPass(hosts, step, n - 1);
      if BlockOn(hosts, step, n - 1).trace.outcome.Fail? {
        var k :| 0 <= k < n - 1 && !StepAt(hosts, step, k).trace.outcome.Pass?;
        assert !(forall i :: 0 <= i < n ==> StepAt(hosts, step, i).trace.outcome.Pass?);
      } else {
        var prev, s := BlockOn(hosts, step, n - 1), StepAt(hosts, step, n - 1);
        assert BlockOn(hosts, step, n) == BlockRun(Then(prev.trace, s.trace), prev.hosts[n - 1 := s.host]);
        assert BlockOn(hosts, step, n).trace.outcome == s.trace.outcome;
      }
    }
  }

  /** The run fails with the error of the first step that fails, after the
      calls of the steps before it and its own. */
  lemma BlockOnFirstFailure(hosts: seq<Host>, step: (Host, seq<Host>) -> HostRun, k: nat)
    requires k < |hosts| && StepAt(hosts, step, k).trace.outcome.Fail?
    requires forall i :: 0 <= i < k ==> StepAt(hosts, step, i).trace.outcome.Pass?
    ensures BlockOn(hosts, step, |hosts|).trace.outcome == StepAt(hosts, step, k).trace.outcome
    ensures BlockOn(hosts, step, |hosts|).trace.calls == StepCalls(hosts, step, k) + StepAt(hosts, step, k).trace.calls
  {
    BlockOnPass(hosts, step, k);
    BlockOnNext(hosts, step, k);
  }

  /** A step that looks at its own host only. */
  function Local(f: Host -> HostRun): (Host, seq<Host>) -> HostRun {
    (h, all) => f(h)
  }

  /** A step that looks at its own host only sees it as passed in. */
  lemma LocalStepAt(hosts: seq<Host>, f: Host -> HostRun, i: nat)
    requires i < |hosts|
    ensures StepAt(hosts, Local(f), i) == f(hosts[i])
  {
    assert BlockOn(hosts, Local(f), i).hosts[i] == hosts[i];
  }

  /** The calls of `f` on each host in turn. */
  function LocalCalls(hosts: seq<Host>, f: Host -> HostRun): seq<Call>
    decreases |hosts|
  {
    if hosts == [] then [] else LocalCalls(hosts[..|hosts| - 1], f) + f(hosts[|hosts| - 1]).trace.calls
  }

  /** With steps that look at their own host only, the steps' calls are
      those of `f` on each host as passed in. */
  lemma {:induction false} LocalStepCalls(hosts: seq<Host>, f: Host -> HostRun, n: nat)
    requires n <= |hosts|
    ensures StepCalls(hosts, Local(f), n) == LocalCalls(hosts[..n], f)
    decreases n
  {
    if n > 0 {
      LocalStepCalls(hosts, f, n - 1);
      LocalStepAt(hosts, f, n - 1);
      assert hosts[..n][..n - 1] == hosts[..n - 1];
    }
  }

  /** A run of steps that look at their own host only passes exactly when
      `f` passes on every host; then it makes their calls in order and
      leaves each host as `f` leaves it. When it fails, it fails with the
      error of the first host on which `f` fails, after the calls of the
      hosts before it and that host's own. */
  lemma LocalRun(hosts: seq<Host>, f: Host -> HostRun)
    ensures var r := BlockOn(hosts, Local(f), |hosts|);
      && (r.trace.outcome.Pass? <==> forall i :: 0 <= i < |hosts| ==> f(hosts[i]).trace.outcome.Pass?)
      && (r.trace.outcome.Pass? ==> r.trace.calls == LocalCalls(hosts, f))
      && (r.trace.outcome.Pass? ==> forall i :: 0 <= i < |hosts| ==> r.hosts[i] == f(hosts[i]).host)
    ensures forall k ::
      (0 <= k < |hosts| && f(hosts[k]).trace.outcome.Fail? && forall i :: 0 <= i < k ==> f(hosts[i]).trace.outcome.Pass?) ==>
      && BlockOn(hosts, Local(f), |hosts|).trace.outcome == f(hosts[k]).trace.outcome
      && BlockOn(hosts, Local(f), |hosts|).trace.calls == LocalCalls(hosts[..k], f) + f(hosts[k]).trace.calls
  {
    forall i | 0 <= i < |hosts| ensures StepAt(hosts, Local(f), i) == f(hosts[i]) {
      LocalStepAt(hosts, f, i);
    }
    BlockOnPass(hosts, Local(f), |hosts|);
    LocalStepCalls(hosts, f, |hosts|);
    assert hosts[..|hosts|] == hosts;
    forall k | 0 <= k < |hosts| && f(hosts[k]).trace.outcome.Fail? && forall i :: 0 <= i < k ==> f(hosts[i]).trace.outcome.Pass?
      ensures && BlockOn(hosts, Local(f), |hosts|).trace.outcome == f(hosts[k]).trace.outcome
              && BlockOn(hosts, Local(f), |hosts|).trace.calls == LocalCalls(hosts[..k], f) + f(hosts[k]).trace.calls
    {
      BlockOnFirstFailure(hosts, Local(f), k);
      LocalStepCalls(hosts, f, k);
    }
  }

  /** Calling a handler by its name directly: NoMethodError when it is
      not there. */
  function Direct(m: string, h: Host, handlers: HandlerMap): (r: HostRun)
    ensures r.trace.outcome.Pass? <==> m in handlers
    ensures r.trace.outcome.Pass? ==> r.trace.calls == [Send(m, h)] && r.host == handlers[m](h)
    ensures r.trace.outcome.Fail? ==> r == HostRun(Trace(Fail(NoMethod(m)), []), h)
  {
    if m in handlers then HostRun(Trace(Pass, [Send(m, h)]), handlers[m](h))
    else HostRun(Trace(Fail(NoMethod(m)), []), h)
  }

  /** `"#{host_type}"`: a type that could not be normalised reads as ''. */
  function TypeName(t: Option<HostType>): string {
    if t.Some? then t.value.Name() else ""
  }

  // ------------------------------------------------------------------
  // remove_defaults_on

  /** One host of remove_defaults_on, where `all` is the list passed in as
      the hosts before this one left it. The paths of ALL the hosts are
      removed, not just this host's; the aio check reads the host as its
      remove handler left it. */
  function RemoveOne(h: Host, all: seq<Host>, handlers: HandlerMap, pathOf: Host -> string): HostRun {
    if "type" !in h.attrs then HostRun(Trace(Pass, []), h)
    else
      var t := TypeName(NormalizeType(h.attrs["type"]));
      var paths := PathCalls(all, pathOf, RemovePath);
      var m := "remove_" + t + "_defaults_on";
      if m !in handlers then HostRun(Trace(Fail(MissingRemoveHandler(t, h.name, m)), paths), h)
      else
        var removed := handlers[m](h);
        var aio := if removed.aioVersion then Direct("remove_aio_defaults_on", removed, handlers)
                   else HostRun(Trace(Pass, []), removed);
        HostRun(Then(Trace(Pass, paths + [Send(m, h)]), aio.trace), aio.host)
  }

  function RemoveStep(handlers: HandlerMap, pathOf: Host -> string): (Host, seq<Host>) -> HostRun {
    (h, all) => RemoveOne(h, all, handlers, pathOf)
  }

  /** remove_defaults_on(hosts) */
  function RemoveDefaults(hosts: seq<Host>, handlers: HandlerMap, pathOf: Host -> string): BlockRun {
    BlockOn(hosts, RemoveStep(handlers, pathOf), |hosts|)
  }

  /** Host i of remove_defaults_on works on the list as the hosts before it
      left it: each earlier host as its own step left it, each later one as
      passed in. */
  lemma RemoveStepAt(hosts: seq<Host>, handlers: HandlerMap, pathOf: Host -> string, i: nat)
    requires i < |hosts| && BlockOn(hosts, RemoveStep(handlers, pathOf), i).trace.outcome.Pass?
    ensures var all := BlockOn(hosts, RemoveStep(handlers, pathOf), i).hosts;
      && StepAt(hosts, RemoveStep(handlers, pathOf), i) == RemoveOne(hosts[i], all, handlers, pathOf)
      && |all| == |hosts|
      && (forall j :: 0 <= j < i ==> all[j] == StepAt(hosts, RemoveStep(handlers, pathOf), j).host)
      && (forall j :: i <= j < |hosts| ==> all[j] == hosts[j])
  {
    BlockOnPass(hosts, RemoveStep(handlers, pathOf), i);
  }

  /** Host i's step in remove_defaults_on is RemoveOne on its host and the
      list as the run so far left them. */
  lemma RemoveStepIs(hosts: seq<Host>, handlers: HandlerMap, pathOf: Host -> string, i: nat)
    requires i < |hosts|
    ensures var all := BlockOn(hosts, RemoveStep(handlers, pathOf), i).hosts;
      StepAt(hosts, RemoveStep(handlers, pathOf), i) == RemoveOne(all[i], all, handlers, pathOf)
  {
  }

  /** The path each typed host of remove_defaults_on removes for another
      host is that host's path as it is at that moment: after its own step
      for a host before it, as passed in for itself and the hosts after it. */
  lemma RemovePathsAsLeft(hosts: seq<Host>, handlers: HandlerMap, pathOf: Host -> string, i: nat)
    requires i < |hosts| && "type" in hosts[i].attrs
    requires BlockOn(hosts, RemoveStep(handlers, pathOf), i).trace.outcome.Pass?
    ensures var calls := StepAt(hosts, RemoveStep(handlers, pathOf), i).trace.calls;
      && |calls| >= 2 * |hosts|
      && (forall j :: 0 <= j < i ==>
            var left := StepAt(hosts, RemoveStep(handlers, pathOf), j).host;
            calls[2 * j] == DeleteEnvVar(left, "PATH", pathOf(left)))
      && (forall j :: i <= j < |hosts| ==> calls[2 * j] == DeleteEnvVar(hosts[j], "PATH", pathOf(hosts[j])))
  {
    RemoveStepAt(hosts, handlers, pathOf, i);
    var all := BlockOn(hosts, RemoveStep(handlers, pathOf), i).hosts;
    RemovePathAt(hosts[i], all, handlers, pathOf);
  }

  /** A typed host's calls start with the PATH removal of every host passed
      in, each with its own path. */
  lemma RemovePathAt(h: Host, all: seq<Host>, handlers: HandlerMap, pathOf: Host -> string)
    requires "type" in h.attrs
    ensures var calls := RemoveOne(h, all, handlers, pathOf).trace.calls;
      && |calls| >= 2 * |all|
      && forall j :: 0 <= j < |all| ==> calls[2 * j] == DeleteEnvVar(all[j], "PATH", pathOf(all[j]))
  {
    var calls := RemoveOne(h, all, handlers, pathOf).trace.calls;
    var paths := PathCalls(all, pathOf, RemovePath);
    assert calls[..2 * |all|] == paths;
    forall j | 0 <= j < |all| ensures calls[2 * j] == DeleteEnvVar(all[j], "PATH", pathOf(all[j])) {
      PathCallsAt(all, pathOf, RemovePath, j);
      assert calls[2 * j] == paths[2 * j];
    }
  }

  /** When no host has a type, remove_defaults_on does nothing at all and
      leaves every host as it is. */
  lemma RemoveDefaultsUntyped(hosts: seq<Host>, handlers: HandlerMap, pathOf: Host -> string)
    requires forall i :: 0 <= i < |hosts| ==> "type" !in hosts[i].attrs
    ensures RemoveDefaults(hosts, handlers, pathOf) == BlockRun(Trace(Pass, []), hosts)
  {
    UntypedPrefix(hosts, handlers, pathOf, |hosts|);
  }

  lemma {:induction false} UntypedPrefix(hosts: seq<Host>, handlers: HandlerMap, pathOf: Host -> string, n: nat)
    requires n <= |hosts| && forall i :: 0 <= i < |hosts| ==> "type" !in hosts[i].attrs
    ensures BlockOn(hosts, RemoveStep(handlers, pathOf), n) == BlockRun(Trace(Pass, []), hosts)
    decreases n
  {
    if n > 0 {
      UntypedPrefix(hosts, handlers, pathOf, n - 1);
      assert hosts[n - 1 := hosts[n - 1]] == hosts;
    }
  }

  /** A typed host first removes the paths of every host passed in, then
      calls its remove handler, whose name carries the normalised type
      ('remove__defaults_on' when the type does not normalise), and raises
      naming the type and the host when it is missing; the aio check then
      reads the host as the remove handler left it. */
  lemma RemoveTyped(h: Host, all: seq<Host>, handlers: HandlerMap, pathOf: Host -> string)
    requires "type" in h.attrs
    ensures var r := RemoveOne(h, all, handlers, pathOf);
      var t := TypeName(NormalizeType(h.attrs["type"]));
      var m := "remove_" + t + "_defaults_on";
      var paths := PathCalls(all, pathOf, RemovePath);
      && (NormalizeType(h.attrs["type"]) == None ==> m == "remove__defaults_on")
      && (m !in handlers ==> r == HostRun(Trace(Fail(MissingRemoveHandler(t, h.name, m)), paths), h))
      && (m in handlers ==>
            var removed := handlers[m](h);
            var aio := removed.aioVersion;
            && (r.trace.outcome.Fail? <==> aio && "remove_aio_defaults_on" !in handlers)
            && r.trace.calls == paths + [Send(m, h)] +
                 (if aio && "remove_aio_defaults_on" in handlers then [Send("remove_aio_defaults_on", removed)] else [])
            && r.host == (if aio && "remove_aio_defaults_on" in handlers then handlers["remove_aio_defaults_on"](removed) else removed))
  {
  }

  // ------------------------------------------------------------------
  // configure_defaults_on

  /** One host of configure_defaults_on(hosts, type): remove its defaults,
      call the add handler for `type` on the host as the removal left it,
      then add the path of the host as the add handler left it. */
  function ConfigureOne(h: Host, typeName: string, handlers: HandlerMap, pathOf: Host -> string): HostRun {
    var removal := RemoveDefaults([h], handlers, pathOf);
    var cleared := removal.hosts[0];
    var m := "add_" + typeName + "_defaults_on";
    if removal.trace.outcome.Fail? then HostRun(removal.trace, cleared)
    else if m !in handlers then HostRun(Trace(Fail(MissingAddHandler(typeName, cleared.name, m)), removal.trace.calls), cleared)
    else
      var added := handlers[m](cleared);
      HostRun(Trace(Pass, removal.trace.calls + [Send(m, cleared)] + PathCalls([added], pathOf, AddPath)), added)
  }

  function ConfigureStep(typeName: string, handlers: HandlerMap, pathOf: Host -> string): (Host, seq<Host>) -> HostRun {
    Local(h => ConfigureOne(h, typeName, handlers, pathOf))
  }

  /** configure_defaults_on(hosts, type) */
  function ConfigureDefaults(hosts: seq<Host>, typeName: string, handlers: HandlerMap, pathOf: Host -> string): BlockRun {
    BlockOn(hosts, ConfigureStep(typeName, handlers, pathOf), |hosts|)
  }

  /** Host i's step in configure_defaults_on is ConfigureOne on its host as
      the run so far left it. */
  lemma ConfigureStepIs(hosts: seq<Host>, typeName: string, handlers: HandlerMap, pathOf: Host -> string, i: nat)
    requires i < |hosts|
    ensures var all := BlockOn(hosts, ConfigureStep(typeName, handlers, pathOf), i).hosts;
      StepAt(hosts, ConfigureStep(typeName, handlers, pathOf), i) == ConfigureOne(all[i], typeName, handlers, pathOf)
  {
  }

  /** remove_defaults_on on one host is that host's step on the list of it
      alone. */
  lemma RemoveSingle(h: Host, handlers: HandlerMap, pathOf: Host -> string)
    ensures var s := RemoveOne(h, [h], handlers, pathOf);
      RemoveDefaults([h], handlers, pathOf) == BlockRun(s.trace, [s.host])
  {
    var s := RemoveOne(h, [h], handlers, pathOf);
    assert BlockOn([h], RemoveStep(handlers, pathOf), 0) == BlockRun(Trace(Pass, []), [h]);
    assert [h][0 := s.host] == [s.host];
  }

  /** The order on one host: the removal first, then the add handler on the
      host as the removal left it, then the two PATH edits with the path of
      the host as the add handler left it. */
  lemma ConfigureOrder(h: Host, typeName: string, handlers: HandlerMap, pathOf: Host -> string)
    requires ConfigureOne(h, typeName, handlers, pathOf).trace.outcome.Pass?
    ensures var r := ConfigureOne(h, typeName, handlers, pathOf);
      var removal := RemoveOne(h, [h], handlers, pathOf);
      var m := "add_" + typeName + "_defaults_on";
      var cs := r.trace.calls;
      var n := |cs|;
      && removal.trace.outcome.Pass? && m in handlers
      && r.host == handlers[m](removal.host)
      && n >= 3
      && cs[..n - 3] == removal.trace.calls
      && cs[n - 3] == Send(m, removal.host)
      && cs[n - 2] == AddEnvVar(r.host, "PATH", pathOf(r.host))
      && cs[n - 1] == AddEnvVar(r.host, "PATH", "PATH")
  {
    RemoveSingle(h, handlers, pathOf);
    var removal := RemoveOne(h, [h], handlers, pathOf);
    var r := ConfigureOne(h, typeName, handlers, pathOf);
    var m := "add_" + typeName + "_defaults_on";
    var tail := [Send(m, removal.host)] + PathCalls([r.host], pathOf, AddPath);
    assert r.trace.calls == removal.trace.calls + tail;
    PathCallsAt([r.host], pathOf, AddPath, 0);
  }

  /** A host whose add handler is missing raises an error naming the type
      and the host, after its removal step and before any PATH edit. */
  lemma ConfigureMissingHandler(h: Host, typeName: string, handlers: HandlerMap, pathOf: Host -> string)
    requires RemoveOne(h, [h], handlers, pathOf).trace.outcome.Pass?
    requires "add_" + typeName + "_defaults_on" !in handlers
    ensures var r := ConfigureOne(h, typeName, handlers, pathOf);
      var removal := RemoveOne(h, [h], handlers, pathOf);
      && r.trace.outcome == Fail(MissingAddHandler(typeName, removal.host.name, "add_" + typeName + "_defaults_on"))
      && r.trace.calls == removal.trace.calls
      && r.host == removal.host
      && Contains(Message(r.trace.outcome.error), typeName)
      && Contains(Message(r.trace.outcome.error), removal.host.name)
  {
    RemoveSingle(h, handlers, pathOf);
    MissingAddMessage(typeName, RemoveOne(h, [h], handlers, pathOf).host.name, "add_" + typeName + "_defaults_on");
  }

  /** configure_defaults_on stops at the first host that fails, with that
      host's error, after every host before it was fully configured; when
      no host fails, every host is left as its own configuration left it. */
  lemma ConfigureStopsAtFailure(hosts: seq<Host>, typeName: string, handlers: HandlerMap, pathOf: Host -> string, k: nat)
    requires k < |hosts| && ConfigureOne(hosts[k], typeName, handlers, pathOf).trace.outcome.Fail?
    requires forall i :: 0 <= i < k ==> ConfigureOne(hosts[i], typeName, handlers, pathOf).trace.outcome.Pass?
    ensures var r := ConfigureDefaults(hosts, typeName, handlers, pathOf);
      var f := h => ConfigureOne(h, typeName, handlers, pathOf);
      && r.trace.outcome == ConfigureOne(hosts[k], typeName, handlers, pathOf).trace.outcome
      && r.trace.calls == LocalCalls(hosts[..k], f) + ConfigureOne(hosts[k], typeName, handlers, pathOf).trace.calls
  {
    LocalRun(hosts, h => ConfigureOne(h, typeName, handlers, pathOf));
  }

  /** configure_defaults_on passes exactly when every host passes, and then
      leaves each host as its own configuration left it. */
  lemma ConfigureDefaultsHosts(hosts: seq<Host>, typeName: string, handlers: HandlerMap, pathOf: Host -> string)
    ensures var r := ConfigureDefaults(hosts, typeName, handlers, pathOf);
      && (r.trace.outcome.Pass? <==> forall i :: 0 <= i < |hosts| ==> ConfigureOne(hosts[i], typeName, handlers, pathOf).trace.outcome.Pass?)
      && (r.trace.outcome.Pass? ==> forall i :: 0 <= i < |hosts| ==> r.hosts[i] == ConfigureOne(hosts[i], typeName, handlers, pathOf).host)
  {
    LocalRun(hosts, h => ConfigureOne(h, typeName, handlers, pathOf));
  }

  // ------------------------------------------------------------------
  // configure_type_defaults_on

  /** The host's declared type normalises to foss or pe (aio is left to the
      aio_version? check). */
  predicate TypeBranch(h: Host) {
    "type" in h.attrs && NormalizeType(h.attrs["type"]).Some? && NormalizeType(h.attrs["type"]) != Some(Aio)
  }

  function TypeHandler(h: Host): string
    requires TypeBranch(h)
  {
    "add_" + NormalizeType(h.attrs["type"]).value.Name() + "_defaults_on"
  }

  /** The type branch of one host: the add handler of its type when the type
      normalises to foss or pe, nothing otherwise. */
  function TypedStep(h: Host, handlers: HandlerMap): HostRun {
    if !TypeBranch(h) then HostRun(Trace(Pass, []), h)
    else if TypeHandler(h) in handlers then HostRun(Trace(Pass, [Send(TypeHandler(h), h)]), handlers[TypeHandler(h)](h))
    else HostRun(Trace(Fail(MissingAddHandler(NormalizeType(h.attrs["type"]).value.Name(), h.name, TypeHandler(h))), []), h)
  }

  /** The aio branch: add_aio_defaults_on, called directly on an aio host. */
  function AioStep(h: Host, handlers: HandlerMap): HostRun {
    if h.aioVersion then Direct("add_aio_defaults_on", h, handlers) else HostRun(Trace(Pass, []), h)
  }

  /** The paths of the host, added once when either branch fired. */
  function TypePathsStep(hasDefaults: bool, h: Host, pathOf: Host -> string): Trace {
    Trace(Pass, if hasDefaults then PathCalls([h], pathOf, AddPath) else [])
  }

  /** One host of configure_type_defaults_on: the type is read from the
      host as passed in, the aio check from the host as the type handler
      left it, and the paths from the host as both handlers left it. */
  function ConfigureTypeOne(h: Host, handlers: HandlerMap, pathOf: Host -> string): HostRun {
    var typed := TypedStep(h, handlers);
    if typed.trace.outcome.Fail? then typed
    else
      var aio := AioStep(typed.host, handlers);
      if aio.trace.outcome.Fail? then HostRun(Then(typed.trace, aio.trace), aio.host)
      else
        var hasDefaults := TypeBranch(h) || typed.host.aioVersion;
        HostRun(Then(Then(typed.trace, aio.trace), TypePathsStep(hasDefaults, aio.host, pathOf)), aio.host)
  }

  function ConfigureTypeStep(handlers: HandlerMap, pathOf: Host -> string): (Host, seq<Host>) -> HostRun {
    Local(h => ConfigureTypeOne(h, handlers, pathOf))
  }

  /** configure_type_defaults_on(hosts) */
  function ConfigureTypeDefaults(hosts: seq<Host>, handlers: HandlerMap, pathOf: Host -> string): BlockRun {
    BlockOn(hosts, ConfigureTypeStep(handlers, pathOf), |hosts|)
  }

  /** Host i's step in configure_type_defaults_on is ConfigureTypeOne on its
      host as the run so far left it. */
  lemma ConfigureTypeStepIs(hosts: seq<Host>, handlers: HandlerMap, pathOf: Host -> string, i: nat)
    requires i < |hosts|
    ensures var all := BlockOn(hosts, ConfigureTypeStep(handlers, pathOf), i).hosts;
      StepAt(hosts, ConfigureTypeStep(handlers, pathOf), i) == ConfigureTypeOne(all[i], handlers, pathOf)
  {
  }

  /** configure_type_defaults_on passes exactly when every host passes, and
      then leaves each host as its own configuration left it; it fails with
      the error of the first host that fails. */
  lemma ConfigureTypeDefaultsHosts(hosts: seq<Host>, handlers: HandlerMap, pathOf: Host -> string)
    ensures var r := ConfigureTypeDefaults(hosts, handlers, pathOf);
      && (r.trace.outcome.Pass? <==> forall i :: 0 <= i < |hosts| ==> ConfigureTypeOne(hosts[i], handlers, pathOf).trace.outcome.Pass?)
      && (r.trace.outcome.Pass? ==> forall i :: 0 <= i < |hosts| ==> r.hosts[i] == ConfigureTypeOne(hosts[i], handlers, pathOf).host)
    ensures forall k ::
      (0 <= k < |hosts| && ConfigureTypeOne(hosts[k], handlers, pathOf).trace.outcome.Fail? &&
       forall i :: 0 <= i < k ==> ConfigureTypeOne(hosts[i], handlers, pathOf).trace.outcome.Pass?) ==>
      ConfigureTypeDefaults(hosts, handlers, pathOf).trace.outcome == ConfigureTypeOne(hosts[k], handlers, pathOf).trace.outcome
  {
    LocalRun(hosts, h => ConfigureTypeOne(h, handlers, pathOf));
  }

  /** The environment edits among some calls. */
  function EnvEdits(cs: seq<Call>): (r: seq<Call>)
    ensures forall i :: 0 <= i < |r| ==> r[i].AddEnvVar? || r[i].DeleteEnvVar?
    decreases |cs|
  {
    if cs == [] then []
    else EnvEdits(cs[..|cs| - 1]) + (if cs[|cs| - 1].AddEnvVar? || cs[|cs| - 1].DeleteEnvVar? then [cs[|cs| - 1]] else [])
  }

  /** The handlers sent among some calls. */
  function Handlers(cs: seq<Call>): (r: seq<string>)
    decreases |cs|
  {
    if cs == [] then []
    else Handlers(cs[..|cs| - 1]) + (if cs[|cs| - 1].Send? then [cs[|cs| - 1].handler] else [])
  }

  lemma {:induction false} EnvEditsAppend(a: seq<Call>, b: seq<Call>)
    ensures EnvEdits(a + b) == EnvEdits(a) + EnvEdits(b)
    ensures Handlers(a + b) == Handlers(a) + Handlers(b)
    decreases |b|
  {
    if b == [] {
      assert a + b == a;
    } else {
      EnvEditsAppend(a, b[..|b| - 1]);
      assert (a + b)[..|a + b| - 1] == a + b[..|b| - 1];
    }
  }

  lemma {:induction false} EnvEditsOfPaths(hosts: seq<Host>, pathOf: Host -> string, e: Edit)
    ensures EnvEdits(PathCalls(hosts, pathOf, e)) == PathCalls(hosts, pathOf, e)
    ensures Handlers(PathCalls(hosts, pathOf, e)) == []
    decreases |hosts|
  {
    if hosts != [] {
      var init := hosts[..|hosts| - 1];
      EnvEditsOfPaths(init, pathOf, e);
      var hc := HostPathCalls(hosts[|hosts| - 1], pathOf, e);
      assert PathCalls(hosts, pathOf, e) == PathCalls(init, pathOf, e) + hc;
      EnvEditsAppend(PathCalls(init, pathOf, e), hc);
      EnvEditsOfPair(hc[0], hc[1]);
      assert hc == [hc[0], hc[1]];
    }
  }

  lemma EnvEditsOfPair(a: Call, b: Call)
    requires (a.AddEnvVar? || a.DeleteEnvVar?) && (b.AddEnvVar? || b.DeleteEnvVar?)
    ensures EnvEdits([a, b]) == [a, b] && Handlers([a, b]) == []
  {
    assert [a][..0] == [];
    assert EnvEdits([a]) == [a] && Handlers([a]) == [];
    assert [a, b][..1] == [a];
    assert EnvEdits([a, b]) == EnvEdits([a]) + [b];
    assert Handlers([a, b]) == Handlers([a]);
  }

  lemma EnvEditsOfSend(m: string, h: Host)
    ensures EnvEdits([Send(m, h)]) == [] && Handlers([Send(m, h)]) == [m]
  {
    assert [Send(m, h)][..0] == [];
  }

  /** When configure_type_defaults_on passes on a host, it calls the type
      handler if the type branch fired, then add_aio_defaults_on if the
      host, as the type handler left it, is aio; and it adds, exactly once
      if either fired and not at all otherwise, the path of the host as both
      handlers left it, which is also the host it leaves. */
  lemma ConfigureTypePaths(h: Host, handlers: HandlerMap, pathOf: Host -> string)
    requires ConfigureTypeOne(h, handlers, pathOf).trace.outcome.Pass?
    ensures var r := ConfigureTypeOne(h, handlers, pathOf);
      var typed := TypedStep(h, handlers).host;
      var cs := r.trace.calls;
      && (TypeBranch(h) ==> TypeHandler(h) in handlers)
      && (typed.aioVersion ==> "add_aio_defaults_on" in handlers)
      && typed == (if TypeBranch(h) then handlers[TypeHandler(h)](h) else h)
      && r.host == (if typed.aioVersion then handlers["add_aio_defaults_on"](typed) else typed)
      && EnvEdits(cs) == (if TypeBranch(h) || typed.aioVersion then PathCalls([r.host], pathOf, AddPath) else [])
      && Handlers(cs) == (if TypeBranch(h) then [TypeHandler(h)] else []) + (if typed.aioVersion then ["add_aio_defaults_on"] else [])
  {
    var typed := TypedStep(h, handlers);
    var aio := AioStep(typed.host, handlers);
    var hasDefaults := TypeBranch(h) || typed.host.aioVersion;
    var a, b, c := typed.trace.calls, aio.trace.calls, TypePathsStep(hasDefaults, aio.host, pathOf).calls;
    assert typed.trace.outcome.Pass? && aio.trace.outcome.Pass?;
    assert ConfigureTypeOne(h, handlers, pathOf).trace.calls == a + b + c;
    assert a == if TypeBranch(h) then [Send(TypeHandler(h), h)] else [];
    assert b == if typed.host.aioVersion then [Send("add_aio_defaults_on", typed.host)] else [];
    EnvEditsAppend(a + b, c);
    EnvEditsAppend(a, b);
    if TypeBranch(h) { EnvEditsOfSend(TypeHandler(h), h); }
    if typed.host.aioVersion { EnvEditsOfSend("add_aio_defaults_on", typed.host); }
    EnvEditsOfPaths([aio.host], pathOf, AddPath);
    assert EnvEdits([]) == [] && Handlers([]) == [];
  }

  /** configure_type_defaults_on fails on a host exactly when a handler it
      needs is missing: the type handler when the type branch fires,
      otherwise add_aio_defaults_on when the host, as the type handler left
      it, is aio. */
  lemma ConfigureTypeFails(h: Host, handlers: HandlerMap, pathOf: Host -> string)
    ensures ConfigureTypeOne(h, handlers, pathOf).trace.outcome.Fail? <==>
      (TypeBranch(h) && TypeHandler(h) !in handlers) ||
      (TypedStep(h, handlers).host.aioVersion && "add_aio_defaults_on" !in handlers)
    ensures TypeBranch(h) && TypeHandler(h) !in handlers ==>
      ConfigureTypeOne(h, handlers, pathOf) ==
        HostRun(Trace(Fail(MissingAddHandler(NormalizeType(h.attrs["type"]).value.Name(), h.name, TypeHandler(h))), []), h)
  {
  }

  /** A host whose type is aio and that is not an aio host gets nothing and
      is left as it is. */
  lemma ConfigureTypeAioLabel(h: Host, handlers: HandlerMap, pathOf: Host -> string)
    requires "type" in h.attrs && NormalizeType(h.attrs["type"]) == Some(Aio) && !h.aioVersion
    ensures ConfigureTypeOne(h, handlers, pathOf) == HostRun(Trace(Pass, []), h)
  {
  }
}
