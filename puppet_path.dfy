/** PATH composition (puppet_utils.rb:37-73): the directories a host's
    options name, and the environment edits that put them on PATH or take
    them off again. `echo_on` is a parameter: it stands for running the
    value through `echo` on the host. */
module PuppetPath {
  import opened RubyText
  import opened Harness

  /** The options read, in this order. */
  const PathKeys: seq<string> := ["puppetbindir", "facterbindir", "hierabindir", "privatebindir"]

  /** The option is set and not empty. */
  predicate Present(attrs: map<string, string>, k: string) {
    k in attrs && attrs[k] != ""
  }

  /** `keys.map { |k| host[k] }.compact.reject(&:empty?)` */
  function Values(attrs: map<string, string>, keys: seq<string>): (r: seq<string>)
    ensures |r| <= |keys|
    ensures forall i :: 0 <= i < |r| ==> r[i] != ""
    decreases |keys|
  {
    if keys == [] then []
    else
      var last := keys[|keys| - 1];
      Values(attrs, keys[..|keys| - 1]) + (if Present(attrs, last) then [attrs[last]] else [])
  }

  /** The values of two runs of keys, one after the other. */
  lemma {:induction false} ValuesAppend(attrs: map<string, string>, a: seq<string>, b: seq<string>)
    ensures Values(attrs, a + b) == Values(attrs, a) + Values(attrs, b)
    decreases |b|
  {
    if b == [] {
      assert a + b == a;
    } else {
      var b' := b[..|b| - 1];
      ValuesAppend(attrs, a, b');
      assert (a + b)[..|a + b| - 1] == a + b';
    }
  }

  /** The value of one option as a list: empty when nil or empty. */
  function ValueOf(attrs: map<string, string>, k: string): (r: seq<string>)
    ensures |r| <= 1 && (r != [] <==> Present(attrs, k))
  {
    if Present(attrs, k) then [attrs[k]] else []
  }

  lemma ValuesOfOne(attrs: map<string, string>, k: string)
    ensures Values(attrs, [k]) == ValueOf(attrs, k)
  {
    assert [k][..0] == [];
  }

  /** The four options contribute, in the fixed order, each its own value
      when it is set and not empty: nothing else is dropped, reordered or
      merged. */
  lemma PathValuesInOrder(attrs: map<string, string>)
    ensures Values(attrs, PathKeys) ==
      ValueOf(attrs, "puppetbindir") + ValueOf(attrs, "facterbindir") +
      ValueOf(attrs, "hierabindir") + ValueOf(attrs, "privatebindir")
  {
    var k := PathKeys;
    assert k == [k[0]] + [k[1]] + [k[2]] + [k[3]];
    ValuesOfOne(attrs, k[0]);
    ValuesOfOne(attrs, k[1]);
    ValuesOfOne(attrs, k[2]);
    ValuesOfOne(attrs, k[3]);
    ValuesAppend(attrs, [k[0]] + [k[1]] + [k[2]], [k[3]]);
    ValuesAppend(attrs, [k[0]] + [k[1]], [k[2]]);
    ValuesAppend(attrs, [k[0]], [k[1]]);
  }

  /** With all four options set, all four values are listed, duplicates included. */
  lemma ValuesAllPresent(attrs: map<string, string>)
    requires Present(attrs, "puppetbindir") && Present(attrs, "facterbindir")
    requires Present(attrs, "hierabindir") && Present(attrs, "privatebindir")
    ensures Values(attrs, PathKeys) ==
      [attrs["puppetbindir"], attrs["facterbindir"], attrs["hierabindir"], attrs["privatebindir"]]
  {
    PathValuesInOrder(attrs);
  }

  /** With none of the options set, the path is empty. */
  lemma {:induction false} ValuesNonePresent(attrs: map<string, string>, keys: seq<string>)
    requires forall i :: 0 <= i < |keys| ==> !Present(attrs, keys[i])
    ensures Values(attrs, keys) == []
    decreases |keys|
  {
    if keys != [] {
      ValuesNonePresent(attrs, keys[..|keys| - 1]);
    }
  }

  /** Every value comes from a present key. */
  lemma {:induction false} ValuesFromKeys(attrs: map<string, string>, keys: seq<string>, i: nat)
    requires i < |Values(attrs, keys)|
    ensures exists j :: 0 <= j < |keys| && Present(attrs, keys[j]) && Values(attrs, keys)[i] == attrs[keys[j]]
    decreases |keys|
  {
    var init := keys[..|keys| - 1];
    var last := keys[|keys| - 1];
    if i < |Values(attrs, init)| {
      ValuesFromKeys(attrs, init, i);
      var j :| 0 <= j < |init| && Present(attrs, init[j]) && Values(attrs, init)[i] == attrs[init[j]];
      assert keys[j] == init[j];
    } else {
      assert Values(attrs, keys)[i] == attrs[last];
    }
  }

  /** `path.map! { |val| echo_on(host, val) }` */
  function EchoAll(h: Host, echo: (Host, string) -> string, vs: seq<string>): seq<string> {
    if vs == [] then [] else [echo(h, vs[0])] + EchoAll(h, echo, vs[1..])
  }

  /** Each value is replaced by its echo, in place. */
  lemma {:induction false} EchoAllSpec(h: Host, echo: (Host, string) -> string, vs: seq<string>)
    ensures |EchoAll(h, echo, vs)| == |vs|
    ensures forall i :: 0 <= i < |vs| ==> EchoAll(h, echo, vs)[i] == echo(h, vs[i])
  {
    if vs != [] {
      EchoAllSpec(h, echo, vs[1..]);
    }
  }

  /** `host['pathseparator']` on PowerShell hosts, ':' elsewhere; a missing
      separator joins with nothing, as `join(nil)` does. */
  function Separator(h: Host): string {
    if !h.isPowershell then ":"
    else if "pathseparator" in h.attrs then h.attrs["pathseparator"]
    else ""
  }

  /** construct_puppet_path */
  function ConstructPuppetPath(h: Host, echo: (Host, string) -> string): string {
    Join(EchoAll(h, echo, Values(h.attrs, PathKeys)), Separator(h))
  }

  /** Splitting the path on its separator gives back the echoed values in
      order, when there is one and none holds the separator: ':' on a host
      that is not PowerShell, the host's one-character `pathseparator` on a
      PowerShell host. */
  lemma PathEntries(h: Host, echo: (Host, string) -> string, d: char)
    requires if h.isPowershell then "pathseparator" in h.attrs && h.attrs["pathseparator"] == [d] else d == ':'
    requires |Values(h.attrs, PathKeys)| >= 1
    requires forall v :: v in Values(h.attrs, PathKeys) ==> d !in echo(h, v)
    ensures Fields(ConstructPuppetPath(h, echo), d) == EchoAll(h, echo, Values(h.attrs, PathKeys))
  {
    var vs := Values(h.attrs, PathKeys);
    var es := EchoAll(h, echo, vs);
    EchoAllSpec(h, echo, vs);
    forall i | 0 <= i < |es| ensures d !in es[i] {
      assert vs[i] in vs;
    }
    assert Separator(h) == [d];
    FieldsOfJoin(es, d);
  }

  /** With no options set, the path is empty whatever the separator. */
  lemma PathEmpty(h: Host, echo: (Host, string) -> string)
    requires forall k :: k in PathKeys ==> !Present(h.attrs, k)
    ensures ConstructPuppetPath(h, echo) == ""
  {
    ValuesNonePresent(h.attrs, PathKeys);
  }

  // ------------------------------------------------------------------
  // add_puppet_paths_on / remove_puppet_paths_on

  datatype Edit = AddPath | RemovePath

  /** The path construct_puppet_path gives each host. */
  function PathOf(echo: (Host, string) -> string): Host -> string {
    h => ConstructPuppetPath(h, echo)
  }

  /** The two environment edits for one host: add or delete its path, then
      add 'PATH' back so that the existing PATH is kept. */
  function HostPathCalls(h: Host, pathOf: Host -> string, e: Edit): seq<Call> {
    [if e == AddPath then AddEnvVar(h, "PATH", pathOf(h)) else DeleteEnvVar(h, "PATH", pathOf(h)),
     AddEnvVar(h, "PATH", "PATH")]
  }

  /** The edits for every host, in order; `pathOf` gives each host's path. */
  function PathCalls(hosts: seq<Host>, pathOf: Host -> string, e: Edit): (r: seq<Call>)
    ensures |r| == 2 * |hosts|
    decreases |hosts|
  {
    if hosts == [] then []
    else PathCalls(hosts[..|hosts| - 1], pathOf, e) + HostPathCalls(hosts[|hosts| - 1], pathOf, e)
  }

  /** One more host: its two edits after the others'. */
  lemma PathCallsSnoc(hosts: seq<Host>, pathOf: Host -> string, e: Edit, i: nat)
    requires i < |hosts|
    ensures PathCalls(hosts[..i + 1], pathOf, e) == PathCalls(hosts[..i], pathOf, e) + HostPathCalls(hosts[i], pathOf, e)
  {
    assert hosts[..i + 1][..i] == hosts[..i];
  }

  /** Calls 2i and 2i+1 are host i's: its path edit, then 'PATH' added back. */
  lemma {:induction false} PathCallsAt(hosts: seq<Host>, pathOf: Host -> string, e: Edit, i: nat)
    requires i < |hosts|
    ensures var r := PathCalls(hosts, pathOf, e);
      var path := pathOf(hosts[i]);
      && r[2 * i] == (if e == AddPath then AddEnvVar(hosts[i], "PATH", path) else DeleteEnvVar(hosts[i], "PATH", path))
      && r[2 * i + 1] == AddEnvVar(hosts[i], "PATH", "PATH")
    decreases |hosts|
  {
    var init, last := hosts[..|hosts| - 1], hosts[|hosts| - 1];
    assert PathCalls(hosts, pathOf, e) == PathCalls(init, pathOf, e) + HostPathCalls(last, pathOf, e);
    if i < |init| {
      PathCallsAt(init, pathOf, e, i);
      assert init[i] == hosts[i];
    } else {
      assert |PathCalls(init, pathOf, e)| == 2 * i;
    }
  }

  /** Keeping PATH: whatever the edit, every host ends with 'PATH' added back. */
  lemma PathKept(hosts: seq<Host>, pathOf: Host -> string, e: Edit, i: nat)
    requires i < |hosts|
    ensures AddEnvVar(hosts[i], "PATH", "PATH") in PathCalls(hosts, pathOf, e)
  {
    PathCallsAt(hosts, pathOf, e, i);
  }
}
