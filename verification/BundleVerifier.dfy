/** The check that a packaged app carries its backend, its node runtime and its CLIs. */
module BundleVerifier {
  import opened Wrappers
  import opened Json
  import opened Search

  // ---------- Paths and files ----------

  type Location = seq<string>

  /** The JSON a file parses to, or None when it does not parse. */
  datatype Node = File(json: Option<Value>) | Directory

  type Disk = Location -> Option<Node>

  predicate IsFile(disk: Disk, at: Location) {
    disk(at).Some? && disk(at).value.File?
  }

  predicate IsDirectory(disk: Disk, at: Location) {
    disk(at).Some? && disk(at).value.Directory?
  }

  /** Where a list of segments leads, as `path.join` has it. */
  function Resolve(segments: seq<string>): Location {
    if segments == [] then []
    else
      var before, last := Resolve(segments[..|segments| - 1]), segments[|segments| - 1];
      if last == "" || last == "." then before
      else if last == ".." then if before == [] then [] else before[..|before| - 1]
      else before + [last]
  }

  function Join(root: Location, path: string): Location {
    Resolve(root + Split(path, '/'))
  }

  function ManifestIn(root: Location): Location {
    Join(root, "manifest.json")
  }

  predicate Proper(segment: string) {
    segment != "" && segment != "." && segment != ".."
  }

  predicate AllProper(segments: seq<string>) {
    forall i :: 0 <= i < |segments| ==> Proper(segments[i])
  }

  // ---------- What a complete bundle is ----------

  const REQUIRED_CLI_NAMES: seq<string> := ["claude", "codex"]

  function BackendBinaryName(platform: string): string {
    if platform == "win32" then "foolcore.exe" else "foolcore"
  }

  function RuntimeKey(platform: string, arch: string): string {
    platform + "-" + arch
  }

  predicate IsText(v: Value) {
    v.Str? && v.s != ""
  }

  /** A path without backslashes that leads from any root to the place its segments spell, inside that root. */
  ghost predicate StaysInside(path: string) {
    '\\' !in path && forall root :: AllProper(root) ==> Resolve(root + Split(path, '/')) == root + Split(path, '/')
  }

  ghost predicate InnerPath(v: Value) {
    v.Str? && StaysInside(v.s)
  }

  predicate HasFile(disk: Disk, root: Location, v: Value) {
    v.Str? && IsFile(disk, Join(root, v.s))
  }

  predicate HasDirectory(disk: Disk, root: Location, v: Value) {
    v.Str? && IsDirectory(disk, Join(root, v.s))
  }

  ghost predicate InnerPaths(vs: seq<Value>) {
    forall i :: 0 <= i < |vs| ==> InnerPath(vs[i])
  }

  predicate HasFiles(disk: Disk, root: Location, vs: seq<Value>) {
    forall i :: 0 <= i < |vs| ==> HasFile(disk, root, vs[i])
  }

  predicate HasDirectories(disk: Disk, root: Location, vs: seq<Value>) {
    forall i :: 0 <= i < |vs| ==> HasDirectory(disk, root, vs[i])
  }

  predicate TextList(v: Value) {
    v.Arr? && forall i :: 0 <= i < |v.items| ==> IsText(v.items[i])
  }

  ghost predicate NodeComplete(disk: Disk, managed: Location, node: Fields) {
    && IsText(Field(node, "version"))
    && IsText(Field(node, "root")) && InnerPath(Field(node, "root"))
    && IsText(Field(node, "executable")) && InnerPath(Field(node, "executable"))
    && HasFile(disk, Join(managed, Field(node, "root").s), Field(node, "executable"))
  }

  /** An optional list: absent means empty. */
  function ListField(cli: Fields, name: string): Value {
    if Field(cli, name).Undefined? then Arr([]) else Field(cli, name)
  }

  ghost predicate CliComplete(disk: Disk, managed: Location, runtimeKey: string, cli: Fields) {
    && IsText(Field(cli, "name")) && IsText(Field(cli, "version"))
    && Field(cli, "platformDirectory") == Str(runtimeKey) && runtimeKey != ""
    && IsText(Field(cli, "root")) && InnerPath(Field(cli, "root"))
    && IsText(Field(cli, "executable")) && InnerPath(Field(cli, "executable"))
    && var files, directories := ListField(cli, "requiredFiles"), ListField(cli, "requiredDirectories");
      && TextList(files) && InnerPaths(files.items)
      && TextList(directories) && InnerPaths(directories.items)
      && var root := Join(managed, Field(cli, "root").s);
        && HasFile(disk, root, Field(cli, "executable"))
        && HasFiles(disk, root, files.items)
        && HasDirectories(disk, root, directories.items)
  }

  predicate Named(cli: Value) {
    cli.Obj? && IsText(Field(cli.fields, "name"))
  }

  function NameOf(cli: Value): string {
    if Named(cli) then Field(cli.fields, "name").s else ""
  }

  predicate IsCli(cli: Value, name: string) {
    Named(cli) && NameOf(cli) == name
  }

  predicate HasCli(clis: seq<Value>, name: string) {
    exists i :: 0 <= i < |clis| && IsCli(clis[i], name)
  }

  predicate NewAt(clis: seq<Value>, i: nat)
    requires i < |clis|
  {
    Named(clis[i]) && forall j :: 0 <= j < i ==> NameOf(clis[j]) != NameOf(clis[i])
  }

  predicate NamesUnique(clis: seq<Value>) {
    forall i :: 0 <= i < |clis| ==> NewAt(clis, i)
  }

  predicate HasClis(clis: seq<Value>, names: seq<string>) {
    forall i :: 0 <= i < |names| ==> HasCli(clis, names[i])
  }

  ghost predicate AllComplete(disk: Disk, managed: Location, runtimeKey: string, clis: seq<Value>) {
    forall i :: 0 <= i < |clis| ==> EachComplete(disk, managed, runtimeKey, clis[i])
  }

  ghost predicate EachComplete(disk: Disk, managed: Location, runtimeKey: string, cli: Value) {
    cli.Obj? && CliComplete(disk, managed, runtimeKey, cli.fields)
  }

  ghost predicate ClisComplete(disk: Disk, managed: Location, runtimeKey: string, clis: seq<Value>) {
    && NamesUnique(clis)
    && HasClis(clis, REQUIRED_CLI_NAMES)
    && AllComplete(disk, managed, runtimeKey, clis)
  }

  ghost predicate ContractComplete(disk: Disk, managed: Location, runtimeKey: string, contract: Value) {
    && contract.Obj?
    && Field(contract.fields, "schemaVersion") == Num(2)
    && Field(contract.fields, "runtimeKey") == Str(runtimeKey)
    && Field(contract.fields, "node").Obj? && NodeComplete(disk, managed, Field(contract.fields, "node").fields)
    && Field(contract.fields, "clis").Arr?
    && ClisComplete(disk, managed, runtimeKey, Field(contract.fields, "clis").items)
  }

  predicate Holds(disk: Disk, at: Location, json: Value) {
    disk(at) == Some(File(Some(json)))
  }

  ghost predicate ManagedComplete(disk: Disk, managed: Location, runtimeKey: string) {
    exists contract :: Holds(disk, ManifestIn(managed), contract)
      && ContractComplete(disk, managed, runtimeKey, contract)
  }

  ghost predicate ManifestMatches(disk: Disk, at: Location, platform: string, arch: string) {
    exists manifest :: Holds(disk, at, Obj(manifest))
      && Field(manifest, "platform") == Str(platform) && Field(manifest, "arch") == Str(arch)
  }

  ghost predicate BundleComplete(disk: Disk, base: Location, platform: string, arch: string) {
    && IsFile(disk, Join(base, BackendBinaryName(platform)))
    && ManifestMatches(disk, ManifestIn(base), platform, arch)
    && IsDirectory(disk, Join(base, "managed-resources"))
    && ManagedComplete(disk, Join(base, "managed-resources"), RuntimeKey(platform, arch))
  }

  function BaseOf(resources: Location, platform: string, arch: string): Location {
    Join(Join(resources, "bundled-foolcore"), RuntimeKey(platform, arch))
  }

  // ---------- Contract paths ----------

  predicate ValidContractPath(v: Value) {
    v.Str? && v.s != "" && '\\' !in v.s && v.s[0] != '/' && AllProper(Split(v.s, '/'))
  }

  lemma {:induction false} ResolveShrinks(segments: seq<string>)
    ensures |Resolve(segments)| <= |segments|
    ensures Resolve(segments) == segments <==> AllProper(segments)
  {
    if segments == [] {
    } else {
      var n := |segments| - 1;
      ResolveShrinks(segments[..n]);
      assert segments == segments[..n] + [segments[n]];
      if |Resolve(segments)| == |segments| { assert Proper(segments[n]); }
      assert AllProper(segments) <==> AllProper(segments[..n]) && Proper(segments[n]);
    }
  }

  /** The test on contract paths accepts exactly the paths that stay inside their root. */
  lemma ValidIffInner(v: Value)
    ensures ValidContractPath(v) <==> InnerPath(v)
  {
    if v.Str? {
      var segments := Split(v.s, '/');
      if AllProper(segments) {
        forall root | AllProper(root) ensures Resolve(root + segments) == root + segments {
          ResolveShrinks(root + segments);
        }
        assert Proper(segments[0]);
      } else {
        ResolveShrinks([] + segments);
        assert AllProper([]) && [] + segments == segments;
      }
    }
  }

  // ---------- The report ----------

  datatype Failure = Failure(component: string, reason: string, at: Option<Location>)

  datatype Missing = Absent(at: Location) | Defect(at: Location, reason: string)

  /** The CLIs with a new name, and all the names. */
  ghost predicate Collected(clis: seq<Value>, valid: seq<Value>, seen: set<string>) {
    && (forall i :: 0 <= i < |valid| ==> Named(valid[i]))
    && (forall name :: name in seen <==> HasCli(clis, name))
    && (NamesUnique(clis) ==> valid == clis)
  }

  class Report {
    var checked: seq<Location>
    var missing: seq<Missing>
    var failures: seq<Failure>

    constructor ()
      ensures failures == [] && missing == []
    {
      checked, missing, failures := [], [], [];
    }

    /** The report has grown, and by a failure exactly when it should. */
    twostate predicate FailsUnless(ok: bool)
      reads this
    {
      && |old(failures)| <= |failures| && |old(missing)| <= |missing|
      && (|failures| == |old(failures)| <==> ok)
      && (ok ==> missing == old(missing))
    }

    method Fail(component: string, reason: string, at: Location)
      modifies this
      ensures checked == old(checked) && failures == old(failures) + [Failure(component, reason, Some(at))]
      ensures missing == old(missing)
        + [if reason == "missing_file" || reason == "missing_directory" then Absent(at) else Defect(at, reason)]
    {
      failures := failures + [Failure(component, reason, Some(at))];
      missing := missing
        + [if reason == "missing_file" || reason == "missing_directory" then Absent(at) else Defect(at, reason)];
    }

    method FailWithoutPath(component: string, reason: string)
      modifies this
      ensures checked == old(checked) && missing == old(missing)
      ensures failures == old(failures) + [Failure(component, reason, None)]
    {
      failures := failures + [Failure(component, reason, None)];
    }

    method RequireFile(disk: Disk, component: string, at: Location)
      modifies this
      ensures FailsUnless(IsFile(disk, at)) && checked == old(checked) + [at]
      ensures !IsFile(disk, at) ==>
        && failures == old(failures) + [Failure(component, "missing_file", Some(at))]
        && missing == old(missing) + [Absent(at)]
    {
      checked := checked + [at];
      if !IsFile(disk, at) { Fail(component, "missing_file", at); }
    }

    method RequireDirectory(disk: Disk, component: string, at: Location)
      modifies this
      ensures FailsUnless(IsDirectory(disk, at)) && checked == old(checked) + [at]
      ensures !IsDirectory(disk, at) ==>
        && failures == old(failures) + [Failure(component, "missing_directory", Some(at))]
        && missing == old(missing) + [Absent(at)]
    {
      checked := checked + [at];
      if !IsDirectory(disk, at) { Fail(component, "missing_directory", at); }
    }

    method VerifyBundleManifest(disk: Disk, at: Location, platform: string, arch: string)
      modifies this
      ensures FailsUnless(ManifestMatches(disk, at, platform, arch))
    {
      checked := checked + [at];
      if !IsFile(disk, at) {
        Fail("bundle-manifest", "missing_file", at);
        return;
      }
      var json := disk(at).value.json;
      if json.None? || json.value in {Undefined, Null, Bool(false), Num(0), Str("")} {
        Fail("bundle-manifest", "invalid_json", at);
        return;
      }
      var manifest := if json.value.Obj? then json.value.fields else map[];
      assert json.value.Obj? ==> Holds(disk, at, Obj(manifest));
      if Field(manifest, "platform") != Str(platform) { Fail("bundle-manifest", "runtime_key_mismatch", at); }
      if Field(manifest, "arch") != Str(arch) { Fail("bundle-manifest", "runtime_key_mismatch", at); }
    }

    method ValidateContractPathField(v: Value, component: string) returns (ok: bool)
      modifies this
      ensures ok == InnerPath(v) && FailsUnless(ok)
    {
      ValidIffInner(v);
      ok := ValidContractPath(v);
      if !ok { FailWithoutPath(component, "invalid_contract_path"); }
    }

    method ValidateAll(vs: seq<Value>, component: string) returns (ok: bool)
      modifies this
      ensures ok == InnerPaths(vs) && FailsUnless(ok)
    {
      for i := 0 to |vs|
        invariant forall j :: 0 <= j < i ==> InnerPath(vs[j])
        invariant FailsUnless(true)
      {
        ok := ValidateContractPathField(vs[i], component);
        if !ok { return; }
      }
      return true;
    }

    method VerifyManagedNode(disk: Disk, managed: Location, node: Fields)
      modifies this
      ensures FailsUnless(NodeComplete(disk, managed, node))
    {
      var root, executable := Field(node, "root"), Field(node, "executable");
      if !IsText(Field(node, "version")) || !IsText(root) || !IsText(executable) {
        Fail("managed-node", "invalid_schema", ManifestIn(managed));
        return;
      }
      var ok := ValidateContractPathField(root, "managed-node");
      if ok { ok := ValidateContractPathField(executable, "managed-node"); }
      if !ok { return; }
      RequireFile(disk, "managed-node", Join(Join(managed, root.s), executable.s));
    }

    method VerifyManagedCli(disk: Disk, managed: Location, runtimeKey: string, cli: Fields)
      requires IsText(Field(cli, "name"))
      modifies this
      ensures FailsUnless(CliComplete(disk, managed, runtimeKey, cli))
    {
      var name := Field(cli, "name").s;
      var root, executable := Field(cli, "root"), Field(cli, "executable");
      var version, directory := Field(cli, "version"), Field(cli, "platformDirectory");
      if !IsText(version) || !IsText(root) || !IsText(directory) || !IsText(executable) {
        Fail(name, "invalid_schema", ManifestIn(managed));
        return;
      }
      var files, directories := ListField(cli, "requiredFiles"), ListField(cli, "requiredDirectories");
      if !TextList(files) || !TextList(directories) {
        Fail(name, "invalid_schema", ManifestIn(managed));
        return;
      }
      if Field(cli, "platformDirectory") != Str(runtimeKey) {
        Fail(name, "runtime_key_mismatch", ManifestIn(managed));
        return;
      }
      var paths := [root, executable] + files.items + directories.items;
      var ok := ValidateAll(paths, name);
      AllOfThree(root, executable, files.items, directories.items);
      if !ok { return; }
      RequireFile(disk, name, Join(Join(managed, root.s), executable.s));
      RequireFiles(disk, name, Join(managed, root.s), files.items);
      RequireDirectories(disk, name, Join(managed, root.s), directories.items);
    }

    method RequireFiles(disk: Disk, component: string, root: Location, files: seq<Value>)
      requires TextList(Arr(files))
      modifies this
      ensures FailsUnless(HasFiles(disk, root, files))
    {
      for i := 0 to |files|
        invariant FailsUnless(HasFiles(disk, root, files[..i]))
      {
        OneMoreFile(disk, root, files, i);
        RequireFile(disk, component, Join(root, files[i].s));
      }
      assert files[..|files|] == files;
    }

    method RequireDirectories(disk: Disk, component: string, root: Location, directories: seq<Value>)
      requires TextList(Arr(directories))
      modifies this
      ensures FailsUnless(HasDirectories(disk, root, directories))
    {
      for i := 0 to |directories|
        invariant FailsUnless(HasDirectories(disk, root, directories[..i]))
      {
        OneMoreDirectory(disk, root, directories, i);
        RequireDirectory(disk, component, Join(root, directories[i].s));
      }
      assert directories[..|directories|] == directories;
    }

    method CollectClis(managed: Location, clis: seq<Value>) returns (valid: seq<Value>, seen: set<string>)
      modifies this
      ensures FailsUnless(NamesUnique(clis))
      ensures Collected(clis, valid, seen)
    {
      valid, seen := [], {};
      for i := 0 to |clis|
        invariant FailsUnless(NamesUnique(clis[..i]))
        invariant Collected(clis[..i], valid, seen)
      {
        var cli := clis[i];
        OneMoreCollected(clis, i, valid, seen);
        assert NamesUnique(clis[..i + 1]) <==> NamesUnique(clis[..i]) && Named(cli) && NameOf(cli) !in seen;
        if !Named(cli) {
          Fail("managed-resources", "invalid_schema", ManifestIn(managed));
        } else if NameOf(cli) in seen {
          FailWithoutPath(NameOf(cli), "duplicate_cli_name");
        } else {
          seen := seen + {NameOf(cli)};
          valid := valid + [cli];
        }
      }
      assert clis[..|clis|] == clis;
    }

    method VerifyManagedClis(disk: Disk, managed: Location, runtimeKey: string, clis: seq<Value>)
      modifies this
      ensures FailsUnless(ClisComplete(disk, managed, runtimeKey, clis))
    {
      var valid, seen := CollectClis(managed, clis);
      for i := 0 to |REQUIRED_CLI_NAMES|
        invariant FailsUnless(NamesUnique(clis) && HasClis(clis, REQUIRED_CLI_NAMES[..i]))
      {
        var name := REQUIRED_CLI_NAMES[i];
        OneMoreName(clis, REQUIRED_CLI_NAMES, i);
        if name !in seen { FailWithoutPath(name, "missing_required_cli"); }
      }
      assert REQUIRED_CLI_NAMES[..|REQUIRED_CLI_NAMES|] == REQUIRED_CLI_NAMES;
      ghost var named := NamesUnique(clis) && HasClis(clis, REQUIRED_CLI_NAMES);
      for i := 0 to |valid|
        invariant FailsUnless(named && AllComplete(disk, managed, runtimeKey, valid[..i]))
      {
        OneMoreComplete(disk, managed, runtimeKey, valid, i);
        VerifyManagedCli(disk, managed, runtimeKey, valid[i].fields);
      }
      assert valid[..|valid|] == valid;
    }

    method VerifyManagedResources(disk: Disk, managed: Location, runtimeKey: string)
      modifies this
      ensures FailsUnless(ManagedComplete(disk, managed, runtimeKey))
    {
      var at := ManifestIn(managed);
      checked := checked + [at];
      if !IsFile(disk, at) {
        Fail("managed-resources", "missing_file", at);
        return;
      }
      if disk(at).value.json.None? {
        Fail("managed-resources", "invalid_json", at);
        return;
      }
      var contract := disk(at).value.json.value;
      assert Holds(disk, at, contract);
      if !contract.Obj? {
        Fail("managed-resources", "invalid_schema", at);
        return;
      }
      var version := Field(contract.fields, "schemaVersion");
      if version != Num(2) {
        var reason := if version.Num? then "unsupported_schema_version" else "invalid_schema";
        Fail("managed-resources", reason, at);
        return;
      }
      if Field(contract.fields, "runtimeKey") != Str(runtimeKey) {
        Fail("managed-resources", "runtime_key_mismatch", at);
        return;
      }
      var node, clis := Field(contract.fields, "node"), Field(contract.fields, "clis");
      if !node.Obj? {
        Fail("managed-resources", "invalid_schema", at);
        return;
      }
      if !clis.Arr? {
        Fail("managed-resources", "invalid_schema", at);
        return;
      }
      VerifyManagedNode(disk, managed, node.fields);
      VerifyManagedClis(disk, managed, runtimeKey, clis.items);
    }
  }

  lemma AllOfThree(a: Value, b: Value, s: seq<Value>, t: seq<Value>)
    ensures var all := [a, b] + s + t;
      InnerPaths(all) <==> InnerPath(a) && InnerPath(b) && InnerPaths(s) && InnerPaths(t)
  {
    var all := [a, b] + s + t;
    assert all[0] == a && all[1] == b;
    assert forall i :: 0 <= i < |s| ==> all[i + 2] == s[i];
    assert forall i :: 0 <= i < |t| ==> all[i + 2 + |s|] == t[i];
  }

  lemma OneMoreCli(clis: seq<Value>, i: nat, name: string)
    requires i < |clis|
    ensures HasCli(clis[..i + 1], name) <==> HasCli(clis[..i], name) || IsCli(clis[i], name)
  {
  }

  lemma OneMoreUnique(clis: seq<Value>, i: nat)
    requires i < |clis|
    ensures NamesUnique(clis[..i + 1])
      <==> NamesUnique(clis[..i]) && Named(clis[i]) && !HasCli(clis[..i], NameOf(clis[i]))
  {
    var less, more := clis[..i], clis[..i + 1];
    OneLonger(clis, i);
    forall j | 0 <= j < i ensures NewAt(more, j) <==> NewAt(less, j) {}
    assert NewAt(more, i) <==> Named(clis[i]) && !HasCli(less, NameOf(clis[i]));
  }

  /** What the next CLI adds, when it is named and new, and that it adds nothing otherwise. */
  lemma OneMoreCollected(clis: seq<Value>, i: nat, valid: seq<Value>, seen: set<string>)
    requires i < |clis| && Collected(clis[..i], valid, seen)
    ensures NamesUnique(clis[..i + 1]) <==> NamesUnique(clis[..i]) && Named(clis[i]) && NameOf(clis[i]) !in seen
    ensures if Named(clis[i]) && NameOf(clis[i]) !in seen
            then Collected(clis[..i + 1], valid + [clis[i]], seen + {NameOf(clis[i])})
            else Collected(clis[..i + 1], valid, seen)
  {
    forall name { OneMoreCli(clis, i, name); }
    OneMoreUnique(clis, i);
    assert clis[..i + 1] == clis[..i] + [clis[i]];
  }

  lemma OneLonger<T>(s: seq<T>, i: nat)
    requires i < |s|
    ensures |s[..i + 1]| == i + 1 && s[..i + 1][i] == s[i]
    ensures forall j :: 0 <= j < i ==> s[..i + 1][j] == s[..i][j]
  {
  }

  lemma OneMoreName(clis: seq<Value>, names: seq<string>, i: nat)
    requires i < |names|
    ensures HasClis(clis, names[..i + 1]) <==> HasClis(clis, names[..i]) && HasCli(clis, names[i])
  {
  }

  lemma OneMoreFile(disk: Disk, root: Location, files: seq<Value>, i: nat)
    requires i < |files|
    ensures HasFiles(disk, root, files[..i + 1]) <==> HasFiles(disk, root, files[..i]) && HasFile(disk, root, files[i])
  {
  }

  lemma OneMoreDirectory(disk: Disk, root: Location, directories: seq<Value>, i: nat)
    requires i < |directories|
    ensures HasDirectories(disk, root, directories[..i + 1])
      <==> HasDirectories(disk, root, directories[..i]) && HasDirectory(disk, root, directories[i])
  {
  }

  lemma OneMoreComplete(disk: Disk, managed: Location, runtimeKey: string, clis: seq<Value>, i: nat)
    requires i < |clis|
    ensures AllComplete(disk, managed, runtimeKey, clis[..i + 1])
      <==> AllComplete(disk, managed, runtimeKey, clis[..i]) && EachComplete(disk, managed, runtimeKey, clis[i])
  {
  }

  /** A bundle passes, with nothing failed and nothing missing, exactly when it is complete. */
  method VerifyBundledFoolcoreResources(disk: Disk, resources: Location, platform: string, arch: string)
    returns (checked: seq<Location>, missing: seq<Missing>, failures: seq<Failure>)
    ensures failures == [] <==> BundleComplete(disk, BaseOf(resources, platform, arch), platform, arch)
    ensures missing == [] <==> failures == []
  {
    var base := BaseOf(resources, platform, arch);
    var report := new Report();
    report.RequireFile(disk, "foolcore", Join(base, BackendBinaryName(platform)));
    report.VerifyBundleManifest(disk, ManifestIn(base), platform, arch);
    report.RequireDirectory(disk, "managed-resources", Join(base, "managed-resources"));
    report.VerifyManagedResources(disk, Join(base, "managed-resources"), RuntimeKey(platform, arch));
    checked, missing, failures := report.checked, report.missing, report.failures;
    if |failures| > 0 && |missing| == 0 {
      missing := [Defect(ManifestIn(Join(base, "managed-resources")), "contract_failure")];
    }
  }
}
