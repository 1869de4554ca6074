/** The argument list of a VM's runner: assembled as tokens, joined with spaces, and split again. */
module BootArgs {
  import opened Text
  import opened Decimal
  import opened Sorting
  import SemVer
  import Volumes

  datatype Interface = Tap(path: string) | Plain

  datatype Cd = Cd(slot: nat, path: string)

  datatype Settings = Settings(
    imageStore: string, channel: string, version: string, name: string, uuid: string, memory: nat, cpus: nat,
    tty: string, log: string, endpoint: string, persistentRoot: bool,
    cloudConfig: string, cloudConfigIsLocal: bool, addToHypervisor: string, addToKernel: string,
    ethernet: seq<Interface>, cdDrives: map<string, Cd>, hardDrives: map<string, Volumes.Device>)

  // ---- Tokens ----

  function FixedTokens(vm: Settings): seq<string> {
    ["-s", "0:0,hostbridge", "-l", "com1,autopty=" + vm.tty + ",log=" + vm.log, "-s", "5,virtio-rnd", "-s", "31,lpc",
     "-U", vm.uuid, "-m", Itoa(vm.memory) + "M", "-c", Itoa(vm.cpus), "-A", "-u"]
  }

  function WithExtra(tokens: seq<string>, extra: string): seq<string> {
    if extra != "" then tokens + [extra] else tokens
  }

  function InterfaceToken(v: nat, i: Interface): string {
    match i
    case Tap(path) => "2:" + Itoa(v) + ",virtio-tap," + path
    case Plain => "2:" + Itoa(v) + ",virtio-net"
  }

  function NetTokens(ethernet: seq<Interface>): seq<string> {
    if ethernet == [] then []
    else
      var v := |ethernet| - 1;
      NetTokens(ethernet[..v]) + ["-s", InterfaceToken(v, ethernet[v])]
  }

  function CdToken(d: Cd): string {
    "3:" + Itoa(d.slot) + ",ahci-cd," + d.path
  }

  function CdTokens(drives: seq<Cd>): seq<string> {
    if drives == [] then [] else ["-s", CdToken(drives[0])] + CdTokens(drives[1..])
  }

  function DriveToken(d: Volumes.Device): string {
    match d.format
    case Raw => "4:" + Itoa(d.slot) + ",virtio-blk," + d.path
    case Qcow2 => "4:" + Itoa(d.slot) + ",virtio-blk,file://" + d.path + ",format=qcow"
  }

  function DriveTokens(drives: seq<Volumes.Device>): seq<string> {
    if drives == [] then [] else ["-s", DriveToken(drives[0])] + DriveTokens(drives[1..])
  }

  /** The map's keys are exactly these, once each, and the values those under them. */
  ghost predicate Keyed<T>(keys: seq<string>, values: seq<T>, m: map<string, T>) {
    && Distinct(keys) && |values| == |keys|
    && (forall key :: key in m ==> key in keys)
    && forall k :: 0 <= k < |keys| ==> keys[k] in m && values[k] == m[keys[k]]
  }

  ghost predicate Enumerates<T>(values: seq<T>, m: map<string, T>) { exists keys :: Keyed(keys, values, m) }

  /** The hypervisor's arguments when the maps yield their devices in these orders. */
  function Instr(vm: Settings, cds: seq<Cd>, drives: seq<Volumes.Device>): seq<string> {
    WithExtra(FixedTokens(vm), vm.addToHypervisor) + NetTokens(vm.ethernet) + CdTokens(cds) + DriveTokens(drives)
  }

  ghost predicate IsInstr(vm: Settings, instr: seq<string>, cds: seq<Cd>, drives: seq<Volumes.Device>) {
    Enumerates(cds, vm.cdDrives) && Enumerates(drives, vm.hardDrives) && instr == Instr(vm, cds, drives)
  }

  function RootTokens(vm: Settings): seq<string> {
    if vm.persistentRoot then ["root=LABEL=ROOT"] else []
  }

  function CloudTokens(vm: Settings): seq<string> {
    if vm.cloudConfig == "" then []
    else ["cloud-config-url=" + (if vm.cloudConfigIsLocal then vm.endpoint + "/cloud-config" else vm.cloudConfig)]
  }

  function KernelOwnTokens(): seq<string> {
    ["earlyprintk=serial", "console=ttyS0", "coreos.autologin", "coreos.first_boot=1"]
  }

  /** The kernel's arguments; the empty one is due to a double space. */
  function KernelTokens(vm: Settings): seq<string> {
    KernelOwnTokens() + RootTokens(vm)
    + ["corectl.hostname=" + vm.name, "", "coreos.config.url=" + (vm.endpoint + "/ignition")] + CloudTokens(vm)
  }

  /** The kernel's arguments, then what the user adds, with spaces between. */
  function CmdLine(vm: Settings): string { Join(WithExtra(KernelTokens(vm), vm.addToKernel), ' ') }

  function ImageDir(vm: Settings): string {
    vm.imageStore + "/" + vm.channel + "/" + vm.version + "/coreos_production_pxe"
  }

  function Vmlinuz(vm: Settings): string { ImageDir(vm) + ".vmlinuz" }

  function Initrd(vm: Settings): string { ImageDir(vm) + "_image.cpio.gz" }

  function Kexec(vm: Settings): string { "kexec," + Vmlinuz(vm) + "," + Initrd(vm) + "," }

  // ---- What the tokens say ----

  /** The option is followed by this value. */
  ghost predicate Gives(tokens: seq<string>, option: string, value: string) {
    exists k :: 0 <= k < |tokens| - 1 && tokens[k] == option && tokens[k + 1] == value
  }

  lemma GivesAt(tokens: seq<string>, k: nat, option: string, value: string)
    requires k < |tokens| - 1 && tokens[k] == option && tokens[k + 1] == value
    ensures Gives(tokens, option, value)
  {
  }

  lemma GivesInFront(tokens: seq<string>, more: seq<string>, option: string, value: string)
    requires Gives(tokens, option, value)
    ensures Gives(tokens + more, option, value)
  {
    var k :| 0 <= k < |tokens| - 1 && tokens[k] == option && tokens[k + 1] == value;
    assert (tokens + more)[k] == option && (tokens + more)[k + 1] == value;
  }

  lemma GivesBehind(front: seq<string>, tokens: seq<string>, option: string, value: string)
    requires Gives(tokens, option, value)
    ensures Gives(front + tokens, option, value)
  {
    var k :| 0 <= k < |tokens| - 1 && tokens[k] == option && tokens[k + 1] == value;
    var n := |front|;
    assert (front + tokens)[n + k] == option && (front + tokens)[n + k + 1] == value;
  }

  lemma FixedTokensGive(vm: Settings)
    ensures Gives(FixedTokens(vm), "-m", Itoa(vm.memory) + "M")
    ensures Gives(FixedTokens(vm), "-c", Itoa(vm.cpus))
    ensures Gives(FixedTokens(vm), "-U", vm.uuid)
    ensures Gives(FixedTokens(vm), "-l", "com1,autopty=" + vm.tty + ",log=" + vm.log)
  {
    var tokens := FixedTokens(vm);
    GivesAt(tokens, 10, "-m", Itoa(vm.memory) + "M");
    GivesAt(tokens, 12, "-c", Itoa(vm.cpus));
    GivesAt(tokens, 8, "-U", vm.uuid);
    GivesAt(tokens, 2, "-l", "com1,autopty=" + vm.tty + ",log=" + vm.log);
  }

  lemma {:induction false} NetTokensGive(ethernet: seq<Interface>, v: nat)
    requires v < |ethernet|
    ensures Gives(NetTokens(ethernet), "-s",
                  "2:" + Itoa(v) + (if ethernet[v].Plain? then ",virtio-net" else ",virtio-tap," + ethernet[v].path))
  {
    var last := |ethernet| - 1;
    var token := "2:" + Itoa(v) + (if ethernet[v].Plain? then ",virtio-net" else ",virtio-tap," + ethernet[v].path);
    if v == last {
      assert token == InterfaceToken(v, ethernet[v]);
      assert ["-s", token][0] == "-s" && ["-s", token][1] == token;
      assert Gives(["-s", token], "-s", token);
      GivesBehind(NetTokens(ethernet[..last]), ["-s", token], "-s", token);
    } else {
      NetTokensGive(ethernet[..last], v);
      GivesInFront(NetTokens(ethernet[..last]), ["-s", InterfaceToken(last, ethernet[last])], "-s", token);
    }
  }

  lemma {:induction false} CdTokensGive(cds: seq<Cd>, k: nat)
    requires k < |cds|
    ensures Gives(CdTokens(cds), "-s", "3:" + Itoa(cds[k].slot) + ",ahci-cd," + cds[k].path)
  {
    var first, token := CdToken(cds[0]), "3:" + Itoa(cds[k].slot) + ",ahci-cd," + cds[k].path;
    if k == 0 {
      assert ["-s", first][0] == "-s" && ["-s", first][1] == token;
      GivesInFront(["-s", first], CdTokens(cds[1..]), "-s", token);
    } else {
      CdTokensGive(cds[1..], k - 1);
      GivesBehind(["-s", first], CdTokens(cds[1..]), "-s", token);
    }
  }

  lemma {:induction false} DriveTokensGive(drives: seq<Volumes.Device>, k: nat)
    requires k < |drives|
    ensures Gives(DriveTokens(drives), "-s",
                  if drives[k].format == Volumes.Raw then "4:" + Itoa(drives[k].slot) + ",virtio-blk," + drives[k].path
                  else "4:" + Itoa(drives[k].slot) + ",virtio-blk,file://" + drives[k].path + ",format=qcow")
  {
    var d, first := drives[k], DriveToken(drives[0]);
    var token := if d.format == Volumes.Raw then "4:" + Itoa(d.slot) + ",virtio-blk," + d.path
                 else "4:" + Itoa(d.slot) + ",virtio-blk,file://" + d.path + ",format=qcow";
    if k == 0 {
      assert ["-s", first][0] == "-s" && ["-s", first][1] == token;
      GivesInFront(["-s", first], DriveTokens(drives[1..]), "-s", token);
    } else {
      DriveTokensGive(drives[1..], k - 1);
      GivesBehind(["-s", first], DriveTokens(drives[1..]), "-s", token);
    }
  }

  /** The hypervisor is told the VM's memory, processors, UUID and console, and what the user adds. */
  lemma HypervisorIsTold(vm: Settings, cds: seq<Cd>, drives: seq<Volumes.Device>)
    ensures var instr := Instr(vm, cds, drives);
      && Gives(instr, "-m", Itoa(vm.memory) + "M") && Gives(instr, "-c", Itoa(vm.cpus)) && Gives(instr, "-U", vm.uuid)
      && Gives(instr, "-l", "com1,autopty=" + vm.tty + ",log=" + vm.log)
      && (vm.addToHypervisor != "" ==> vm.addToHypervisor in instr)
  {
    FixedTokensGive(vm);
    var fixed, front := FixedTokens(vm), WithExtra(FixedTokens(vm), vm.addToHypervisor);
    var net, cd, drive := NetTokens(vm.ethernet), CdTokens(cds), DriveTokens(drives);
    forall option, value | Gives(fixed, option, value) ensures Gives(Instr(vm, cds, drives), option, value) {
      if vm.addToHypervisor != "" { GivesInFront(fixed, [vm.addToHypervisor], option, value); }
      GivesInFront(front, net, option, value);
      GivesInFront(front + net, cd, option, value);
      GivesInFront(front + net + cd, drive, option, value);
    }
  }

  /** It is told every interface with its number, and every CD-ROM and disk with its slot, path and format. */
  lemma InterfacesAreTold(vm: Settings, cds: seq<Cd>, drives: seq<Volumes.Device>, v: nat)
    requires v < |vm.ethernet|
    ensures Gives(Instr(vm, cds, drives), "-s",
                  "2:" + Itoa(v)
                  + (if vm.ethernet[v].Plain? then ",virtio-net" else ",virtio-tap," + vm.ethernet[v].path))
  {
    var front, net := WithExtra(FixedTokens(vm), vm.addToHypervisor), NetTokens(vm.ethernet);
    var token := "2:" + Itoa(v)
                 + (if vm.ethernet[v].Plain? then ",virtio-net" else ",virtio-tap," + vm.ethernet[v].path);
    NetTokensGive(vm.ethernet, v);
    GivesBehind(front, net, "-s", token);
    GivesInFront(front + net, CdTokens(cds), "-s", token);
    GivesInFront(front + net + CdTokens(cds), DriveTokens(drives), "-s", token);
  }

  lemma CdsAreTold(vm: Settings, cds: seq<Cd>, drives: seq<Volumes.Device>, k: nat)
    requires k < |cds|
    ensures Gives(Instr(vm, cds, drives), "-s", "3:" + Itoa(cds[k].slot) + ",ahci-cd," + cds[k].path)
  {
    var front := WithExtra(FixedTokens(vm), vm.addToHypervisor) + NetTokens(vm.ethernet);
    var token := "3:" + Itoa(cds[k].slot) + ",ahci-cd," + cds[k].path;
    CdTokensGive(cds, k);
    GivesBehind(front, CdTokens(cds), "-s", token);
    GivesInFront(front + CdTokens(cds), DriveTokens(drives), "-s", token);
  }

  lemma DrivesAreTold(vm: Settings, cds: seq<Cd>, drives: seq<Volumes.Device>, k: nat)
    requires k < |drives|
    ensures var d := drives[k];
      Gives(Instr(vm, cds, drives), "-s",
            if d.format == Volumes.Raw then "4:" + Itoa(d.slot) + ",virtio-blk," + d.path
            else "4:" + Itoa(d.slot) + ",virtio-blk,file://" + d.path + ",format=qcow")
  {
    var d := drives[k];
    DriveTokensGive(drives, k);
    GivesBehind(WithExtra(FixedTokens(vm), vm.addToHypervisor) + NetTokens(vm.ethernet) + CdTokens(cds),
                DriveTokens(drives), "-s",
                if d.format == Volumes.Raw then "4:" + Itoa(d.slot) + ",virtio-blk," + d.path
                else "4:" + Itoa(d.slot) + ",virtio-blk,file://" + d.path + ",format=qcow");
  }

  /** The kernel is told its console, the VM's name, where its configuration is, and the cloud configuration
      that is set. */
  lemma KernelIsTold(vm: Settings)
    ensures var tokens := KernelTokens(vm);
      && "earlyprintk=serial" in tokens && "console=ttyS0" in tokens
      && "coreos.autologin" in tokens && "coreos.first_boot=1" in tokens
      && "corectl.hostname=" + vm.name in tokens && "coreos.config.url=" + (vm.endpoint + "/ignition") in tokens
      && (vm.cloudConfig != "" && vm.cloudConfigIsLocal ==>
            "cloud-config-url=" + (vm.endpoint + "/cloud-config") in tokens)
      && (vm.cloudConfig != "" && !vm.cloudConfigIsLocal ==> "cloud-config-url=" + vm.cloudConfig in tokens)
      && (vm.addToKernel != "" ==> vm.addToKernel in WithExtra(tokens, vm.addToKernel))
  {
    var tokens, own := KernelTokens(vm), KernelOwnTokens();
    var front := own + RootTokens(vm);
    var middle := ["corectl.hostname=" + vm.name, "", "coreos.config.url=" + (vm.endpoint + "/ignition")];
    assert tokens == front + middle + CloudTokens(vm);
    assert own[0] in tokens && own[1] in tokens && own[2] in tokens && own[3] in tokens;
    assert middle[0] in tokens && middle[2] in tokens;
    if vm.cloudConfig != "" { assert CloudTokens(vm)[0] in tokens; }
  }

  /** Kernel and ram disk are the files of that channel and version in the image store. */
  lemma KernelFiles(vm: Settings)
    ensures Vmlinuz(vm) == Join([vm.imageStore, vm.channel, vm.version, "coreos_production_pxe.vmlinuz"], '/')
    ensures Initrd(vm) == Join([vm.imageStore, vm.channel, vm.version, "coreos_production_pxe_image.cpio.gz"], '/')
  {
    FourComponents(vm.imageStore, vm.channel, vm.version, "coreos_production_pxe", ".vmlinuz");
    FourComponents(vm.imageStore, vm.channel, vm.version, "coreos_production_pxe", "_image.cpio.gz");
    assert "/" + "coreos_production_pxe" == "/coreos_production_pxe";
    assert "coreos_production_pxe" + ".vmlinuz" == "coreos_production_pxe.vmlinuz";
    assert "coreos_production_pxe" + "_image.cpio.gz" == "coreos_production_pxe_image.cpio.gz";
  }

  lemma FourComponents(a: string, b: string, c: string, prefix: string, suffix: string)
    ensures a + "/" + b + "/" + c + ("/" + prefix) + suffix == Join([a, b, c, prefix + suffix], '/')
  {
    var d := prefix + suffix;
    assert [a, b, c, d][1..] == [b, c, d] && [b, c, d][1..] == [c, d] && [c, d][1..] == [d];
    assert Join([c, d], '/') == c + "/" + d;
    assert Join([b, c, d], '/') == b + "/" + (c + "/" + d);
    assert Join([a, b, c, d], '/') == a + "/" + (b + "/" + (c + "/" + d));
    Slashed(a, "/", b, c, prefix, suffix);
  }

  lemma Slashed(a: string, s: string, b: string, c: string, p: string, q: string)
    ensures a + s + b + s + c + (s + p) + q == a + s + (b + s + (c + s + (p + q)))
  {
  }

  // ---- The code ----

  /** The values of a map in the order the iteration happens to take. */
  method Values<T>(m: map<string, T>) returns (values: seq<T>)
    ensures Enumerates(values, m)
  {
    values := [];
    ghost var keys: seq<string> := [];
    var rest := m.Keys;
    while rest != {}
      invariant rest <= m.Keys
      invariant Distinct(keys) && |values| == |keys|
      invariant forall key :: key in keys <==> key in m && key !in rest
      invariant forall k :: 0 <= k < |keys| ==> keys[k] in m && values[k] == m[keys[k]]
    {
      var key :| key in rest;
      assert key !in keys;
      ghost var before := keys;
      values, keys := values + [m[key]], keys + [key];
      forall k ensures k in keys <==> k in before || k == key { }
      rest := rest - {key};
    }
    assert Keyed(keys, values, m);
  }

  method AppendInterfaces(before: seq<string>, ethernet: seq<Interface>) returns (instr: seq<string>)
    ensures instr == before + NetTokens(ethernet)
  {
    instr := before;
    for v := 0 to |ethernet|
      invariant instr == before + NetTokens(ethernet[..v])
    {
      instr := instr + ["-s", InterfaceToken(v, ethernet[v])];
      assert ethernet[..v + 1][..v] == ethernet[..v];
    }
    assert ethernet[..|ethernet|] == ethernet;
  }

  lemma CdTokensFrom(drives: seq<Cd>, k: nat)
    requires k < |drives|
    ensures CdTokens(drives[k..]) == ["-s", CdToken(drives[k])] + CdTokens(drives[k + 1..])
  {
    assert drives[k..][1..] == drives[k + 1..];
  }

  lemma DriveTokensFrom(drives: seq<Volumes.Device>, k: nat)
    requires k < |drives|
    ensures DriveTokens(drives[k..]) == ["-s", DriveToken(drives[k])] + DriveTokens(drives[k + 1..])
  {
    assert drives[k..][1..] == drives[k + 1..];
  }

  lemma Regrouped<T>(a: seq<T>, b: seq<T>, c: seq<T>)
    ensures a + b + c == a + (b + c)
  {
  }

  method AppendCds(before: seq<string>, m: map<string, Cd>) returns (instr: seq<string>, ghost cds: seq<Cd>)
    ensures Enumerates(cds, m) && instr == before + CdTokens(cds)
  {
    var values := Values(m);
    instr, cds := before, values;
    for k := 0 to |values|
      invariant instr + CdTokens(values[k..]) == before + CdTokens(values)
    {
      CdTokensFrom(values, k);
      Regrouped(instr, ["-s", CdToken(values[k])], CdTokens(values[k + 1..]));
      instr := instr + ["-s", CdToken(values[k])];
    }
  }

  method AppendDrives(before: seq<string>, m: map<string, Volumes.Device>)
    returns (instr: seq<string>, ghost drives: seq<Volumes.Device>)
    ensures Enumerates(drives, m) && instr == before + DriveTokens(drives)
  {
    var values := Values(m);
    instr, drives := before, values;
    for k := 0 to |values|
      invariant instr + DriveTokens(values[k..]) == before + DriveTokens(values)
    {
      DriveTokensFrom(values, k);
      Regrouped(instr, ["-s", DriveToken(values[k])], DriveTokens(values[k + 1..]));
      instr := instr + ["-s", DriveToken(values[k])];
    }
  }

  lemma OneMoreArgument(tokens: seq<string>, token: string)
    requires tokens != []
    ensures Join(tokens + [token], ' ') == Join(tokens, ' ') + (" " + token)
  {
    JoinOfConcat(tokens, [token], ' ');
  }

  lemma FourArguments(a: string, b: string, c: string, d: string)
    ensures Join([a, b, c, d], ' ') == a + (" " + b) + (" " + c) + (" " + d)
  {
    OneMoreArgument([a], b);
    OneMoreArgument([a] + [b], c);
    OneMoreArgument([a] + [b] + [c], d);
    assert [a] + [b] + [c] + [d] == [a, b, c, d];
  }

  lemma OwnLiterals()
    ensures "earlyprintk=serial" + (" " + "console=ttyS0") == "earlyprintk=serial console=ttyS0"
    ensures "earlyprintk=serial console=ttyS0" + (" " + "coreos.autologin") ==
            "earlyprintk=serial console=ttyS0 coreos.autologin"
  {
  }

  lemma KernelOwnArguments()
    ensures Join(KernelOwnTokens(), ' ') == "earlyprintk=serial console=ttyS0 coreos.autologin coreos.first_boot=1"
  {
    FourArguments("earlyprintk=serial", "console=ttyS0", "coreos.autologin", "coreos.first_boot=1");
    OwnLiterals();
    assert "earlyprintk=serial console=ttyS0 coreos.autologin" + (" " + "coreos.first_boot=1")
        == "earlyprintk=serial console=ttyS0 coreos.autologin coreos.first_boot=1";
  }

  lemma NamedArguments(tokens: seq<string>, host: string, between: string, url: string)
    requires tokens != []
    ensures Join(tokens + [host, between, url], ' ') == Join(tokens, ' ') + (" " + host) + (" " + between) + (" " + url)
  {
    OneMoreArgument(tokens, host);
    OneMoreArgument(tokens + [host], between);
    OneMoreArgument(tokens + [host] + [between], url);
    assert tokens + [host] + [between] + [url] == tokens + [host, between, url];
  }

  lemma LabelledArgument(front: string, space: string, key: string, value: string)
    ensures front + (space + (key + value)) == front + (space + key) + value
  {
  }

  lemma KeyLiterals()
    ensures " " + "corectl.hostname=" == " corectl.hostname="
    ensures " " + "" + " " + "coreos.config.url=" == "  coreos.config.url="
  {
  }

  lemma HostAndUrl(line: string, name: string, url: string)
    ensures line + " corectl.hostname=" + name + "  coreos.config.url=" + url ==
            line + (" " + ("corectl.hostname=" + name)) + (" " + "") + (" " + ("coreos.config.url=" + url))
  {
    KeyLiterals();
    LabelledArgument(line, " ", "corectl.hostname=", name);
    var named := line + " corectl.hostname=" + name;
    LabelledArgument(named, " " + "" + " ", "coreos.config.url=", url);
    Regrouped2(named, " " + "", " ", "coreos.config.url=" + url);
  }

  lemma Regrouped2(a: string, b: string, c: string, d: string)
    ensures a + b + (c + d) == a + (b + c + d)
  {
  }

  lemma CloudArgument(line: string, url: string)
    ensures line + (" cloud-config-url=" + url) == line + (" " + ("cloud-config-url=" + url))
  {
    assert " " + "cloud-config-url=" == " cloud-config-url=";
  }

  /** The line grows piece by piece into the arguments with spaces between. */
  method KernelArguments(vm: Settings) returns (cmdline: string)
    ensures cmdline == CmdLine(vm)
  {
    KernelOwnArguments();
    ghost var tokens := KernelOwnTokens();
    cmdline := "earlyprintk=serial console=ttyS0 coreos.autologin coreos.first_boot=1";
    if vm.persistentRoot {
      OneMoreArgument(tokens, "root=LABEL=ROOT");
      assert " " + "root=LABEL=ROOT" == " root=LABEL=ROOT";
      cmdline := cmdline + " root=LABEL=ROOT";
    }
    assert tokens + [] == tokens;
    tokens := tokens + RootTokens(vm);
    assert cmdline == Join(tokens, ' ');
    var ignition := vm.endpoint + "/ignition";
    NamedArguments(tokens, "corectl.hostname=" + vm.name, "", "coreos.config.url=" + ignition);
    HostAndUrl(cmdline, vm.name, ignition);
    cmdline := cmdline + " corectl.hostname=" + vm.name + "  coreos.config.url=" + ignition;
    tokens := tokens + ["corectl.hostname=" + vm.name, "", "coreos.config.url=" + ignition];
    if vm.cloudConfig != "" {
      var url;
      if vm.cloudConfigIsLocal {
        url := vm.endpoint + "/cloud-config";
      } else {
        url := vm.cloudConfig;
      }
      CloudArgument(cmdline, url);
      OneMoreArgument(tokens, "cloud-config-url=" + url);
      cmdline := cmdline + (" cloud-config-url=" + url);
    }
    assert tokens + [] == tokens;
    tokens := tokens + CloudTokens(vm);
    assert tokens == KernelTokens(vm) && cmdline == Join(tokens, ' ');
    if vm.addToKernel != "" {
      OneMoreArgument(tokens, vm.addToKernel);
      cmdline := cmdline + (" " + vm.addToKernel);
    }
  }

  /** The devices are appended in the order net, CD, disk, each map's in whatever order it yields. */
  method AssembleBootPayload(vm: Settings)
    returns (instr: seq<string>, args: seq<string>, ghost cds: seq<Cd>, ghost drives: seq<Volumes.Device>)
    ensures IsInstr(vm, instr, cds, drives)
    ensures args == [Join(instr, ' '), Kexec(vm), CmdLine(vm)]
  {
    var cmdline := KernelArguments(vm);
    instr := FixedTokens(vm);
    if vm.addToHypervisor != "" {
      instr := instr + [vm.addToHypervisor];
    }
    instr := AppendInterfaces(instr, vm.ethernet);
    instr, cds := AppendCds(instr, vm.cdDrives);
    instr, drives := AppendDrives(instr, vm.hardDrives);
    args := [Join(instr, ' '), Kexec(vm), cmdline];
  }

  // ---- What the runner gets ----

  /** Splitting the joined tokens gives the tokens back exactly when none of them contains a space. */
  lemma TokensSurviveIff(tokens: seq<string>, c: char)
    requires tokens != []
    ensures Split(Join(tokens, c), c) == tokens <==> AllFree(tokens, c)
  {
    if AllFree(tokens, c) {
      SplitOfFreeJoin(tokens, c);
    } else {
      SplitIsFree(Join(tokens, c), c);
    }
  }

  /** A token with spaces among tokens without any arrives as its words, in its place. */
  lemma ExtraArrivesAsWords(before: seq<string>, extra: string, after: seq<string>, c: char)
    requires before != [] && AllFree(before, c) && AllFree(after, c)
    ensures Split(Join(before + [extra] + after, c), c) == before + Split(extra, c) + after
  {
    var head := before + [extra];
    JoinOfConcat(before, [extra], c);
    SplitOfConcat(Join(before, c), c, extra);
    SplitOfFreeJoin(before, c);
    if after == [] {
      assert before + [extra] + after == head;
    } else {
      JoinOfConcat(head, after, c);
      SplitOfConcat(Join(head, c), c, Join(after, c));
      SplitOfFreeJoin(after, c);
    }
  }

  /** No path, name or identifier that goes into a token contains a space. */
  ghost predicate SpaceFree(vm: Settings) {
    && ' ' !in vm.tty && ' ' !in vm.log && ' ' !in vm.uuid
    && (forall v :: 0 <= v < |vm.ethernet| && vm.ethernet[v].Tap? ==> ' ' !in vm.ethernet[v].path)
    && (forall key :: key in vm.cdDrives ==> ' ' !in vm.cdDrives[key].path)
    && (forall key :: key in vm.hardDrives ==> ' ' !in vm.hardDrives[key].path)
  }

  lemma InterfaceTokenIsFree(v: nat, i: Interface)
    ensures ' ' in InterfaceToken(v, i) <==> i.Tap? && ' ' in i.path
  {
    ItoaWithout(v, ' ');
  }

  lemma CdTokenIsFree(d: Cd)
    ensures ' ' in CdToken(d) <==> ' ' in d.path
  {
    ItoaWithout(d.slot, ' ');
  }

  lemma DriveTokenIsFree(d: Volumes.Device)
    ensures ' ' in DriveToken(d) <==> ' ' in d.path
  {
    ItoaWithout(d.slot, ' ');
  }

  lemma FixedTokensAreFree(vm: Settings)
    ensures AllFree(FixedTokens(vm), ' ') <==> ' ' !in vm.tty && ' ' !in vm.log && ' ' !in vm.uuid
  {
    ItoaWithout(vm.memory, ' ');
    ItoaWithout(vm.cpus, ' ');
    var tokens := FixedTokens(vm);
    assert ' ' in tokens[3] <==> ' ' in vm.tty || ' ' in vm.log;
    assert tokens[9] == vm.uuid;
  }

  lemma AllFreeOfConcat(a: seq<string>, b: seq<string>, c: char)
    ensures AllFree(a + b, c) <==> AllFree(a, c) && AllFree(b, c)
  {
    if AllFree(a + b, c) {
      assert forall i :: 0 <= i < |a| ==> a[i] == (a + b)[i];
      assert forall i :: 0 <= i < |b| ==> b[i] == (a + b)[|a| + i];
    }
  }

  lemma {:induction false} NetTokensAreFree(ethernet: seq<Interface>)
    ensures AllFree(NetTokens(ethernet), ' ') <==>
            forall v :: 0 <= v < |ethernet| && ethernet[v].Tap? ==> ' ' !in ethernet[v].path
  {
    if ethernet != [] {
      var v := |ethernet| - 1;
      var token := InterfaceToken(v, ethernet[v]);
      NetTokensAreFree(ethernet[..v]);
      InterfaceTokenIsFree(v, ethernet[v]);
      AllFreeOfConcat(NetTokens(ethernet[..v]), ["-s", token], ' ');
      assert AllFree(["-s", token], ' ') <==> ' ' !in token by { assert ["-s", token][1] == token; }
    }
  }

  lemma {:induction false} CdTokensAreFree(cds: seq<Cd>)
    ensures AllFree(CdTokens(cds), ' ') <==> forall k :: 0 <= k < |cds| ==> ' ' !in cds[k].path
  {
    if cds != [] {
      var token := CdToken(cds[0]);
      CdTokensAreFree(cds[1..]);
      CdTokenIsFree(cds[0]);
      AllFreeOfConcat(["-s", token], CdTokens(cds[1..]), ' ');
      assert AllFree(["-s", token], ' ') <==> ' ' !in token by { assert ["-s", token][1] == token; }
      assert forall k :: 0 < k < |cds| ==> cds[k] == cds[1..][k - 1];
    }
  }

  lemma {:induction false} DriveTokensAreFree(drives: seq<Volumes.Device>)
    ensures AllFree(DriveTokens(drives), ' ') <==> forall k :: 0 <= k < |drives| ==> ' ' !in drives[k].path
  {
    if drives != [] {
      var token := DriveToken(drives[0]);
      DriveTokensAreFree(drives[1..]);
      DriveTokenIsFree(drives[0]);
      AllFreeOfConcat(["-s", token], DriveTokens(drives[1..]), ' ');
      assert AllFree(["-s", token], ' ') <==> ' ' !in token by { assert ["-s", token][1] == token; }
      assert forall k :: 0 < k < |drives| ==> drives[k] == drives[1..][k - 1];
    }
  }

  lemma EnumeratedAlike<T>(values: seq<T>, m: map<string, T>, p: T -> bool)
    requires Enumerates(values, m)
    ensures (forall k :: 0 <= k < |values| ==> p(values[k])) <==> (forall key :: key in m ==> p(m[key]))
  {
    var keys :| Keyed(keys, values, m);
    if forall k :: 0 <= k < |values| ==> p(values[k]) {
      forall key | key in m ensures p(m[key]) {
        var k :| 0 <= k < |keys| && keys[k] == key;
        assert p(values[k]);
      }
    }
  }

  /** The tokens are all free of spaces exactly when what goes into them is. */
  lemma TokensAreFreeIff(vm: Settings, cds: seq<Cd>, drives: seq<Volumes.Device>)
    requires Enumerates(cds, vm.cdDrives) && Enumerates(drives, vm.hardDrives)
    ensures AllFree(FixedTokens(vm), ' ') && AllFree(NetTokens(vm.ethernet) + CdTokens(cds) + DriveTokens(drives), ' ')
            <==> SpaceFree(vm)
  {
    FixedTokensAreFree(vm);
    NetTokensAreFree(vm.ethernet);
    CdTokensAreFree(cds);
    EnumeratedAlike(cds, vm.cdDrives, (d: Cd) => ' ' !in d.path);
    DriveTokensAreFree(drives);
    EnumeratedAlike(drives, vm.hardDrives, (d: Volumes.Device) => ' ' !in d.path);
    AllFreeOfConcat(NetTokens(vm.ethernet), CdTokens(cds), ' ');
    AllFreeOfConcat(NetTokens(vm.ethernet) + CdTokens(cds), DriveTokens(drives), ' ');
  }

  function Words(extra: string): seq<string> {
    if extra == "" then [] else Split(extra, ' ')
  }

  lemma SplitAround(fixed: seq<string>, extra: string, net: seq<string>, cds: seq<string>, drives: seq<string>)
    requires fixed != [] && AllFree(fixed, ' ') && AllFree(net + cds + drives, ' ')
    ensures Split(Join(WithExtra(fixed, extra) + net + cds + drives, ' '), ' ') ==
            fixed + Words(extra) + (net + cds + drives)
  {
    var after := net + cds + drives;
    assert WithExtra(fixed, extra) + net + cds + drives == WithExtra(fixed, extra) + after;
    if extra == "" {
      assert fixed + [] + after == fixed + after;
      SplitOfFreeJoin(fixed + after, ' ');
    } else {
      ExtraArrivesAsWords(fixed, extra, after, ' ');
    }
  }

  // ---- What the kernel gets ----

  /** No part of the kernel's own arguments contains a space; what the user adds may. */
  predicate KernelSpaceFree(vm: Settings) {
    ' ' !in vm.name && ' ' !in vm.endpoint &&
        (vm.cloudConfig != "" && !vm.cloudConfigIsLocal ==> ' ' !in vm.cloudConfig)
  }

  lemma OneTokenIsFree(token: string)
    ensures AllFree([token], ' ') <==> ' ' !in token
  {
    assert [token][0] == token;
  }

  lemma ThreeTokensAreFree(a: string, b: string, c: string)
    ensures AllFree([a, b, c], ' ') <==> ' ' !in a && ' ' !in b && ' ' !in c
  {
    var all := [a, b, c];
    assert all[0] == a && all[1] == b && all[2] == c;
  }

  lemma CloudTokensAreFree(vm: Settings)
    ensures KernelSpaceFree(vm) ==> AllFree(CloudTokens(vm), ' ')
    ensures AllFree(CloudTokens(vm), ' ') && vm.cloudConfig != "" && !vm.cloudConfigIsLocal ==> ' ' !in vm.cloudConfig
  {
    if vm.cloudConfig != "" {
      var url := if vm.cloudConfigIsLocal then vm.endpoint + "/cloud-config" else vm.cloudConfig;
      OneTokenIsFree("cloud-config-url=" + url);
    }
  }

  lemma KeyedTokenIsFree(key: string, value: string)
    requires ' ' !in key
    ensures ' ' in key + value <==> ' ' in value
  {
  }

  lemma OwnTokensAreFree(vm: Settings)
    ensures AllFree(KernelOwnTokens() + RootTokens(vm), ' ')
  {
    AllFreeOfConcat(KernelOwnTokens(), RootTokens(vm), ' ');
  }

  lemma NamedTokensAreFree(name: string, endpoint: string)
    ensures AllFree(["corectl.hostname=" + name, "", "coreos.config.url=" + (endpoint + "/ignition")], ' ') <==>
            ' ' !in name && ' ' !in endpoint
  {
    KeyedTokenIsFree("corectl.hostname=", name);
    KeyedTokenIsFree("coreos.config.url=", endpoint + "/ignition");
    assert ' ' in endpoint + "/ignition" <==> ' ' in endpoint;
    ThreeTokensAreFree("corectl.hostname=" + name, "", "coreos.config.url=" + (endpoint + "/ignition"));
  }

  lemma KernelTokensAreFree(vm: Settings)
    ensures AllFree(KernelTokens(vm), ' ') <==> KernelSpaceFree(vm)
  {
    OwnTokensAreFree(vm);
    NamedTokensAreFree(vm.name, vm.endpoint);
    CloudTokensAreFree(vm);
    var front := KernelOwnTokens() + RootTokens(vm);
    var named := ["corectl.hostname=" + vm.name, "", "coreos.config.url=" + (vm.endpoint + "/ignition")];
    AllFreeOfConcat(front, named, ' ');
    AllFreeOfConcat(front + named, CloudTokens(vm), ' ');
  }

  /** Split at spaces, the kernel's command line is the kernel's arguments and then the user's words
      exactly when no part of the former contains a space. */
  lemma KernelGetsItsArgumentsIff(vm: Settings)
    ensures Split(CmdLine(vm), ' ') == KernelTokens(vm) + Words(vm.addToKernel) <==> KernelSpaceFree(vm)
  {
    var tokens := KernelTokens(vm);
    KernelTokensAreFree(vm);
    if KernelSpaceFree(vm) {
      SplitAround(tokens, vm.addToKernel, [], [], []);
      assert WithExtra(tokens, vm.addToKernel) + [] + [] + [] == WithExtra(tokens, vm.addToKernel);
      assert tokens + Words(vm.addToKernel) + ([] + [] + []) == tokens + Words(vm.addToKernel);
    }
    SplitIsFree(CmdLine(vm), ' ');
    AllFreeOfConcat(tokens, Words(vm.addToKernel), ' ');
  }

  lemma KeyedTokensDiffer(key: string, value: string, other: string, k: nat)
    requires k < |key| && k < |other| && key[k] != other[k]
    ensures key + value != other
  {
    assert (key + value)[k] == key[k];
  }

  /** The root label is among the arguments exactly if there is a persistent root, and a cloud
      configuration exactly if one is set. */
  lemma OptionalArgumentsIff(vm: Settings)
    ensures "root=LABEL=ROOT" in KernelTokens(vm) <==> vm.persistentRoot
    ensures (exists url :: "cloud-config-url=" + url in KernelTokens(vm)) <==> vm.cloudConfig != ""
  {
    var root, own := "root=LABEL=ROOT", KernelOwnTokens();
    var host, url := "corectl.hostname=" + vm.name, "coreos.config.url=" + (vm.endpoint + "/ignition");
    var tokens := KernelTokens(vm);
    assert tokens == own + RootTokens(vm) + [host, "", url] + CloudTokens(vm);
    assert root !in own && root != host && root != url && root != "" by {
      KeyedTokensDiffer("corectl.hostname=", vm.name, root, 0);
      KeyedTokensDiffer("coreos.config.url=", vm.endpoint + "/ignition", root, 0);
      assert own[0][0] == 'e' && own[1][0] == 'c' && own[2][0] == 'c' && own[3][0] == 'c' && root[0] == 'r';
    }
    if vm.cloudConfig != "" {
      assert CloudTokens(vm)[0] in tokens;
      KeyedTokensDiffer("cloud-config-url=", CloudTokens(vm)[0][17..], root, 0);
    }
    forall u ensures vm.cloudConfig == "" ==> "cloud-config-url=" + u !in tokens {
      CloudIsNoOther(vm, u);
    }
  }

  lemma CloudIsNoOther(vm: Settings, u: string)
    ensures var token := "cloud-config-url=" + u;
      token !in KernelOwnTokens() + RootTokens(vm)
               + ["corectl.hostname=" + vm.name, "", "coreos.config.url=" + (vm.endpoint + "/ignition")]
  {
    var token := "cloud-config-url=" + u;
    assert token[1] == 'l' && |token| > 1;
    var own := KernelOwnTokens();
    assert own[0][1] == 'a' && own[1][1] == 'o' && own[2][1] == 'o' && own[3][1] == 'o' && "root=LABEL=ROOT"[1] == 'o';
    assert ("corectl.hostname=" + vm.name)[1] == 'o';
    assert ("coreos.config.url=" + (vm.endpoint + "/ignition"))[1] == 'o';
  }

  lemma FourFields(a: string, b: string, c: string, line: string)
    requires ',' !in a
    ensures Split(a + [','] + b + [','] + c + [','] + line, ',') ==
            [a] + Split(b, ',') + Split(c, ',') + Split(line, ',')
  {
    SplitWithout(a, ',');
    SplitOfConcat(a, ',', b);
    SplitOfConcat(a + [','] + b, ',', c);
    SplitOfConcat(a + [','] + b + [','] + c, ',', line);
  }

  lemma SuffixIsFree(a: string, suffix: string, c: char)
    requires c !in suffix
    ensures c in a + suffix <==> c in a
  {
  }

  lemma ImageDirIsFree(vm: Settings)
    ensures ',' in ImageDir(vm) <==> ',' in vm.imageStore || ',' in vm.channel || ',' in vm.version
  {
  }

  /** The value of `-f`, taken apart at its commas: `kexec`, the kernel, the ram disk, and what remains is
      the command line, exactly if the image's path has no comma. */
  lemma KexecFieldsIff(vm: Settings, line: string)
    ensures (Split(Kexec(vm) + line, ',') == ["kexec", Vmlinuz(vm), Initrd(vm)] + Split(line, ',')) <==>
            ',' !in vm.imageStore && ',' !in vm.channel && ',' !in vm.version
  {
    var kexec, kernel, disk := "kexec", Vmlinuz(vm), Initrd(vm);
    assert kexec + [','] == "kexec,";
    assert Kexec(vm) + line == kexec + [','] + kernel + [','] + disk + [','] + line;
    FourFields(kexec, kernel, disk, line);
    SuffixIsFree(ImageDir(vm), ".vmlinuz", ',');
    SuffixIsFree(ImageDir(vm), "_image.cpio.gz", ',');
    ImageDirIsFree(vm);
    if ',' in ImageDir(vm) {
      SplitIsFree(Kexec(vm) + line, ',');
      assert ([kexec, kernel, disk] + Split(line, ','))[1] == kernel;
    } else {
      SplitWithout(kernel, ',');
      SplitWithout(disk, ',');
      assert [kexec] + [kernel] + [disk] == [kexec, kernel, disk];
    }
  }

  // ---- What the runner's process gets ----

  /** The runner gets the tokens in order, the extra hypervisor arguments as separate words in their
      place, exactly when none of the paths, names and identifiers in the other tokens has a space. */
  lemma RunnerGetsTheTokensIff(vm: Settings, cds: seq<Cd>, drives: seq<Volumes.Device>)
    requires Enumerates(cds, vm.cdDrives) && Enumerates(drives, vm.hardDrives)
    ensures Split(Join(Instr(vm, cds, drives), ' '), ' ') ==
              FixedTokens(vm) + Words(vm.addToHypervisor) +
                  (NetTokens(vm.ethernet) + CdTokens(cds) + DriveTokens(drives))
            <==> SpaceFree(vm)
  {
    TokensAreFreeIff(vm, cds, drives);
    var fixed, net, cd, drive := FixedTokens(vm), NetTokens(vm.ethernet), CdTokens(cds), DriveTokens(drives);
    if SpaceFree(vm) {
      SplitAround(fixed, vm.addToHypervisor, net, cd, drive);
    }
    SplitIsFree(Join(Instr(vm, cds, drives), ' '), ' ');
    AllFreeOfConcat(fixed + Words(vm.addToHypervisor), net + cd + drive, ' ');
    AllFreeOfConcat(fixed, Words(vm.addToHypervisor), ' ');
  }

  lemma SameFront<T>(a: seq<T>, b: seq<T>, tail: seq<T>)
    ensures a + tail == b + tail <==> a == b
  {
    if a + tail == b + tail {
      assert |a| == |b|;
      assert (a + tail)[..|a|] == a && (b + tail)[..|b|] == b;
    }
  }

  /** The command line of the runner process, as Run puts it together. */
  method RunnerArguments(vm: Settings)
    returns (payload: seq<string>, ghost instr: seq<string>, ghost cds: seq<Cd>, ghost drives: seq<Volumes.Device>)
    ensures IsInstr(vm, instr, cds, drives)
    ensures payload == Split(Join(instr, ' '), ' ') + ["-f", Kexec(vm) + CmdLine(vm)]
    ensures payload ==
              FixedTokens(vm) + Words(vm.addToHypervisor) +
                  (NetTokens(vm.ethernet) + CdTokens(cds) + DriveTokens(drives))
              + ["-f", Kexec(vm) + CmdLine(vm)]
            <==> SpaceFree(vm)
  {
    var tokens, bootArgs;
    tokens, bootArgs, cds, drives := AssembleBootPayload(vm);
    payload, instr := Split(bootArgs[0], ' ') + ["-f", bootArgs[1] + bootArgs[2]], tokens;
    RunnerGetsTheTokensIff(vm, cds, drives);
    SameFront(Split(bootArgs[0], ' '),
              FixedTokens(vm) + Words(vm.addToHypervisor) +
                  (NetTokens(vm.ethernet) + CdTokens(cds) + DriveTokens(drives)),
              ["-f", bootArgs[1] + bootArgs[2]]);
  }

  // ---- Drives ----

  lemma BeginsWithSlot(slot: nat, rest: string, tail: string)
    requires rest == [','] + tail
    ensures SemVer.Before("4:" + Itoa(slot) + rest, ',') == "4:" + Itoa(slot)
  {
    ItoaWithout(slot, ',');
    SemVer.CutOfConcat("4:" + Itoa(slot), ',', tail);
    assert "4:" + Itoa(slot) + rest == "4:" + Itoa(slot) + [','] + tail;
  }

  lemma DriveTokenBeginsWithSlot(d: Volumes.Device)
    ensures SemVer.Before(DriveToken(d), ',') == "4:" + Itoa(d.slot)
  {
    var front := "4:" + Itoa(d.slot);
    if d.format == Volumes.Raw {
      var blk := ",virtio-blk,";
      Regrouped(front, blk, d.path);
      BeginsWithSlot(d.slot, blk + d.path, (blk + d.path)[1..]);
    } else {
      var blk, qcow := ",virtio-blk,file://", ",format=qcow";
      Regrouped(front, blk, d.path);
      Regrouped(front, blk + d.path, qcow);
      BeginsWithSlot(d.slot, blk + d.path + qcow, (blk + d.path + qcow)[1..]);
    }
  }

  lemma DriveTokensDiffer(a: Volumes.Device, b: Volumes.Device)
    requires a.slot != b.slot
    ensures DriveToken(a) != DriveToken(b)
  {
    DriveTokenBeginsWithSlot(a);
    DriveTokenBeginsWithSlot(b);
    if DriveToken(a) == DriveToken(b) {
      assert ("4:" + Itoa(a.slot))[2..] == Itoa(a.slot) && ("4:" + Itoa(b.slot))[2..] == Itoa(b.slot);
      ItoaIsInjective(a.slot, b.slot);
    }
  }

  lemma {:induction false} DriveTokensLength(drives: seq<Volumes.Device>)
    ensures |DriveTokens(drives)| == 2 * |drives|
  {
    if drives != [] { DriveTokensLength(drives[1..]); }
  }

  lemma BehindTwo(x: string, y: string, rest: seq<string>, m: nat)
    requires m + 1 < |rest|
    ensures var all := [x, y] + rest; all[m + 2] == rest[m] && all[m + 3] == rest[m + 1]
  {
  }

  lemma {:induction false} DriveTokensAt(drives: seq<Volumes.Device>, k: nat)
    requires k < |drives|
    ensures |DriveTokens(drives)| == 2 * |drives|
    ensures DriveTokens(drives)[2 * k] == "-s" && DriveTokens(drives)[2 * k + 1] == DriveToken(drives[k])
  {
    DriveTokensLength(drives);
    if k > 0 {
      DriveTokensAt(drives[1..], k - 1);
      BehindTwo("-s", DriveToken(drives[0]), DriveTokens(drives[1..]), 2 * (k - 1));
    }
  }

  lemma PlaceAmong(keys: seq<string>, key: string) returns (k: nat)
    requires Distinct(keys) && key in keys
    ensures k < |keys| && keys[k] == key && forall j :: 0 <= j < |keys| && j != k ==> keys[j] != key
  {
    k :| 0 <= k < |keys| && keys[k] == key;
  }

  lemma PlaceOf<T>(values: seq<T>, m: map<string, T>, key: string) returns (keys: seq<string>, k: nat)
    requires Enumerates(values, m) && key in m
    ensures k < |keys| == |values| && keys[k] == key
    ensures forall j :: 0 <= j < |keys| ==> keys[j] in m && values[j] == m[keys[j]] && (j != k ==> keys[j] != key)
  {
    keys :| Keyed(keys, values, m);
    k := PlaceAmong(keys, key);
  }

  lemma PositionOf(granted: seq<Volumes.Device>, order: seq<Volumes.Device>, slot: nat) returns (k: nat)
    requires Enumerates(order, Volumes.AsMap(granted)) && slot < |granted|
    requires forall k :: 0 <= k < |granted| ==> granted[k].slot == k
    ensures k < |order| && order[k] == granted[slot]
    ensures forall j :: 0 <= j < |order| && j != k ==> order[j].slot != slot
  {
    var m, key := Volumes.AsMap(granted), Itoa(slot);
    Volumes.AsMapAt(granted, slot);
    var keys;
    keys, k := PlaceOf(order, m, key);
    forall j | 0 <= j < |order| && j != k ensures order[j].slot != slot {
      var s := Volumes.AsMapKey(granted, keys[j]);
    }
  }

  /** Whatever the map's order, the drives a boot was granted appear once each, under their own slots. */
  lemma EachDriveOnce(granted: seq<Volumes.Device>, order: seq<Volumes.Device>, slot: nat) returns (k: nat)
    requires Enumerates(order, Volumes.AsMap(granted)) && slot < |granted|
    requires forall k :: 0 <= k < |granted| ==> granted[k].slot == k
    ensures k < |order| && order[k] == granted[slot]
    ensures 2 * k + 1 < |DriveTokens(order)| && DriveTokens(order)[2 * k + 1] == DriveToken(granted[slot])
    ensures forall j :: 0 <= j < |order| && j != k ==> DriveToken(order[j]) != DriveToken(granted[slot])
  {
    k := PositionOf(granted, order, slot);
    DriveTokensAt(order, k);
    forall j | 0 <= j < |order| && j != k ensures DriveToken(order[j]) != DriveToken(granted[slot]) {
      DriveTokensDiffer(order[j], granted[slot]);
    }
  }
}
