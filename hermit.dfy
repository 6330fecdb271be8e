/** Starting a Hermit unikernel (src/hermit.rs): the environment directory and the
    command line of the QEMU process that runs the kernel with the application. */
module Hermit {
  import opened Wrappers
  import Text
  import opened PathBufs
  import opened Host
  import opened Bytes

  /** `get_environment_path`: the explicit path if there is one, else `hermit` in the
      project directory. */
  function EnvironmentPath(projectDir: Path, hermitEnvPath: Option<string>): Path
  {
    match hermitEnvPath
    case Some(s) => Parse(s)
    case None => Join(projectDir, Rel(["hermit"]))
  }

  /** `prepare_environment`: creating a missing environment does nothing yet. */
  function PrepareEnvironment(projectDir: Path, hermitEnvPath: Option<string>, fs: Fs): Result<()>
  {
    var environmentPath := EnvironmentPath(projectDir, hermitEnvPath);
    if !Exists(fs, environmentPath) then Ok(())
    else if !IsDir(fs, environmentPath) then Err(EnvironmentNotADirectory)
    else Ok(())
  }

  /** The environment is refused iff something is there that is not a directory;
      an explicit path is taken as given, and the default lies in the project. */
  lemma PrepareEnvironmentSpec(projectDir: Path, hermitEnvPath: Option<string>, fs: Fs)
    ensures var p := EnvironmentPath(projectDir, hermitEnvPath);
            PrepareEnvironment(projectDir, hermitEnvPath, fs).Err? <==> Exists(fs, p) && !IsDir(fs, p)
    ensures hermitEnvPath.None? && projectDir != [] ==>
              EnvironmentPath(projectDir, hermitEnvPath) == projectDir + [Normal("hermit")]
  {
  }

  /** An IPv4 address and its dotted-quad text (`Ipv4Addr` as `Display`). */
  datatype Ipv4 = Ipv4(a: byte, b: byte, c: byte, d: byte)

  function Dotted(x: Ipv4): string
  {
    Text.NatToString(x.a as nat) + "." + Text.NatToString(x.b as nat) + "." + Text.NatToString(x.c as nat) + "."
      + Text.NatToString(x.d as nat)
  }

  /** The network of the container as the unikernel is told it. */
  datatype NetConfig = NetConfig(ip: Ipv4, gateway: Ipv4, mask: Ipv4, mac: string)

  /** The fixed start of every command line. */
  function BaseArgs(kernel: string, app: string): (r: seq<string>)
  {
    ["qemu-system-x86_64", "-display", "none", "-smp", "1", "-m", "1G", "-serial", "stdio",
     "-kernel", kernel, "-initrd", app]
  }

  const KvmArgs: seq<string> := ["--enable-kvm", "-cpu", "host"]
  const EmulatedCpuArgs: seq<string> := ["-cpu", "qemu64,apic,fsgsbase,rdtscp,xsave,xsaveopt,fxsr,rdrand"]
  const MicroVmArgs: seq<string> :=
    ["-M", "microvm,x-option-roms=off,pit=off,pic=off,rtc=on,auto-kernel-cmdline=off",
     "-global", "virtio-mmio.force-legacy=off", "-nodefaults", "-no-user-config",
     "-device", "isa-debug-exit,iobase=0xf4,iosize=0x04"]

  const TapPrefix: string := "tap,id=net0,fd="

  /** The network device QEMU is given: a virtio device of the microvm or PCI kind. */
  function NetDevice(net: NetConfig, microVm: bool): string
  {
    if microVm then "virtio-net-device,netdev=net0,mac=" + net.mac
    else "virtio-net-pci,netdev=net0,disable-legacy=on,mac=" + net.mac
  }

  /** The CPU: the host's under KVM, an emulated one otherwise. */
  function CpuArgs(kvm: bool): (r: seq<string>)
    ensures |r| == if kvm then 3 else 2
  {
    if kvm then KvmArgs else EmulatedCpuArgs
  }

  function VmArgs(microVm: bool): (r: seq<string>)
    ensures |r| == if microVm then 8 else 0
  {
    if microVm then MicroVmArgs else []
  }

  /** The tap device with its descriptor, and the network device on it. */
  function NetArgs(netconf: Option<NetConfig>, tapFd: int, microVm: bool): (r: seq<string>)
    ensures |r| == if netconf.Some? then 4 else 0
  {
    if netconf.Some? then ["-netdev", TapPrefix + Text.IntToString(tapFd), "-device", NetDevice(netconf.value, microVm)]
    else []
  }

  /** The network part of the kernel's arguments. */
  function NetText(netconf: Option<NetConfig>): string
  {
    if netconf.Some? then
      "-ip " + Dotted(netconf.value.ip) + " -gateway " + Dotted(netconf.value.gateway)
      + " -mask " + Dotted(netconf.value.mask)
    else ""
  }

  /** The kernel's own arguments: the network part, and when there are application
      arguments the frequency, that part, and the arguments after the program name. */
  function AppendText(netconf: Option<NetConfig>, appArgs: seq<string>): string
  {
    if |appArgs| >= 1 then "-freq 1197 " + NetText(netconf) + " -- " + Text.Join(appArgs[1..], " ")
    else NetText(netconf)
  }

  /** The command line `get_qemu_args` builds, or the abort for a network without a
      tap descriptor. */
  function QemuArgs(kernel: string, app: string, netconf: Option<NetConfig>, appArgs: seq<string>,
                    microVm: bool, kvm: bool, tapFd: Option<int>): Result<seq<string>>
  {
    if netconf.Some? && tapFd.None? then Err(MissingTapFd)
    else
      var fd := if tapFd.Some? then tapFd.value else 0;
      Ok(BaseArgs(kernel, app) + CpuArgs(kvm) + VmArgs(microVm) + NetArgs(netconf, fd, microVm)
         + ["-append", AppendText(netconf, appArgs)])
  }

  /** `get_qemu_args`. */
  method GetQemuArgs(kernel: string, app: string, netconf: Option<NetConfig>, appArgs: seq<string>,
                     microVm: bool, kvm: bool, tapFd: Option<int>) returns (r: Result<seq<string>>)
    ensures r == QemuArgs(kernel, app, netconf, appArgs, microVm, kvm, tapFd)
  {
    var execArgs := BaseArgs(kernel, app);
    if kvm {
      execArgs := execArgs + KvmArgs;
    } else {
      execArgs := execArgs + EmulatedCpuArgs;
    }
    if microVm {
      execArgs := execArgs + MicroVmArgs;
    }
    ghost var front := execArgs;
    assert front == BaseArgs(kernel, app) + CpuArgs(kvm) + VmArgs(microVm);
    if netconf.Some? {
      if tapFd.None? {
        return Err(MissingTapFd);
      }
      execArgs := execArgs + ["-netdev"];
      execArgs := execArgs + [TapPrefix + Text.IntToString(tapFd.value)];
      execArgs := execArgs + ["-device"];
      execArgs := execArgs + [NetDevice(netconf.value, microVm)];
    }
    ghost var netArgs := NetArgs(netconf, if tapFd.Some? then tapFd.value else 0, microVm);
    assert execArgs == front + netArgs;
    execArgs := execArgs + ["-append"];
    var argsString := "";
    if netconf.Some? {
      argsString := "-ip " + Dotted(netconf.value.ip) + " -gateway " + Dotted(netconf.value.gateway)
                    + " -mask " + Dotted(netconf.value.mask);
    }
    assert argsString == NetText(netconf);
    if |appArgs| >= 1 {
      argsString := "-freq 1197 " + argsString + " -- " + Text.Join(appArgs[1..], " ");
    }
    assert argsString == AppendText(netconf, appArgs);
    execArgs := execArgs + [argsString];
    assert execArgs == front + netArgs + ["-append", argsString];
    return Ok(execArgs);
  }

  /** The five parts of a command line, each found where it was put. */
  lemma ArgsPieces(a: seq<string>, b: seq<string>, c: seq<string>, d: seq<string>, e: seq<string>)
    ensures var w := a + b + c + d + e;
            && |w| == |a| + |b| + |c| + |d| + |e|
            && w[..|a|] == a
            && w[|a|..|a| + |b|] == b
            && w[|a| + |b|..|a| + |b| + |c|] == c
            && w[|a| + |b| + |c|..|a| + |b| + |c| + |d|] == d
            && w[|w| - |e|..] == e
  {
    var w := a + b + c + d + e;
    assert w == a + (b + (c + (d + e)));
    assert w[..|a|] == a;
    assert w[|a|..] == b + (c + (d + e));
    assert w[|a| + |b|..] == c + (d + e);
    assert w[|a| + |b| + |c|..] == d + e;
  }

  /** The command line is refused exactly when a network has no tap descriptor. */
  lemma QemuArgsAborts(kernel: string, app: string, netconf: Option<NetConfig>, appArgs: seq<string>,
                       microVm: bool, kvm: bool, tapFd: Option<int>)
    ensures QemuArgs(kernel, app, netconf, appArgs, microVm, kvm, tapFd).Err? <==> netconf.Some? && tapFd.None?
    ensures QemuArgs(kernel, app, netconf, appArgs, microVm, kvm, tapFd).Err? ==>
              QemuArgs(kernel, app, netconf, appArgs, microVm, kvm, tapFd).error == MissingTapFd
  {
  }

  /** The fixed part, the CPU choice and the microvm arguments open the command line. */
  lemma QemuArgsFront(kernel: string, app: string, netconf: Option<NetConfig>, appArgs: seq<string>,
                      microVm: bool, kvm: bool, tapFd: Option<int>)
    requires !(netconf.Some? && tapFd.None?)
    ensures var r := QemuArgs(kernel, app, netconf, appArgs, microVm, kvm, tapFd).value;
            var cpu := if kvm then 3 else 2;
            var micro := if microVm then 8 else 0;
            && |r| >= 13 + cpu + micro
            && r[0] == "qemu-system-x86_64" && r[10] == kernel && r[12] == app
            && r[13..13 + cpu] == CpuArgs(kvm)
            && r[13 + cpu..13 + cpu + micro] == VmArgs(microVm)
  {
    var w := QemuArgs(kernel, app, netconf, appArgs, microVm, kvm, tapFd).value;
    var base := BaseArgs(kernel, app);
    var net := NetArgs(netconf, if tapFd.Some? then tapFd.value else 0, microVm);
    var tail := ["-append", AppendText(netconf, appArgs)];
    assert w == base + CpuArgs(kvm) + VmArgs(microVm) + net + tail;
    ArgsPieces(base, CpuArgs(kvm), VmArgs(microVm), net, tail);
    assert w[0] == w[..13][0] && w[10] == w[..13][10] && w[12] == w[..13][12];
  }

  /** The network arguments come only with a network, and `-append` with the
      kernel's text closes the command line. */
  lemma QemuArgsBack(kernel: string, app: string, netconf: Option<NetConfig>, appArgs: seq<string>,
                     microVm: bool, kvm: bool, tapFd: Option<int>)
    requires !(netconf.Some? && tapFd.None?)
    ensures var r := QemuArgs(kernel, app, netconf, appArgs, microVm, kvm, tapFd).value;
            && |r| == 13 + (if kvm then 3 else 2) + (if microVm then 8 else 0) + (if netconf.Some? then 4 else 0) + 2
            && r[|r| - 2] == "-append"
            && r[|r| - 1] == AppendText(netconf, appArgs)
  {
    var w := QemuArgs(kernel, app, netconf, appArgs, microVm, kvm, tapFd).value;
    var front := BaseArgs(kernel, app) + CpuArgs(kvm) + VmArgs(microVm);
    var net := NetArgs(netconf, if tapFd.Some? then tapFd.value else 0, microVm);
    var tail := ["-append", AppendText(netconf, appArgs)];
    assert w == front + net + tail;
    assert w[|w| - 2] == tail[0] && w[|w| - 1] == tail[1];
  }

  /** Where everything sits on the command line: the kernel at index 10, the
      application at 12, the CPU choice right after the fixed part, the microvm and
      network arguments only when asked for, and `-append` with its text at the end. */
  lemma QemuArgsLayout(kernel: string, app: string, netconf: Option<NetConfig>, appArgs: seq<string>,
                       microVm: bool, kvm: bool, tapFd: Option<int>)
    ensures QemuArgs(kernel, app, netconf, appArgs, microVm, kvm, tapFd).Err? <==> netconf.Some? && tapFd.None?
    ensures var r := QemuArgs(kernel, app, netconf, appArgs, microVm, kvm, tapFd);
            var cpu := if kvm then 3 else 2;
            var micro := if microVm then 8 else 0;
            var net := if netconf.Some? then 4 else 0;
            r.Ok? ==>
              && |r.value| == 13 + cpu + micro + net + 2
              && r.value[0] == "qemu-system-x86_64" && r.value[10] == kernel && r.value[12] == app
              && r.value[13..13 + cpu] == CpuArgs(kvm)
              && r.value[13 + cpu..13 + cpu + micro] == VmArgs(microVm)
              && r.value[|r.value| - 2] == "-append"
              && r.value[|r.value| - 1] == AppendText(netconf, appArgs)
  {
    QemuArgsAborts(kernel, app, netconf, appArgs, microVm, kvm, tapFd);
    if !(netconf.Some? && tapFd.None?) {
      QemuArgsFront(kernel, app, netconf, appArgs, microVm, kvm, tapFd);
      QemuArgsBack(kernel, app, netconf, appArgs, microVm, kvm, tapFd);
    }
  }

  /** The tap argument reads back as the descriptor it was built from. */
  lemma TapArgReadsBack(fd: int)
    requires Text.InI32(fd)
    ensures var arg := TapPrefix + Text.IntToString(fd);
            && arg[..|TapPrefix|] == TapPrefix
            && Text.ParseI32(arg[|TapPrefix|..]) == Some(fd)
  {
    Text.ParseFormatted(fd);
    var arg := TapPrefix + Text.IntToString(fd);
    assert arg[|TapPrefix|..] == Text.IntToString(fd);
  }

  /** Wherever the network arguments are put, the tap descriptor is the second. */
  lemma NetSlot(front: seq<string>, net: NetConfig, fd: int, microVm: bool, tail: seq<string>)
    requires Text.InI32(fd)
    ensures var r := front + NetArgs(Some(net), fd, microVm) + tail;
            var k := |front|;
            && |r| >= k + 4
            && r[k] == "-netdev" && r[k + 2] == "-device" && r[k + 3] == NetDevice(net, microVm)
            && |r[k + 1]| >= |TapPrefix| && r[k + 1][..|TapPrefix|] == TapPrefix
            && Text.ParseI32(r[k + 1][|TapPrefix|..]) == Some(fd)
  {
    var netArgs := NetArgs(Some(net), fd, microVm);
    var r := front + netArgs + tail;
    var k := |front|;
    assert r[k] == netArgs[0] && r[k + 1] == netArgs[1] && r[k + 2] == netArgs[2] && r[k + 3] == netArgs[3];
    TapArgReadsBack(fd);
  }

  /** With a network, the `-netdev` argument passes the tap descriptor, which reads
      back as the same number, and the device follows. */
  lemma NetdevCarriesFd(kernel: string, app: string, net: NetConfig, appArgs: seq<string>,
                        microVm: bool, kvm: bool, fd: int)
    requires Text.InI32(fd)
    ensures var r := QemuArgs(kernel, app, Some(net), appArgs, microVm, kvm, Some(fd));
            var k := 13 + (if kvm then 3 else 2) + (if microVm then 8 else 0);
            && r.Ok? && |r.value| >= k + 4
            && r.value[k] == "-netdev" && r.value[k + 2] == "-device" && r.value[k + 3] == NetDevice(net, microVm)
            && |r.value[k + 1]| >= |TapPrefix| && r.value[k + 1][..|TapPrefix|] == TapPrefix
            && Text.ParseI32(r.value[k + 1][|TapPrefix|..]) == Some(fd)
  {
    var front := BaseArgs(kernel, app) + CpuArgs(kvm) + VmArgs(microVm);
    var tail := ["-append", AppendText(Some(net), appArgs)];
    assert QemuArgs(kernel, app, Some(net), appArgs, microVm, kvm, Some(fd)).value == front + NetArgs(Some(net), fd, microVm) + tail;
    NetSlot(front, net, fd, microVm, tail);
  }

  /** The application arguments after the program name are what follows ` -- ` at the
      end of the kernel's arguments, and splitting that at spaces gives them back
      when none of them holds a space. */
  lemma AppendCarriesArgs(netconf: Option<NetConfig>, appArgs: seq<string>)
    requires |appArgs| >= 2
    requires forall i :: 1 <= i < |appArgs| ==> ' ' !in appArgs[i]
    ensures var text := AppendText(netconf, appArgs);
            var tail := Text.Join(appArgs[1..], " ");
            && text[..11] == "-freq 1197 "
            && |text| >= |tail| + 4 && text[|text| - |tail| - 4..|text| - |tail|] == " -- "
            && Text.Split(text[|text| - |tail|..], ' ') == appArgs[1..]
  {
    var text := AppendText(netconf, appArgs);
    var tail := Text.Join(appArgs[1..], " ");
    var rest := appArgs[1..];
    forall i | 0 <= i < |rest| ensures ' ' !in rest[i]
    {
      assert rest[i] == appArgs[i + 1];
    }
    Text.SplitJoin(rest, ' ');
    assert text[|text| - |tail|..] == tail;
  }

  /** Without application arguments, the kernel is given only the network part. */
  lemma AppendWithoutArgs(netconf: Option<NetConfig>)
    ensures AppendText(netconf, []) == "" <==> netconf.None?
  {
    if netconf.Some? {
      assert AppendText(netconf, [])[..4] == "-ip ";
    }
  }
}
