/** `runh kill` (src/kill.rs): which signal is sent to which process, decided by the
    container's status. */
module Kill {
  import opened Wrappers
  import opened Text
  import opened Host
  import opened State

  /** The signal with number `n` on Linux (`nix::sys::signal::Signal`), by name. */
  function SignalName(n: int): Option<string>
  {
    match n
    case 1 => Some("SIGHUP")
    case 2 => Some("SIGINT")
    case 3 => Some("SIGQUIT")
    case 4 => Some("SIGILL")
    case 5 => Some("SIGTRAP")
    case 6 => Some("SIGABRT")
    case 7 => Some("SIGBUS")
    case 8 => Some("SIGFPE")
    case 9 => Some("SIGKILL")
    case 10 => Some("SIGUSR1")
    case 11 => Some("SIGSEGV")
    case 12 => Some("SIGUSR2")
    case 13 => Some("SIGPIPE")
    case 14 => Some("SIGALRM")
    case 15 => Some("SIGTERM")
    case 16 => Some("SIGSTKFLT")
    case 17 => Some("SIGCHLD")
    case 18 => Some("SIGCONT")
    case 19 => Some("SIGSTOP")
    case 20 => Some("SIGTSTP")
    case 21 => Some("SIGTTIN")
    case 22 => Some("SIGTTOU")
    case 23 => Some("SIGURG")
    case 24 => Some("SIGXCPU")
    case 25 => Some("SIGXFSZ")
    case 26 => Some("SIGVTALRM")
    case 27 => Some("SIGPROF")
    case 28 => Some("SIGWINCH")
    case 29 => Some("SIGIO")
    case 30 => Some("SIGPWR")
    case 31 => Some("SIGSYS")
    case _ => None
  }

  /** `Signal::from_str`: the number of a signal given by its full name. */
  function SignalNumber(name: string): Option<int>
  {
    match name
    case "SIGHUP" => Some(1)
    case "SIGINT" => Some(2)
    case "SIGQUIT" => Some(3)
    case "SIGILL" => Some(4)
    case "SIGTRAP" => Some(5)
    case "SIGABRT" => Some(6)
    case "SIGBUS" => Some(7)
    case "SIGFPE" => Some(8)
    case "SIGKILL" => Some(9)
    case "SIGUSR1" => Some(10)
    case "SIGSEGV" => Some(11)
    case "SIGUSR2" => Some(12)
    case "SIGPIPE" => Some(13)
    case "SIGALRM" => Some(14)
    case "SIGTERM" => Some(15)
    case "SIGSTKFLT" => Some(16)
    case "SIGCHLD" => Some(17)
    case "SIGCONT" => Some(18)
    case "SIGSTOP" => Some(19)
    case "SIGTSTP" => Some(20)
    case "SIGTTIN" => Some(21)
    case "SIGTTOU" => Some(22)
    case "SIGURG" => Some(23)
    case "SIGXCPU" => Some(24)
    case "SIGXFSZ" => Some(25)
    case "SIGVTALRM" => Some(26)
    case "SIGPROF" => Some(27)
    case "SIGWINCH" => Some(28)
    case "SIGIO" => Some(29)
    case "SIGPWR" => Some(30)
    case "SIGSYS" => Some(31)
    case _ => None
  }

  /** Names and numbers are two views of the same table of 31 signals. */
  lemma SignalTable(n: int, name: string)
    ensures SignalName(n).Some? <==> 1 <= n <= 31
    ensures SignalName(n) == Some(name) <==> SignalNumber(name) == Some(n)
  {
  }

  /** A signal name as given, with `SIG` put in front unless it is already there. */
  function WithSigPrefix(sig: string): (r: string)
  {
    if "SIG" <= sig then sig else "SIG" + sig
  }

  /** The prefix is there afterwards, the name is kept after it, and adding it twice
      changes nothing. */
  lemma WithSigPrefixSpec(sig: string)
    ensures "SIG" <= WithSigPrefix(sig)
    ensures WithSigPrefix(sig) == sig || WithSigPrefix(sig) == "SIG" + sig
    ensures WithSigPrefix(WithSigPrefix(sig)) == WithSigPrefix(sig)
    ensures WithSigPrefix("SIG" + sig) == "SIG" + sig
  {
  }

  /** The signal `sig` names: a number when it parses as an i32, else a name. */
  function ResolveSignal(sig: string): Result<int>
  {
    match ParseI32(sig)
    case Some(n) => if SignalName(n).Some? then Ok(n) else Err(UnknownSignalNumber(n))
    case None =>
      match SignalNumber(WithSigPrefix(sig))
      case Some(n) => Ok(n)
      case None => Err(UnknownSignalName(sig))
  }

  /** Every signal name is `SIG` followed by a short name that does not itself
      start with `SIG`. */
  lemma SignalNameShape(n: int)
    requires 1 <= n <= 31
    ensures |SignalName(n).value| > 3 && SignalName(n).value[..3] == "SIG"
    ensures !("SIG" <= SignalName(n).value[3..])
  {
  }

  /** Every signal can be named by its number. */
  lemma NumberResolves(n: int)
    requires 1 <= n <= 31
    ensures ResolveSignal(IntToString(n)) == Ok(n)
  {
    ParseFormatted(n);
  }

  /** Every signal can be named by its full name. */
  lemma FullNameResolves(n: int)
    requires 1 <= n <= 31
    ensures ResolveSignal(SignalName(n).value) == Ok(n)
  {
    var name := SignalName(n).value;
    SignalNameShape(n);
    SignalTable(n, name);
    assert !IsDigit(name[0]);
    assert ParseI32(name).None?;
    assert WithSigPrefix(name) == name;
  }

  /** A short name (the full name without `SIG`) names the same signal, unless it
      reads as a number. */
  lemma ShortNameResolves(n: int)
    requires 1 <= n <= 31
    requires ParseI32(SignalName(n).value[3..]).None?
    ensures ResolveSignal(SignalName(n).value[3..]) == Ok(n)
  {
    var name := SignalName(n).value;
    SignalNameShape(n);
    SignalTable(n, name);
    assert "SIG" + name[3..] == name;
    assert WithSigPrefix(name[3..]) == name;
  }

  /** `kill_container`: the signal sent, if any (a failure to send only warns). */
  function KillContainer(o: Observed, version: string, id: string, sig: string, all: bool): Result<seq<Effect>>
  {
    var found :- GetContainerState(o, version, id);
    if found.None? then Ok([])
    else
      var st := found.value;
      if st.status == Status.Stopped then Ok([])
      else if all then Ok([])
      else if st.status != Created && st.status != Status.Running then Ok([])
      else if st.pid.None? then Err(MissingPid)
      else
        var signal :- ResolveSignal(sig);
        Ok([SendSignal(st.pid.value, signal)])
  }

  /** A signal is sent iff the container is created or running, `all` is not set and
      the signal resolves; it goes to the recorded pid. Nothing is sent otherwise. */
  lemma KillSends(o: Observed, version: string, id: string, sig: string, all: bool)
    requires KillContainer(o, version, id, sig, all).Ok?
    ensures var effects := KillContainer(o, version, id, sig, all).value;
            var found := GetContainerState(o, version, id).value;
            && |effects| <= 1
            && (effects != [] <==> found.Some? && found.value.status in {Created, Status.Running} && !all)
            && (effects != [] ==> effects == [SendSignal(found.value.pid.value, ResolveSignal(sig).value)])
  {
  }

  /** The recorded pid is always there when it is needed: `kill` never aborts for
      lack of one. */
  lemma KillNeverMissesPid(o: Observed, version: string, id: string, sig: string, all: bool)
    ensures KillContainer(o, version, id, sig, all) != Err(MissingPid)
  {
    var found := GetContainerState(o, version, id);
    if found.Ok? && found.value.Some? && found.value.value.status in {Created, Status.Running} {
      ActiveHasPid(o, version, id);
    }
  }

  /** A stopped, absent or still-creating container, or `all`, is never signalled and
      never makes `kill` abort once its state is known. */
  lemma KillQuiet(o: Observed, version: string, id: string, sig: string, all: bool)
    requires GetContainerState(o, version, id).Ok?
    requires var found := GetContainerState(o, version, id).value;
             found.None? || found.value.status in {Status.Stopped, Creating} || all
    ensures KillContainer(o, version, id, sig, all) == Ok([])
  {
  }
}
