/**
 * Ports, configuration, restart and cluster switch of the desktop sidecar, for one caller at a
 * time (the interleavings are in `Supervisor`). What the operating system and the backend
 * answer is chosen freely at every question.
 */
module Sidecar {
  import opened Numbers
  import opened Strings
  import opened Wrappers

  type Port = n: nat | n < 0x10000

  const DEFAULT_PORT: Port := 15222
  const PORT_SCAN_LIMIT: nat := 200

  // ── Port scan ────────────────────────────────────────────────────────────

  /** The ports that a scan from `preferred` looks at. */
  predicate InWindow(preferred: Port, p: Port) {
    || preferred <= p <= preferred + PORT_SCAN_LIMIT
    || (0 < p < preferred && preferred - p <= PORT_SCAN_LIMIT)
  }

  /** The order of preference: the port itself, then upwards, then downwards. */
  function Distance(preferred: Port, p: Port): nat {
    if p >= preferred then p - preferred else PORT_SCAN_LIMIT + (preferred - p)
  }

  /** `r` is the free port of the window that comes first, if there is one. */
  ghost predicate FirstFree(preferred: Port, free: Port -> bool, r: Option<Port>) {
    match r
    case None => forall p: Port :: InWindow(preferred, p) ==> !free(p)
    case Some(q) =>
      && InWindow(preferred, q) && free(q)
      && forall p: Port :: InWindow(preferred, p) && free(p) ==> Distance(preferred, q) <= Distance(preferred, p)
  }

  method FindAvailablePort(preferred: Port, free: Port -> bool) returns (r: Option<Port>)
    ensures FirstFree(preferred, free, r)
  {
    if free(preferred) {
      return Some(preferred);
    }
    for offset := 1 to PORT_SCAN_LIMIT + 1
      invariant forall p: Port :: preferred <= p < preferred + offset ==> !free(p)
    {
      if preferred + offset < 0x10000 {
        var candidate: Port := preferred + offset;
        if free(candidate) {
          return Some(candidate);
        }
      }
    }
    for offset := 1 to PORT_SCAN_LIMIT + 1
      invariant forall p: Port :: 0 < p < preferred && preferred - p < offset ==> !free(p)
    {
      if preferred - offset >= 0 {
        var candidate: Port := preferred - offset;
        if candidate > 0 && free(candidate) {
          return Some(candidate);
        }
      }
    }
    return None;
  }

  // ── Configuration ────────────────────────────────────────────────────────

  datatype SidecarConfig = SidecarConfig(
    backendBin: Option<string>,
    kubeconfigPath: Option<string>,
    kubeContext: Option<string>,
    port: Port)
  {
    predicate SameExceptPort(other: SidecarConfig) {
      this.(port := other.port) == other
    }
  }

  /** The environment variables that override a configuration; `None` when unset. */
  datatype Environment = Environment(
    packagedApp: bool,
    pertiskBackendBin: Option<string>,
    port: Option<string>,
    appPort: Option<string>,
    kubeconfig: Option<string>,
    kubeContext: Option<string>)

  /** `parse::<u16>()` */
  function ParsePort(s: string): Option<Port> {
    var digits := if s != "" && s[0] == '+' then s[1..] else s;
    if digits != "" && (forall c :: c in digits ==> IsDigit(c)) && NatValue(digits) < 0x10000 then
      Some(NatValue(digits)) else None
  }

  function Override(own: Option<string>, fromEnv: Option<string>): Option<string> {
    if fromEnv.Some? && Trim(fromEnv.value) != "" then fromEnv else own
  }

  function ValidatedConfig(cfg: SidecarConfig, env: Environment): SidecarConfig {
    var bin := Override(cfg.backendBin, env.pertiskBackendBin);
    var envPort := if env.port.Some? then env.port else env.appPort;
    var parsed := if envPort.Some? then ParsePort(envPort.value) else None;
    SidecarConfig(
      if env.packagedApp && env.pertiskBackendBin.None? then None else bin,
      Override(cfg.kubeconfigPath, env.kubeconfig),
      Override(cfg.kubeContext, env.kubeContext),
      if parsed.Some? && parsed.value > 0 then parsed.value else if cfg.port == 0 then DEFAULT_PORT else cfg.port)
  }

  // ── What validation does ─────────────────────────────────────────────────

  /** A variable that is set to something other than blanks wins over its own field. */
  ghost predicate Overrides(own: Option<string>, fromEnv: Option<string>, result: Option<string>) {
    if fromEnv.Some? && !Blank(fromEnv.value) then result == fromEnv else result == own
  }

  /** `PORT` if it is set, else `APP_PORT`, wins if it can be read and is not zero; 0 means the default port. */
  ghost predicate PortChosen(own: Port, port: Option<string>, appPort: Option<string>, result: Port) {
    var text := if port.Some? then port else appPort;
    if text.Some? && ParsePort(text.value).Some? && ParsePort(text.value) != Some(0) then
      ParsePort(text.value) == Some(result)
    else
      result == if own == 0 then 15222 else own
  }

  /** `config` is what was asked for, with what the environment says. */
  ghost predicate IsValidated(requested: SidecarConfig, env: Environment, config: SidecarConfig) {
    && IsValidatedExceptPort(requested, env, config)
    && PortChosen(requested.port, env.port, env.appPort, config.port)
  }

  ghost predicate IsValidatedExceptPort(requested: SidecarConfig, env: Environment, config: SidecarConfig) {
    && (if env.packagedApp && env.pertiskBackendBin.None? then config.backendBin == None
        else Overrides(requested.backendBin, env.pertiskBackendBin, config.backendBin))
    && Overrides(requested.kubeconfigPath, env.kubeconfig, config.kubeconfigPath)
    && Overrides(requested.kubeContext, env.kubeContext, config.kubeContext)
  }

  lemma OverrideIs(own: Option<string>, fromEnv: Option<string>)
    ensures Overrides(own, fromEnv, Override(own, fromEnv))
  {
    if fromEnv.Some? {
      TrimBlank(fromEnv.value);
    }
    hide Trim, Blank;
  }

  lemma ValidatedConfigIs(requested: SidecarConfig, env: Environment)
    ensures IsValidated(requested, env, ValidatedConfig(requested, env))
  {
    OverrideIs(requested.backendBin, env.pertiskBackendBin);
    OverrideIs(requested.kubeconfigPath, env.kubeconfig);
    OverrideIs(requested.kubeContext, env.kubeContext);
    hide Override, Overrides, ParsePort;
  }

  /** A printed port reads back, with or without a plus sign; larger numbers and signs of minus do not. */
  lemma ParsePortPrinted(n: nat)
    ensures ParsePort(PrintNat(n)) == if n <= 65535 then Some(n as Port) else None
    ensures ParsePort("+" + PrintNat(n)) == if n <= 65535 then Some(n as Port) else None
    ensures ParsePort("-" + PrintNat(n)) == None && ParsePort("") == None && ParsePort("+") == None
  {
    var digits := PrintNat(n);
    PrintNatValue(n);
    assert digits[0] in digits;
    assert ("+" + digits)[1..] == digits;
    assert ("-" + digits)[0] == '-' && '-' in "-" + digits && !IsDigit('-');
    hide NatValue, PrintNat;
  }

  datatype SwitchStatus = SwitchStatus(inProgress: bool, lastSuccess: Option<bool>, requestedContext: Option<string>)

  /** A sidecar process, by the ports it was told to listen on. */
  datatype Child = Child(port: Port, grpcPort: Port)

  /** The two ports that restarts alternate between when nobody else holds one. */
  predicate InPair(p: Port) {
    p == DEFAULT_PORT || p == DEFAULT_PORT + 1
  }

  datatype Operation = Restart | Switch(requested: SidecarConfig) | MonitorWakes

  class BackendState {
    var child: Option<Child>
    var config: SidecarConfig
    var savedConfig: SidecarConfig
    var switchStatus: SwitchStatus
    var restartInProgress: bool

    const env: Environment
    const grpcPreferred: Port
    /** Only the sidecar's own child ever holds a port. */
    const exclusive: bool

    constructor (config: SidecarConfig, env: Environment, grpcPreferred: Port, exclusive: bool)
      ensures this.config == this.savedConfig == config && child == None && !restartInProgress
      ensures this.env == env && this.grpcPreferred == grpcPreferred && this.exclusive == exclusive
    {
      this.child := None;
      this.config, this.savedConfig := config, config;
      this.switchStatus := SwitchStatus(false, None, None);
      this.restartInProgress := false;
      this.env, this.grpcPreferred, this.exclusive := env, grpcPreferred, exclusive;
    }

    /** What restarts keep when the sidecar has its ports to itself. */
    ghost predicate PairInv()
      reads this
    {
      exclusive && !InPair(grpcPreferred) ==>
        InPair(config.port) && (child.Some? ==> InPair(child.value.port) && !InPair(child.value.grpcPort))
    }

    /** The ports in use right now: any at all, unless only the own child (dead or alive) can hold them. */
    method HeldPorts() returns (held: set<Port>)
      ensures exclusive && child.None? ==> held == {}
      ensures exclusive && child.Some? ==> held <= {child.value.port, child.value.grpcPort}
    {
      if exclusive {
        var alive: bool := *;
        held := if child.Some? && alive then {child.value.port, child.value.grpcPort} else {};
      } else {
        held := *;
      }
    }

    /**
     * The default port when it is free, else the free port nearest to the configured one.
     * `held` are the ports found in use.
     */
    method EnsureSidecarPortAvailable(cfg: SidecarConfig)
      returns (ok: bool, moved: bool, next: SidecarConfig, ghost held: set<Port>)
      ensures next.SameExceptPort(cfg) && (moved <==> next != cfg)
      ensures DEFAULT_PORT !in held ==> ok && next.port == DEFAULT_PORT
      ensures DEFAULT_PORT in held ==> FirstFree(cfg.port, p => p !in held, if ok then Some(next.port) else None)
      ensures PairInv() && exclusive && !InPair(grpcPreferred) && InPair(cfg.port) ==> ok && InPair(next.port)
    {
      var inUse := HeldPorts();
      held := inUse;
      next := cfg;
      if cfg.port != DEFAULT_PORT && DEFAULT_PORT !in inUse {
        ok, moved, next := true, true, cfg.(port := DEFAULT_PORT);
      } else if cfg.port !in inUse {
        ok, moved := true, false;
      } else {
        var found := FindAvailablePort(cfg.port, p => p !in inUse);
        ok, moved := found.Some?, found.Some?;
        if found.Some? {
          next := cfg.(port := found.value);
        }
        assert cfg.port == DEFAULT_PORT ==> InWindow(cfg.port, DEFAULT_PORT + 1);
      }
    }

    method WaitForPortBindable(port: Port) returns (bindable: bool)
      ensures exclusive && child.None? ==> bindable
    {
      var polls: int :| polls >= 0;
      bindable := false;
      for i := 0 to polls + 1
        invariant exclusive && child.None? && i > 0 ==> bindable
      {
        var held := HeldPorts();
        if port !in held {
          return true;
        }
      }
    }

    /** Starts the first candidate binary that does not exit at once; `None` when there is none. */
    method SpawnBackend(cfg: SidecarConfig, candidates: nat) returns (r: Option<Child>)
      ensures r.Some? ==> r.value.port == cfg.port
      ensures exclusive && child.None? && r.Some? ==> r.value.grpcPort == grpcPreferred
    {
      var held := HeldPorts();
      if cfg.port in held {
        return None;
      }
      held := HeldPorts();
      var grpc := FindAvailablePort(grpcPreferred, p => p !in held);
      if grpc.None? {
        return None;
      }
      assert exclusive && child.None? ==> Distance(grpcPreferred, grpc.value) <= Distance(grpcPreferred, grpcPreferred);
      for i := 0 to candidates {
        var started: bool, wrongArchitecture: bool, exitedAtOnce: bool := *, *, *;
        if !started && !wrongArchitecture {
          return None;
        }
        if started && !exitedAtOnce {
          return Some(Child(cfg.port, grpc.value));
        }
      }
      return None;
    }

    /** The body of a restart, between winning and lowering the flag. */
    method ReplaceChild(requireClusterVerification: bool) returns (ok: bool)
      modifies this`child, this`config, this`savedConfig
      ensures config.SameExceptPort(old(config))
      ensures savedConfig == config || (config == old(config) && savedConfig == old(savedConfig))
      ensures ok ==> child.Some? && child.value.port == config.port
      ensures !ok ==> child == old(child) || child == None
      ensures old(PairInv()) ==> PairInv()
    {
      var portOk, moved, cfg, held := EnsureSidecarPortAvailable(config);
      if !portOk {
        return false;
      }
      if moved {
        savedConfig := cfg;
        config := cfg;
      }
      child := None; // taken and stopped under the slot's mutex
      var bindable := WaitForPortBindable(cfg.port);
      if !bindable {
        portOk, moved, cfg, held := EnsureSidecarPortAvailable(cfg);
        if !portOk {
          return false;
        }
        if moved {
          savedConfig := cfg;
          config := cfg;
        }
      }
      var candidates: int :| candidates >= 0;
      var spawned := SpawnBackend(cfg, candidates);
      if spawned.None? {
        return false;
      }
      var ready: bool, verified: bool := *, *;
      if !ready {
        return false;
      }
      if !verified && requireClusterVerification {
        return false;
      }
      child := spawned;
      return true;
    }

    /**
     * A restart lowers the flag whatever happens, changes the configuration in its port only,
     * saves what it changes, and on success leaves a child on the configured port.
     */
    method RestartBackendSidecar(requireClusterVerification: bool) returns (ok: bool)
      requires !restartInProgress
      modifies this`child, this`config, this`savedConfig, this`restartInProgress
      ensures !restartInProgress
      ensures config.SameExceptPort(old(config))
      ensures savedConfig == config || (config == old(config) && savedConfig == old(savedConfig))
      ensures ok ==> child.Some? && child.value.port == config.port
      ensures !ok ==> child == old(child) || child == None
      ensures old(PairInv()) ==> PairInv()
    {
      restartInProgress := true;
      ok := ReplaceChild(requireClusterVerification);
      restartInProgress := false;
    }

    /**
     * A cluster switch is transactional: it ends with the validated requested configuration and a
     * verified child, or with the previous configuration, in memory and on disk, up to the port.
     */
    method SetSidecarConfig(requested: SidecarConfig)
      requires !restartInProgress
      modifies this
      ensures !restartInProgress && !switchStatus.inProgress && switchStatus.lastSuccess.Some?
      ensures switchStatus.requestedContext == ValidatedConfig(requested, env).kubeContext
      ensures Overrides(requested.kubeContext, env.kubeContext, switchStatus.requestedContext)
      ensures savedConfig == config
      ensures switchStatus.lastSuccess == Some(true) ==>
                && config.SameExceptPort(ValidatedConfig(requested, env))
                && IsValidatedExceptPort(requested, env, config)
                && child.Some? && child.value.port == config.port
      ensures switchStatus.lastSuccess == Some(false) ==> config.SameExceptPort(old(config))
      ensures old(PairInv()) && InPair(ValidatedConfig(requested, env).port) ==> PairInv()
    {
      ValidatedConfigIs(requested, env);
      hide Overrides;
      var next := ValidatedConfig(requested, env);
      var previous := config;
      config := next;
      savedConfig := next;
      switchStatus := SwitchStatus(true, None, next.kubeContext);
      var switched := RestartBackendSidecar(true);
      if switched {
        switchStatus := switchStatus.(inProgress := false, lastSuccess := Some(true));
      } else {
        config := previous;
        savedConfig := previous;
        var _ := RestartBackendSidecar(false);
        switchStatus := switchStatus.(inProgress := false, lastSuccess := Some(false));
      }
    }

    /**
     * The monitor replaces a child that has exited. It keeps a new child even if its probe times
     * out, and goes on with the configured port when no port is free.
     */
    method MonitorRestart()
      requires !restartInProgress && child.None?
      modifies this`child, this`config, this`savedConfig, this`restartInProgress
      ensures !restartInProgress
      ensures config.SameExceptPort(old(config))
      ensures savedConfig == config || (config == old(config) && savedConfig == old(savedConfig))
      ensures child.Some? ==> child.value.port == config.port
      ensures old(PairInv()) ==> PairInv()
    {
      restartInProgress := true;
      var portOk, moved, cfg, held := EnsureSidecarPortAvailable(config);
      if portOk && moved {
        config := cfg;
        savedConfig := cfg;
      }
      var candidates: int :| candidates >= 0;
      child := SpawnBackend(config, candidates);
      restartInProgress := false;
    }

    /**
     * However restarts, switches and the monitor's restarts follow one another, the sidecar stays
     * on ports 15222 and 15223 while nobody else holds one and switches ask for one of the two.
     */
    method RunOperations(ops: seq<Operation>)
      requires !restartInProgress && exclusive && grpcPreferred !in [15222, 15223]
      requires config.port in [15222, 15223]
      requires child.Some? ==> child.value.port in [15222, 15223] && child.value.grpcPort !in [15222, 15223]
      requires forall i :: 0 <= i < |ops| && ops[i].Switch? ==>
                 ValidatedConfig(ops[i].requested, env).port in [15222, 15223]
      modifies this
      ensures !restartInProgress && config.port in [15222, 15223]
      ensures child.Some? ==> child.value.port in [15222, 15223] && child.value.grpcPort !in [15222, 15223]
    {
      for i := 0 to |ops|
        invariant !restartInProgress && PairInv()
      {
        match ops[i] {
          case Restart =>
            var _ := RestartBackendSidecar(false);
          case Switch(requested) =>
            SetSidecarConfig(requested);
          case MonitorWakes =>
            var exited: bool := *;
            if exited {
              child := None;
            }
            if child.None? {
              MonitorRestart();
            }
        }
      }
    }
  }
}
