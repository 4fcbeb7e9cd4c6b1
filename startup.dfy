/**
 * Startup (cmd/server/main.go): choosing the authentication mode, letting
 * the panel's node configuration override the listen address and the two
 * intervals, and building the server for the chosen mode. Flag parsing,
 * the padding-scheme file, the listener, the certificate and the accept
 * loop are not modelled.
 */
module Startup {
  import opened Panel
  import opened Traffic
  import opened Auth
  import opened Server

  /** time.Second: durations are counted in nanoseconds. */
  const Second: int := 1_000_000_000

  /** The default of both interval flags, 60s. */
  const DefaultInterval: int := 60 * Second

  /** The command-line values the resolution reads. */
  datatype Flags = Flags(
    listen: string,
    password: string,
    apiHost: string,
    apiKey: string,
    nodeId: nat,
    pullInterval: int,
    pushInterval: int)

  /** The authentication mode: a stored password hash, or the panel's directory. */
  datatype Mode = Plain(passwordSha256: Digest) | V2board

  /** What startup settles on before it listens. */
  datatype Settings = Settings(mode: Mode, listen: string, pullInterval: int, pushInterval: int)

  /** V2board mode needs an API host, an API key and a non-zero node id. */
  predicate IsV2boardMode(flags: Flags) {
    flags.apiHost != "" && flags.apiKey != "" && flags.nodeId != 0
  }

  /** The decimal digit for 0..9. */
  function Digit(d: nat): (c: char)
    requires d < 10
    ensures '0' <= c <= '9' && (c as int) - ('0' as int) == d
  {
    "0123456789"[d]
  }

  /** formatUint: the decimal text of `n`, without leading zeros. */
  function FormatUint(n: nat): (s: string)
    ensures |s| > 0
    ensures forall i :: 0 <= i < |s| ==> '0' <= s[i] <= '9'
    ensures |s| > 1 ==> s[0] != '0'
    decreases n
  {
    if n < 10 then [Digit(n)] else FormatUint(n / 10) + [Digit(n % 10)]
  }

  /** The value of a text of decimal digits. */
  function ParseUint(s: string): nat
    requires forall i :: 0 <= i < |s| ==> '0' <= s[i] <= '9'
  {
    if s == [] then 0
    else ParseUint(s[..|s| - 1]) * 10 + ((s[|s| - 1] as int) - ('0' as int))
  }

  /** Reading back the decimal text gives the number. */
  lemma {:induction false} FormatUintRoundTrip(n: nat)
    ensures ParseUint(FormatUint(n)) == n
    decreases n
  {
    if n >= 10 {
      FormatUintRoundTrip(n / 10);
      var s := FormatUint(n);
      assert s[..|s| - 1] == FormatUint(n / 10);
    }
  }

  /**
   * Lines 61-96 and 129 of main: the mode, the fatal missing password, and
   * the panel's overrides. `nodeInfo` is the answer of the node-config
   * fetch, consulted only in V2board mode; an `Err` result means startup
   * stops.
   */
  method ResolveConfig(flags: Flags, nodeInfo: Result<NodeInfo>, sha256: Hasher) returns (r: Result<Settings>)
    ensures r.Err? <==> !IsV2boardMode(flags) && flags.password == ""
    ensures r.Ok? ==> (r.value.mode.V2board? <==> IsV2boardMode(flags))
    ensures r.Ok? && r.value.mode.Plain? ==> r.value.mode.passwordSha256 == sha256(flags.password)
    ensures r.Ok? && (!IsV2boardMode(flags) || nodeInfo.Err?) ==>
      && r.value.listen == flags.listen
      && r.value.pullInterval == flags.pullInterval
      && r.value.pushInterval == flags.pushInterval
    ensures r.Ok? && IsV2boardMode(flags) && nodeInfo.Ok? ==>
      var info := nodeInfo.value;
      && (info.serverPort > 0 ==> r.value.listen == ":" + FormatUint(info.serverPort))
      && (info.serverPort == 0 ==> r.value.listen == flags.listen)
      && (flags.pullInterval == DefaultInterval && info.baseConfig.pullInterval > 0 ==>
            r.value.pullInterval == info.baseConfig.pullInterval * Second)
      && (flags.pullInterval != DefaultInterval || info.baseConfig.pullInterval <= 0 ==>
            r.value.pullInterval == flags.pullInterval)
      && (flags.pushInterval == DefaultInterval && info.baseConfig.pushInterval > 0 ==>
            r.value.pushInterval == info.baseConfig.pushInterval * Second)
      && (flags.pushInterval != DefaultInterval || info.baseConfig.pushInterval <= 0 ==>
            r.value.pushInterval == flags.pushInterval)
  {
    var listen := flags.listen;
    var pullInterval := flags.pullInterval;
    var pushInterval := flags.pushInterval;

    var isV2boardMode := flags.apiHost != "" && flags.apiKey != "" && flags.nodeId != 0;
    if isV2boardMode {
      // the node-id check that follows in main can never fail
      assert flags.nodeId != 0;
    } else if flags.password == "" {
      return Err("a password or the v2board flags are required");
    }

    if isV2boardMode && nodeInfo.Ok? {
      var info := nodeInfo.value;
      if info.serverPort > 0 {
        listen := ":" + FormatUint(info.serverPort);
      }
      if pullInterval == DefaultInterval && info.baseConfig.pullInterval > 0 {
        pullInterval := info.baseConfig.pullInterval * Second;
      }
      if pushInterval == DefaultInterval && info.baseConfig.pushInterval > 0 {
        pushInterval := info.baseConfig.pushInterval * Second;
      }
    }

    var mode := if isV2boardMode then V2board else Plain(sha256(flags.password));
    return Ok(Settings(mode, listen, pullInterval, pushInterval));
  }

  /**
   * Lines 117-131 of main: V2board mode gets a fresh, empty directory and
   * accountant; plain mode gets the stored password hash only.
   */
  method NewServer(mode: Mode, sha256: Hasher) returns (server: MyServer)
    ensures fresh(server)
    ensures server.Valid()
    ensures mode.Plain? ==>
      && server.passwordSha256 == mode.passwordSha256
      && server.v2boardAuth == null && server.v2boardTraffic == null
    ensures mode.V2board? ==>
      && server.passwordSha256 == []
      && server.v2boardAuth != null && fresh(server.v2boardAuth)
      && server.v2boardAuth.sha256 == sha256
      && server.v2boardAuth.usersByHash == map[] && server.v2boardAuth.usersById == map[]
      && server.v2boardTraffic != null && fresh(server.v2boardTraffic)
      && server.v2boardTraffic.counters == map[]
  {
    if mode.V2board? {
      var authMgr := new AuthManager(sha256);
      var trafficMgr := new TrafficManager();
      server := new MyServer.V2board(authMgr, trafficMgr);
    } else {
      server := new MyServer.Plain(mode.passwordSha256);
    }
  }
}
