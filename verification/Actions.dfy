/** One action: whatever its method and data, it sends one result. */
module Actions {

  /** The data field of an action document, by what its Go value asserts to. */
  datatype Data = Text(text: string) | Number | Flag | Other

  /** What the calls an action makes answer: whether its parameters parse and are
      complete, whether the handler fails, whether a level name is known. */
  datatype Outcome = Outcome(parses: bool, complete: bool, fails: bool, knownLevel: bool)

  const MESSAGE := "message"

  const NO_DATA := {
    "getIsInit", "forceGc", "resetTraffic", "resetConnections", "startLog", "stopLog", "startListener",
    "stopListener", "crash", "getProxies", "probeCurrentProxyIp", "queryExternalProviders", "getTraffic",
    "getTotalTraffic", "getMemory", "getConnections", "queryProxyGroupOrder", "subscribeConnections",
    "unsubscribeConnections", "closeAllConnections", "getDnsQueries", "clearDnsQueries"}
  const TEXT := {"initClash", "validateConfig", "updateConfig", "setupConfig", "getCountryCode", "closeConnection"}
  const FALLIBLE_TEXT := {"getConfig", "deleteFile", "setLogFilePath"}
  const JSON := {"testDelay", "testGroups", "getExternalProvider", "forwardHostLog"}
  const FALLIBLE_JSON := {"sideLoadExternalProvider", "updateGeoData", "updateExternalProvider"}
  const LEVEL := {"setLogcatLevel", "setFileLevel"}

  /** When the action is answered with an error. */
  ghost predicate Refused(name: string, data: Data, o: Outcome) {
    if name in NO_DATA then false
    else if name in TEXT then !data.Text?
    else if name in FALLIBLE_TEXT then !data.Text? || o.fails
    else if name in JSON then !data.Text? || !o.parses
    else if name in FALLIBLE_JSON then !data.Text? || !o.parses || o.fails
    else if name == "changeProxy" then !data.Text? || !o.parses || !o.complete || o.fails
    else if name in LEVEL then !data.Number? && !(data.Text? && o.knownLevel)
    else if name == "setFileEnabled" then !data.Flag?
    else true
  }

  class ActionResult {
    const name: string
    var code: int
    var sent: nat          // results sent
    var delivered: nat     // results that reached the callback
    var released: nat      // releases of the callback

    constructor (name: string)
      ensures this.name == name && code == 0 && sent == delivered == released == 0
    {
      this.name := name;
      code, sent, delivered, released := 0, 0, 0, 0;
    }

    /** One result went out with this code, and its callback was released once,
        or not at all if the action carries the name of the message channel. */
    twostate predicate Answered(code: int, marshals: bool)
      reads this
    {
      && this.code == code
      && sent == old(sent) + 1
      && delivered == old(delivered) + (if marshals then 1 else 0)
      && released == old(released) + (if name != MESSAGE then 1 else 0)
    }

    method Send(marshals: bool)
      modifies this
      ensures Answered(old(code), marshals)
    {
      sent := sent + 1;
      if marshals {
        delivered := delivered + 1;
      }
      if name != MESSAGE {
        released := released + 1;
      }
    }

    method Success(marshals: bool)
      modifies this
      ensures Answered(0, marshals)
    {
      code := 0;
      Send(marshals);
    }

    method Error(marshals: bool)
      modifies this
      ensures Answered(-1, marshals)
    {
      code := -1;
      Send(marshals);
    }

    /** False means an error was already sent. */
    method ParseString(data: Data, marshals: bool) returns (ok: bool)
      modifies this
      ensures ok == data.Text?
      ensures if ok then unchanged(this) else Answered(-1, marshals)
    {
      ok := data.Text?;
      if !ok {
        Error(marshals);
      }
    }

    method ParseLevel(data: Data, knownLevel: bool, marshals: bool) returns (ok: bool)
      modifies this
      ensures ok == (data.Number? || (data.Text? && knownLevel))
      ensures if ok then unchanged(this) else Answered(-1, marshals)
    {
      ok := data.Number? || (data.Text? && knownLevel);
      if !ok {
        Error(marshals);
      }
    }

    method HandleAction(data: Data, o: Outcome, marshals: bool)
      modifies this
      ensures Answered(if Refused(name, data, o) then -1 else 0, marshals)
    {
      if name in NO_DATA {
        Success(marshals);
      } else if name in TEXT + FALLIBLE_TEXT {
        var ok := ParseString(data, marshals);
        if !ok {
          return;
        }
        if name in FALLIBLE_TEXT && o.fails {
          Error(marshals);
          return;
        }
        Success(marshals);
      } else if name in JSON + FALLIBLE_JSON + {"changeProxy"} {
        var ok := ParseString(data, marshals);
        if !ok {
          return;
        }
        if !o.parses {
          Error(marshals);
          return;
        }
        if name == "changeProxy" && !o.complete {
          Error(marshals);
          return;
        }
        if name !in JSON && o.fails {
          Error(marshals);
        } else {
          Success(marshals);
        }
      } else if name in LEVEL {
        var ok := ParseLevel(data, o.knownLevel, marshals);
        if !ok {
          return;
        }
        Success(marshals);
      } else if name == "setFileEnabled" {
        if !data.Flag? {
          Error(marshals);
          return;
        }
        Success(marshals);
      } else {
        Error(marshals);
      }
    }
  }
}
