/**
 * Port selection (`buildRpcPort`): the port an instance is dialled on is the
 * value its named-port map gives for the configured port name, or the
 * instance's default port when the map has no such entry.
 */
module PortResolver {
  import opened Wrappers
  import opened StringUtils

  /**
   * The string a (nullable) named-port map holds for a (nullable) port name,
   * if any. A null name finds nothing: null keys are not modelled.
   */
  function NamedPort(portName: Option<string>, ports: Option<map<string, string>>): Option<string> {
    if ports.Some? && portName.Some? && portName.value in ports.value
    then Some(ports.value[portName.value])
    else None
  }

  /**
   * `buildRpcPort(portName, ports, defaultProt)`. The port is the default
   * one when there is no entry for `portName`, and the parse of the entry
   * when it holds a decimal integer. What a malformed entry gives is the
   * one-argument `toInt`'s fallback, which no clause here states.
   */
  function BuildRpcPort(portName: Option<string>, ports: Option<map<string, string>>, defaultProt: int32): (port: int32)
    ensures NamedPort(portName, ports).None? ==> port == defaultProt
    ensures NamedPort(portName, ports).Some? && ParseInt(NamedPort(portName, ports).value).Some? ==>
      port == ParseInt(NamedPort(portName, ports).value).value
  {
    if ports.None? || |ports.value| == 0 then
      defaultProt
    else
      var sPort := if portName.Some? && portName.value in ports.value then Some(ports.value[portName.value]) else None;
      if sPort.None? then defaultProt else ToInt(sPort.value)
  }

  /** A port written in decimal under `portName` is the port chosen, whatever the default. */
  lemma BuildRpcPortFormatted(portName: string, ports: map<string, string>, port: int32, defaultProt: int32)
    requires portName in ports && ports[portName] == FormatInt(port)
    ensures BuildRpcPort(Some(portName), Some(ports), defaultProt) == port
  {
    ParseFormat(port);
  }

  /**
   * The choice depends on the entry for `portName` alone: other entries, and
   * whether the map is null or empty, do not change it.
   */
  lemma BuildRpcPortOnlyReadsItsEntry(portName: Option<string>, ports: Option<map<string, string>>,
                                      ports': Option<map<string, string>>, defaultProt: int32)
    requires NamedPort(portName, ports) == NamedPort(portName, ports')
    ensures BuildRpcPort(portName, ports, defaultProt) == BuildRpcPort(portName, ports', defaultProt)
  {
  }

  /** The port choices that a named-port map of "rpc" ports leads to. */
  lemma RpcPortExamples()
    ensures BuildRpcPort(Some("rpc"), Some(map["rpc" := "8080"]), 9000) == 8080
    ensures BuildRpcPort(Some("rpc"), Some(map[]), 9000) == 9000
    ensures BuildRpcPort(Some("rpc"), None, 9000) == 9000
    ensures BuildRpcPort(Some("rpc"), Some(map["other" := "80"]), 9000) == 9000
  {
    assert FormatInt(8080) == "8080";
    BuildRpcPortFormatted("rpc", map["rpc" := "8080"], 8080, 9000);
    assert "rpc" != "other";
  }
}
