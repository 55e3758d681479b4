/** The parts of Xray's JSON config that the agent reads or edits. A key the source may find
    missing is an Option; everything it only carries along is one opaque string. */
module XrayConfig {
  import opened Wrappers

  const VISION := "xtls-rprx-vision"

  datatype ClientRecord = ClientRecord(
    id: Option<string>, email: Option<string>, flow: Option<string>, extra: string)

  datatype Inbound = Inbound(
    protocol: string, tag: Option<string>, port: Option<nat>, network: Option<string>,
    clients: seq<ClientRecord>, rest: string)

  datatype OutboundBody =
    | Foreign(json: string)
    | VlessXhttpReality(
        address: string, port: nat, user: string, publicKey: string, shortId: string,
        serverName: string, path: string)

  datatype Outbound = Outbound(tag: string, body: OutboundBody)

  /** `conditions` holds every matcher of a rule other than `inboundTag`; empty means none. */
  datatype Rule = Rule(
    inboundTag: Option<seq<string>>, balancerTag: string, outboundTag: string, conditions: string)

  datatype Balancer = Balancer(tag: string, selector: seq<string>, strategy: string, rest: string)

  datatype Routing = Routing(
    rules: Option<seq<Rule>>, balancers: Option<seq<Balancer>>, rest: string)

  datatype Observatory =
    | ForeignObservatory(json: string)
    | CascadeObservatory(subjectSelector: seq<string>, probeUrl: string, probeInterval: string)

  datatype Config = Config(
    inbounds: seq<Inbound>, outbounds: Option<seq<Outbound>>, routing: Option<Routing>,
    observatory: Option<Observatory>, rest: string)

  /** Python truthiness of an optional string. */
  predicate Truthy(s: Option<string>) {
    s.Some? && s.value != ""
  }

  function LowerChar(c: char): char {
    if 'A' <= c <= 'Z' then (c as int - 'A' as int + 'a' as int) as char else c
  }

  function Lower(s: string): string {
    seq(|s|, i requires 0 <= i < |s| => LowerChar(s[i]))
  }

  predicate IsVless(inbound: Inbound) {
    inbound.protocol == "vless"
  }

  predicate IsTcp(inbound: Inbound) {
    var network := Lower(if Truthy(inbound.network) then inbound.network.value else "tcp");
    network != "grpc" && network != "xhttp"
  }

  /** The client record an inbound stores: vision flow on tcp, none on xhttp and grpc. */
  function BuildClientRecord(uuid: string, email: string, inbound: Inbound): ClientRecord {
    ClientRecord(Some(uuid), Some(email), if IsTcp(inbound) then Some(VISION) else None, "")
  }

  /** Emails configured on any VLESS inbound. */
  ghost function Emails(config: Config): (r: set<string>)
  {
    set inbound, record |
      inbound in config.inbounds && IsVless(inbound) && record in inbound.clients && Truthy(record.email)
      :: record.email.value
  }
}
