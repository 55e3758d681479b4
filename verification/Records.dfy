/** What a client's record on an inbound must look like, without saying how the agent builds it. */
module Records {
  import opened Wrappers
  import opened XrayConfig

  /** `a` is `b`, written in capitals or not. */
  predicate SameLetters(a: string, b: string) {
    && |a| == |b|
    && forall k :: 0 <= k < |a| ==> a[k] == b[k] || ('A' <= a[k] <= 'Z' && a[k] as int + 32 == b[k] as int)
  }

  /** Transports that carry no vision flow. */
  predicate Flowless(inbound: Inbound) {
    inbound.network.Some? && (SameLetters(inbound.network.value, "grpc") || SameLetters(inbound.network.value, "xhttp"))
  }

  /** The record of a client on an inbound: its id and email, and the vision flow unless the transport
      carries none. */
  predicate RightRecord(r: ClientRecord, inbound: Inbound, uuid: string, email: string) {
    && r.id == Some(uuid) && r.email == Some(email) && r.extra == ""
    && (r.flow.None? <==> Flowless(inbound))
    && (r.flow.Some? ==> r.flow.value == "xtls-rprx-vision")
  }

  lemma LowerIs(s: string, t: string)
    requires forall k :: 0 <= k < |t| ==> 'a' <= t[k] <= 'z'
    ensures Lower(s) == t <==> SameLetters(s, t)
  {
    if Lower(s) == t {
      forall k | 0 <= k < |s| ensures s[k] == t[k] || ('A' <= s[k] <= 'Z' && s[k] as int + 32 == t[k] as int) {
        assert Lower(s)[k] == LowerChar(s[k]);
      }
    }
    if SameLetters(s, t) {
      assert |Lower(s)| == |t|;
      forall k | 0 <= k < |t| ensures Lower(s)[k] == t[k] {
        assert Lower(s)[k] == LowerChar(s[k]);
      }
    }
  }

  lemma BuiltRight(uuid: string, email: string, inbound: Inbound)
    ensures RightRecord(BuildClientRecord(uuid, email, inbound), inbound, uuid, email)
  {
    hide Lower;
    var network := if Truthy(inbound.network) then inbound.network.value else "tcp";
    LowerIs(network, "grpc");
    LowerIs(network, "xhttp");
  }

  lemma SameTransport(r: ClientRecord, was: Inbound, i: Inbound, uuid: string, email: string)
    requires RightRecord(r, was, uuid, email) && i == was.(clients := i.clients)
    ensures RightRecord(r, i, uuid, email)
  {
  }
}
