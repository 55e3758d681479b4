/** agent/app/hysteria.py: who Hysteria2 lets in, derived from the VLESS clients on disk. */
module Hysteria {
  import opened Wrappers
  import opened XrayConfig
  import opened Reconcile

  function ClientsInto(start: map<string, string>, records: seq<ClientRecord>): map<string, string> {
    if records == [] then start
    else
      var last := records[|records| - 1];
      var m := ClientsInto(start, records[..|records| - 1]);
      if Truthy(last.id) && Truthy(last.email) then m[last.id.value := last.email.value] else m
  }

  /** uuid -> email over every VLESS inbound; a later record wins. */
  function AuthOf(inbounds: seq<Inbound>): map<string, string> {
    if inbounds == [] then map[]
    else
      var last := inbounds[|inbounds| - 1];
      var m := AuthOf(inbounds[..|inbounds| - 1]);
      if IsVless(last) then ClientsInto(m, last.clients) else m
  }

  function Authenticate(auth: map<string, string>, secret: string): Option<string> {
    if secret in auth then Some(auth[secret]) else None
  }

  function ClientMap(clients: seq<DesiredClient>): map<string, string> {
    if clients == [] then map[]
    else
      var last := clients[|clients| - 1];
      ClientMap(clients[..|clients| - 1])[last.uuid := last.email]
  }

  method RefreshFromConfig(config: Config) returns (mapping: map<string, string>)
    ensures mapping == AuthOf(config.inbounds)
  {
    mapping := map[];
    for k := 0 to |config.inbounds|
      invariant mapping == AuthOf(config.inbounds[..k])
    {
      var inbound := config.inbounds[k];
      assert config.inbounds[..k + 1][..k] == config.inbounds[..k];
      if IsVless(inbound) {
        ghost var start := mapping;
        for j := 0 to |inbound.clients|
          invariant mapping == ClientsInto(start, inbound.clients[..j])
        {
          var client := inbound.clients[j];
          assert inbound.clients[..j + 1][..j] == inbound.clients[..j];
          if Truthy(client.id) && Truthy(client.email) {
            mapping := mapping[client.id.value := client.email.value];
          }
        }
        assert inbound.clients[..|inbound.clients|] == inbound.clients;
      }
    }
    assert config.inbounds[..|config.inbounds|] == config.inbounds;
  }

  // --- who can authenticate ------------------------------------------------------------------

  lemma {:induction false} ClientsIntoFrom(start: map<string, string>, records: seq<ClientRecord>, uuid: string)
    requires uuid in ClientsInto(start, records)
    ensures (uuid in start && ClientsInto(start, records)[uuid] == start[uuid])
            || exists r :: r in records && Truthy(r.email) && r.email.value == ClientsInto(start, records)[uuid]
  {
    if records != [] {
      var n := |records| - 1;
      var last := records[n];
      assert last in records;
      if !(Truthy(last.id) && Truthy(last.email) && last.id.value == uuid) {
        ClientsIntoFrom(start, records[..n], uuid);
        assert forall r :: r in records[..n] ==> r in records;
      }
    }
  }

  /** An email Hysteria2 lets in is one the config authorises. */
  lemma {:induction false} AuthEmailsConfigured(inbounds: seq<Inbound>, uuid: string)
    requires uuid in AuthOf(inbounds)
    ensures exists i, r :: i in inbounds && IsVless(i) && r in i.clients && Truthy(r.email)
                           && r.email.value == AuthOf(inbounds)[uuid]
  {
    var n := |inbounds| - 1;
    var last := inbounds[n];
    var m := AuthOf(inbounds[..n]);
    assert last in inbounds && forall i :: i in inbounds[..n] ==> i in inbounds;
    if IsVless(last) {
      ClientsIntoFrom(m, last.clients, uuid);
    }
    if uuid in m && m[uuid] == AuthOf(inbounds)[uuid] {
      AuthEmailsConfigured(inbounds[..n], uuid);
    }
  }

  lemma AuthWithinEmails(config: Config)
    ensures AuthOf(config.inbounds).Values <= Emails(config)
  {
    forall e | e in AuthOf(config.inbounds).Values ensures e in Emails(config) {
      var uuid :| uuid in AuthOf(config.inbounds) && AuthOf(config.inbounds)[uuid] == e;
      AuthEmailsConfigured(config.inbounds, uuid);
    }
  }

  lemma NoneInto(start: map<string, string>)
    ensures ClientsInto(start, []) == start && ClientMap([]) == map[]
  {
  }

  lemma LastInto(start: map<string, string>, records: seq<ClientRecord>)
    requires records != [] && Truthy(records[|records| - 1].id) && Truthy(records[|records| - 1].email)
    ensures var last := records[|records| - 1];
            ClientsInto(start, records) == ClientsInto(start, records[..|records| - 1])[last.id.value := last.email.value]
  {
  }

  lemma LastMapped(clients: seq<DesiredClient>)
    requires clients != []
    ensures var last := clients[|clients| - 1];
            ClientMap(clients) == ClientMap(clients[..|clients| - 1])[last.uuid := last.email]
  {
  }

  lemma LastRecord(clients: seq<DesiredClient>, inbound: Inbound)
    requires clients != []
    ensures var n := |clients| - 1; var records := DesiredRecords(clients, inbound);
            && |records| == n + 1 && records[..n] == DesiredRecords(clients[..n], inbound)
            && records[n].id == Some(clients[n].uuid) && records[n].email == Some(clients[n].email)
  {
    hide IsTcp;
  }

  lemma {:induction false} BuiltInto(start: map<string, string>, clients: seq<DesiredClient>, inbound: Inbound)
    requires forall c :: c in clients ==> c.uuid != "" && c.email != ""
    ensures ClientsInto(start, DesiredRecords(clients, inbound)) == start + ClientMap(clients)
  {
    hide DesiredRecords, BuildClientRecord, ClientsInto, ClientMap;
    if clients == [] {
      assert DesiredRecords(clients, inbound) == [];
      NoneInto(start);
    } else {
      var n := |clients| - 1;
      assert clients[n] in clients && forall c :: c in clients[..n] ==> c in clients;
      BuiltInto(start, clients[..n], inbound);
      LastRecord(clients, inbound);
      LastInto(start, DesiredRecords(clients, inbound));
      LastMapped(clients);
      PutAfter(start, ClientMap(clients[..n]), clients[n].uuid, clients[n].email);
    }
  }

  lemma PutAfter(a: map<string, string>, b: map<string, string>, key: string, value: string)
    ensures (a + b)[key := value] == a + b[key := value]
  {
  }

  /** After a reconciliation the map is exactly the desired uuid-to-email map. */
  lemma {:induction false} NewAuthExact(inbounds: seq<Inbound>, clients: seq<DesiredClient>)
    requires WellFormedClients(clients)
    ensures AuthOf(NewInbounds(inbounds, clients)) ==
            if exists i :: i in inbounds && IsVless(i) then ClientMap(clients) else map[]
  {
    if inbounds != [] {
      hide ClientMap, ClientsInto, DesiredRecords;
      var n := |inbounds| - 1;
      assert NewInbounds(inbounds, clients)[..n] == NewInbounds(inbounds[..n], clients);
      NewAuthExact(inbounds[..n], clients);
      BuiltInto(AuthOf(NewInbounds(inbounds[..n], clients)), clients, inbounds[n]);
      assert inbounds == inbounds[..n] + [inbounds[n]];
      assert ClientMap(clients) + ClientMap(clients) == ClientMap(clients);
    }
  }

  // --- exactly who ------------------------------------------------------------------------------

  /** A record that lets `uuid` in under `email`. */
  predicate LetsIn(r: ClientRecord, uuid: string, email: string) {
    uuid != "" && email != "" && r.id == Some(uuid) && r.email == Some(email)
  }

  lemma {:induction false} ClientsIntoExact(start: map<string, string>, records: seq<ClientRecord>, uuid: string)
    ensures uuid in ClientsInto(start, records) ==>
              (uuid in start && ClientsInto(start, records)[uuid] == start[uuid])
              || exists r :: r in records && LetsIn(r, uuid, ClientsInto(start, records)[uuid])
    ensures uuid in start ==> uuid in ClientsInto(start, records)
    ensures (exists r, email :: r in records && LetsIn(r, uuid, email)) ==> uuid in ClientsInto(start, records)
  {
    if records != [] {
      var n := |records| - 1;
      var front, last := records[..n], records[n];
      ClientsIntoExact(start, front, uuid);
      assert records == front + [last];
      if Truthy(last.id) && Truthy(last.email) && last.id.value == uuid {
        assert last in records && LetsIn(last, uuid, last.email.value);
      } else if uuid in ClientsInto(start, records) {
        if r :| r in front && LetsIn(r, uuid, ClientsInto(start, front)[uuid]) {
          assert r in records;
        }
      }
      if r, email :| r in records && LetsIn(r, uuid, email) {
        if r in front {
          assert LetsIn(r, uuid, email);
        } else {
          assert r == last;
        }
      }
    }
  }

  /** Hysteria2 lets a UUID in exactly if a VLESS inbound has a record for it with an email, and then
      under the email of such a record. */
  lemma {:induction false} AuthExact(inbounds: seq<Inbound>, uuid: string)
    ensures uuid in AuthOf(inbounds) <==>
            exists i, r, email :: i in inbounds && i.protocol == "vless" && r in i.clients && LetsIn(r, uuid, email)
    ensures uuid in AuthOf(inbounds) ==>
              exists i, r :: i in inbounds && i.protocol == "vless" && r in i.clients && LetsIn(r, uuid, AuthOf(inbounds)[uuid])
  {
    if inbounds != [] {
      hide ClientsInto;
      var n := |inbounds| - 1;
      var front, last := inbounds[..n], inbounds[n];
      AuthExact(front, uuid);
      assert inbounds == front + [last];
      if IsVless(last) {
        ClientsIntoExact(AuthOf(front), last.clients, uuid);
      }
      if i, r, email :| i in front && i.protocol == "vless" && r in i.clients && LetsIn(r, uuid, email) {
        assert i in inbounds;
      }
      if uuid in AuthOf(inbounds) && uuid in AuthOf(front) && AuthOf(inbounds)[uuid] == AuthOf(front)[uuid] {
        var i, r :| i in front && i.protocol == "vless" && r in i.clients && LetsIn(r, uuid, AuthOf(front)[uuid]);
        assert i in inbounds;
      }
    }
  }
}
