/** agent/app/main.py: the push API that adds and removes single clients on a node. */
module PushApi {
  import opened Wrappers
  import opened Seqs
  import opened XrayConfig
  import opened Records
  import opened Hysteria

  datatype Request = Request(uuid: string, email: string)

  /** The config on disk, Hysteria2's auth map and its live sessions; `hy2` is whether Hysteria2 runs. */
  datatype Push = Push(hy2: bool, disk: Config, auth: map<string, string>, sessions: set<string>)

  // --- one inbound ----------------------------------------------------------------------------------

  predicate HasUuid(clients: seq<ClientRecord>, uuid: string) {
    exists c :: c in clients && c.id == Some(uuid)
  }

  function AddTo(inbound: Inbound, req: Request): Inbound {
    if !IsVless(inbound) || HasUuid(inbound.clients, req.uuid) then inbound
    else inbound.(clients := inbound.clients + [BuildClientRecord(req.uuid, req.email, inbound)])
  }

  function IsNot(uuid: string): ClientRecord -> bool {
    (c: ClientRecord) => c.id != Some(uuid)
  }

  function Is(uuid: string): ClientRecord -> bool {
    (c: ClientRecord) => c.id == Some(uuid)
  }

  function RemoveFrom(inbound: Inbound, uuid: string): Inbound {
    if !IsVless(inbound) then inbound else inbound.(clients := Filter(IsNot(uuid), inbound.clients))
  }

  function BulkTo(inbound: Inbound, reqs: seq<Request>): Inbound {
    if reqs == [] then inbound else AddTo(BulkTo(inbound, reqs[..|reqs| - 1]), reqs[|reqs| - 1])
  }

  // --- all inbounds -----------------------------------------------------------------------------------

  function AddAll(inbounds: seq<Inbound>, req: Request): (r: seq<Inbound>)
    ensures |r| == |inbounds| && forall i :: 0 <= i < |r| ==> r[i] == AddTo(inbounds[i], req)
  {
    if inbounds == [] then [] else AddAll(inbounds[..|inbounds| - 1], req) + [AddTo(inbounds[|inbounds| - 1], req)]
  }

  function RemoveAll(inbounds: seq<Inbound>, uuid: string): (r: seq<Inbound>)
    ensures |r| == |inbounds| && forall i :: 0 <= i < |r| ==> r[i] == RemoveFrom(inbounds[i], uuid)
  {
    if inbounds == [] then []
    else RemoveAll(inbounds[..|inbounds| - 1], uuid) + [RemoveFrom(inbounds[|inbounds| - 1], uuid)]
  }

  /** Inbound by inbound, every request in turn: the order in which the bulk call works. */
  function BulkAll(inbounds: seq<Inbound>, reqs: seq<Request>): (r: seq<Inbound>)
    ensures |r| == |inbounds| && forall i :: 0 <= i < |r| ==> r[i] == BulkTo(inbounds[i], reqs)
  {
    if inbounds == [] then [] else BulkAll(inbounds[..|inbounds| - 1], reqs) + [BulkTo(inbounds[|inbounds| - 1], reqs)]
  }

  /** Emails of the records a removal takes away. */
  function RemovedEmails(inbounds: seq<Inbound>, uuid: string): set<string> {
    set i, c | i in inbounds && IsVless(i) && c in i.clients && c.id == Some(uuid) && Truthy(c.email) :: c.email.value
  }

  /** A change is saved and Hysteria2 follows it; without one nothing is touched. */
  function Saved(s: Push, inbounds: seq<Inbound>): Push {
    if inbounds == s.disk.inbounds then s
    else s.(disk := s.disk.(inbounds := inbounds), auth := AuthOf(inbounds))
  }

  function Add(s: Push, req: Request): Push {
    Saved(s, AddAll(s.disk.inbounds, req))
  }

  function AddEach(s: Push, reqs: seq<Request>): Push {
    if reqs == [] then s else Add(AddEach(s, reqs[..|reqs| - 1]), reqs[|reqs| - 1])
  }

  /** `kick`: without Hysteria2, or with nobody to close, no call is made; a call that fails
      closes nothing, and the caller does not look. */
  function Kick(s: Push, emails: set<string>, answered: bool): Push {
    if s.hy2 && answered then s.(sessions := s.sessions - emails) else s
  }

  /** Hysteria2 stops letting the user in before the live sessions are to be closed. */
  function Remove(s: Push, uuid: string, answered: bool): Push {
    Kick(Saved(s, RemoveAll(s.disk.inbounds, uuid)), RemovedEmails(s.disk.inbounds, uuid), answered)
  }

  // --- bulk is add after add --------------------------------------------------------------------------

  lemma {:induction false} Interchange(inbounds: seq<Inbound>, reqs: seq<Request>)
    requires reqs != []
    ensures BulkAll(inbounds, reqs) == AddAll(BulkAll(inbounds, reqs[..|reqs| - 1]), reqs[|reqs| - 1])
  {
  }

  lemma {:induction false} AddGrows(inbound: Inbound, reqs: seq<Request>)
    ensures |inbound.clients| <= |BulkTo(inbound, reqs).clients|
    ensures |inbound.clients| == |BulkTo(inbound, reqs).clients| ==> BulkTo(inbound, reqs) == inbound
  {
    if reqs != [] {
      AddGrows(inbound, reqs[..|reqs| - 1]);
    }
  }

  /** Nothing is ever taken out again, so if the whole batch changes nothing no part of it does. */
  lemma UnchangedBefore(inbounds: seq<Inbound>, reqs: seq<Request>)
    requires reqs != [] && BulkAll(inbounds, reqs) == inbounds
    ensures BulkAll(inbounds, reqs[..|reqs| - 1]) == inbounds
  {
    var n := |reqs| - 1;
    forall i | 0 <= i < |inbounds| ensures BulkAll(inbounds, reqs[..n])[i] == inbounds[i] {
      assert BulkAll(inbounds, reqs)[i] == inbounds[i];
      AddGrows(inbounds[i], reqs[..n]);
    }
  }

  /** The loops over inbounds and over requests can be exchanged: the client lists and the auth map
      come out the same. */
  lemma {:induction false} BulkIsIterated(s: Push, reqs: seq<Request>)
    ensures AddEach(s, reqs) == Saved(s, BulkAll(s.disk.inbounds, reqs))
  {
    if reqs == [] {
      assert BulkAll(s.disk.inbounds, reqs) == s.disk.inbounds;
    } else {
      var n := |reqs| - 1;
      BulkIsIterated(s, reqs[..n]);
      Interchange(s.disk.inbounds, reqs);
      if BulkAll(s.disk.inbounds, reqs) == s.disk.inbounds {
        UnchangedBefore(s.disk.inbounds, reqs);
      }
    }
  }

  // --- what an addition does ---------------------------------------------------------------------------

  /** A VLESS inbound without the UUID gets one more record at its end, with the flow its transport
      calls for; every other inbound stays as it is. */
  lemma AddExact(s: Push, req: Request, k: nat)
    requires k < |s.disk.inbounds|
    ensures var r := Add(s, req);
            && r.disk == s.disk.(inbounds := r.disk.inbounds) && |r.disk.inbounds| == |s.disk.inbounds|
            && var was, i := s.disk.inbounds[k], r.disk.inbounds[k];
               if was.protocol == "vless" && forall c :: c in was.clients ==> c.id != Some(req.uuid)
               then && i == was.(clients := i.clients) && |i.clients| == |was.clients| + 1
                    && i.clients[..|was.clients|] == was.clients
                    && RightRecord(i.clients[|was.clients|], i, req.uuid, req.email)
               else i == was
  {
    var was := s.disk.inbounds[k];
    BuiltRight(req.uuid, req.email, was);
    var i := AddTo(was, req);
    assert Add(s, req).disk.inbounds[k] == i;
    if was.protocol == "vless" && forall c :: c in was.clients ==> c.id != Some(req.uuid) {
      assert !HasUuid(was.clients, req.uuid);
      SameTransport(i.clients[|was.clients|], was, i, req.uuid, req.email);
    }
  }

  /** And a client that was nowhere before can sign in. */
  lemma AddLetsIn(s: Push, req: Request)
    requires req.uuid != "" && req.email != "" && Absent(s.disk.inbounds, req.uuid)
    requires exists i :: i in s.disk.inbounds && i.protocol == "vless"
    ensures var r := Add(s, req); req.uuid in r.auth && r.auth[req.uuid] == req.email
  {
    hide AuthOf, Add, RightRecord, LetsIn, HasUuid;
    var was :| was in s.disk.inbounds && was.protocol == "vless";
    var k :| 0 <= k < |s.disk.inbounds| && s.disk.inbounds[k] == was;
    var r := Add(s, req);
    var inbounds := r.disk.inbounds;
    assert was.protocol == "vless" && forall c :: c in was.clients ==> c.id != Some(req.uuid) by {
      AbsentFrom(s.disk.inbounds, req.uuid, was);
    }
    AddExact(s, req, k);
    AddSaves(s, req);
    var i, c := inbounds[k], inbounds[k].clients[|was.clients|];
    AddedIs(c, i, req);
    AuthExact(inbounds, req.uuid);
    assert i in inbounds && c in i.clients && LetsIn(c, req.uuid, req.email) by {
      RecordLetsIn(c, req);
    }
    var j, d :| j in inbounds && j.protocol == "vless" && d in j.clients && LetsIn(d, req.uuid, AuthOf(inbounds)[req.uuid]);
    OnlyAdded(s, req, j, d, AuthOf(inbounds)[req.uuid]);
  }

  lemma AbsentFrom(inbounds: seq<Inbound>, uuid: string, i: Inbound)
    requires Absent(inbounds, uuid) && i in inbounds && i.protocol == "vless"
    ensures forall c :: c in i.clients ==> c.id != Some(uuid)
  {
    assert IsVless(i) && !HasUuid(i.clients, uuid);
  }

  lemma AddSaves(s: Push, req: Request)
    ensures var r := Add(s, req); r.disk.inbounds != s.disk.inbounds ==> r.auth == AuthOf(r.disk.inbounds)
  {
    hide AuthOf, AddAll;
  }

  lemma RecordLetsIn(c: ClientRecord, req: Request)
    requires req.uuid != "" && req.email != "" && AddedRecord(c, req)
    ensures LetsIn(c, req.uuid, req.email)
  {
  }

  /** Every record for the UUID is one that was just added. */
  lemma OnlyAdded(s: Push, req: Request, i: Inbound, c: ClientRecord, email: string)
    requires Absent(s.disk.inbounds, req.uuid) && i in Add(s, req).disk.inbounds && i.protocol == "vless"
    requires c in i.clients && LetsIn(c, req.uuid, email)
    ensures email == req.email
  {
    hide AuthOf, Add, RightRecord, HasUuid, Absent;
    var inbounds := Add(s, req).disk.inbounds;
    var m: nat :| m < |inbounds| && inbounds[m] == i;
    if m < |s.disk.inbounds| {
      var before := s.disk.inbounds[m];
      AddExact(s, req, m);
      if before.protocol == "vless" {
        assert before in s.disk.inbounds;
        AbsentFrom(s.disk.inbounds, req.uuid, before);
        assert i.clients == before.clients + [i.clients[|before.clients|]];
        AddedIs(i.clients[|before.clients|], i, req);
      }
    } else {
      AddLength(s, req);
    }
  }

  lemma AddLength(s: Push, req: Request)
    ensures |Add(s, req).disk.inbounds| == |s.disk.inbounds|
  {
  }

  predicate AddedRecord(c: ClientRecord, req: Request) {
    c.id == Some(req.uuid) && c.email == Some(req.email)
  }

  lemma AddedIs(c: ClientRecord, i: Inbound, req: Request)
    requires RightRecord(c, i, req.uuid, req.email)
    ensures AddedRecord(c, req)
  {
  }

  // --- undo ---------------------------------------------------------------------------------------------

  predicate Absent(inbounds: seq<Inbound>, uuid: string) {
    forall i :: i in inbounds && IsVless(i) ==> !HasUuid(i.clients, uuid)
  }

  lemma RemovedIsGone(inbound: Inbound, uuid: string)
    requires IsVless(inbound)
    ensures !HasUuid(RemoveFrom(inbound, uuid).clients, uuid)
  {
    forall c | c in RemoveFrom(inbound, uuid).clients ensures c.id != Some(uuid) {
      FilterMember(IsNot(uuid), inbound.clients, c);
    }
  }

  lemma UndoOne(inbound: Inbound, req: Request)
    requires IsVless(inbound) ==> !HasUuid(inbound.clients, req.uuid)
    ensures RemoveFrom(AddTo(inbound, req), req.uuid) == inbound
  {
    if IsVless(inbound) {
      var record := BuildClientRecord(req.uuid, req.email, inbound);
      FilterConcat(IsNot(req.uuid), inbound.clients, [record]);
      FilterAll(IsNot(req.uuid), inbound.clients);
      assert [record][1..] == [];
    }
  }

  lemma DisksAfter(s: Push, req: Request, uuid: string, answered: bool)
    ensures Add(s, req).disk == s.disk.(inbounds := AddAll(s.disk.inbounds, req))
    ensures Remove(s, uuid, answered).disk == s.disk.(inbounds := RemoveAll(s.disk.inbounds, uuid))
  {
  }

  lemma ListsUndone(inbounds: seq<Inbound>, req: Request)
    ensures RemoveAll(AddAll(inbounds, req), req.uuid) == inbounds <==> Absent(inbounds, req.uuid)
  {
    hide HasUuid, BuildClientRecord, AddTo, RemoveFrom;
    var back := RemoveAll(AddAll(inbounds, req), req.uuid);
    if Absent(inbounds, req.uuid) {
      forall i | 0 <= i < |inbounds| ensures back[i] == inbounds[i] {
        assert inbounds[i] in inbounds;
        UndoOne(inbounds[i], req);
      }
    } else {
      var inbound :| inbound in inbounds && IsVless(inbound) && HasUuid(inbound.clients, req.uuid);
      var k :| 0 <= k < |inbounds| && inbounds[k] == inbound;
      AddKeepsProtocol(inbound, req);
      RemovedIsGone(AddTo(inbound, req), req.uuid);
      assert back[k] == RemoveFrom(AddTo(inbound, req), req.uuid);
    }
  }

  lemma AddKeepsProtocol(inbound: Inbound, req: Request)
    ensures IsVless(AddTo(inbound, req)) == IsVless(inbound)
  {
  }

  /** Removing what was just added restores every client list exactly when no VLESS inbound had
      the UUID before. */
  lemma RemoveUndoesAdd(s: Push, req: Request, answered: bool)
    ensures Remove(Add(s, req), req.uuid, answered).disk == s.disk <==> Absent(s.disk.inbounds, req.uuid)
  {
    hide Add, Remove, Absent;
    DisksAfter(s, req, req.uuid, answered);
    DisksAfter(Add(s, req), req, req.uuid, answered);
    ListsUndone(s.disk.inbounds, req);
  }

  lemma {:induction false} NotLetIn(start: map<string, string>, records: seq<ClientRecord>, uuid: string)
    requires uuid !in start && !HasUuid(records, uuid)
    ensures uuid !in ClientsInto(start, records)
  {
    if records != [] {
      var n := |records| - 1;
      assert forall c :: c in records[..n] ==> c in records;
      assert records[n] in records;
      NotLetIn(start, records[..n], uuid);
    }
  }

  lemma {:induction false} AbsentNotLetIn(inbounds: seq<Inbound>, uuid: string)
    requires Absent(inbounds, uuid)
    ensures uuid !in AuthOf(inbounds)
  {
    if inbounds != [] {
      var n := |inbounds| - 1;
      assert inbounds[n] in inbounds && forall i :: i in inbounds[..n] ==> i in inbounds;
      AbsentNotLetIn(inbounds[..n], uuid);
      if IsVless(inbounds[n]) {
        NotLetIn(AuthOf(inbounds[..n]), inbounds[n].clients, uuid);
      }
    }
  }

  /** After a removal the UUID is on no VLESS inbound and cannot sign in, whatever became of the
      kick; everybody else's records stay. */
  lemma RemoveRevokes(s: Push, uuid: string, answered: bool)
    requires s.auth == AuthOf(s.disk.inbounds)
    ensures var r := Remove(s, uuid, answered);
            && Absent(r.disk.inbounds, uuid) && uuid !in r.auth && r.auth == AuthOf(r.disk.inbounds)
            && |r.disk.inbounds| == |s.disk.inbounds|
            && forall k, c :: 0 <= k < |s.disk.inbounds| && IsVless(s.disk.inbounds[k]) ==>
                 (c in r.disk.inbounds[k].clients <==> c in s.disk.inbounds[k].clients && c.id != Some(uuid))
  {
    var after := RemoveAll(s.disk.inbounds, uuid);
    var r := Remove(s, uuid, answered);
    assert r.disk.inbounds == after;
    forall i | i in after && IsVless(i) ensures !HasUuid(i.clients, uuid) {
      var k :| 0 <= k < |after| && after[k] == i;
      RemovedIsGone(s.disk.inbounds[k], uuid);
    }
    AbsentNotLetIn(after, uuid);
    forall k, c | 0 <= k < |s.disk.inbounds| && IsVless(s.disk.inbounds[k])
      ensures c in after[k].clients <==> c in s.disk.inbounds[k].clients && c.id != Some(uuid)
    {
      FilterMember(IsNot(uuid), s.disk.inbounds[k].clients, c);
    }
  }

  /** Nobody has a session with a Hysteria2 that does not run. */
  predicate Real(s: Push) {
    !s.hy2 ==> s.sessions == {}
  }

  /** This record on a VLESS inbound names the user's email. */
  predicate Names(i: Inbound, c: ClientRecord, uuid: string) {
    i.protocol == "vless" && c in i.clients && c.id == Some(uuid) && c.email.Some? && c.email.value != ""
  }

  ghost predicate NoSession(sessions: set<string>, inbounds: seq<Inbound>, uuid: string) {
    forall i, c :: i in inbounds && Names(i, c, uuid) ==> c.email.value !in sessions
  }

  /** The removed user's sessions end exactly when the kick is answered, or there were none; nobody
      else's end. Nothing retries a kick that failed. */
  lemma RemoveCloses(s: Push, uuid: string, answered: bool)
    requires Real(s)
    ensures var r := Remove(s, uuid, answered);
            && Real(r) && r.sessions <= s.sessions
            && (NoSession(r.sessions, s.disk.inbounds, uuid) <==> answered || NoSession(s.sessions, s.disk.inbounds, uuid))
            && forall e :: e in s.sessions - r.sessions ==>
                 exists i, c :: i in s.disk.inbounds && Names(i, c, uuid) && c.email.value == e
  {
    NamesEmail();
    hide Names, RemovedEmails, AuthOf, RemoveAll;
    var emails := RemovedEmails(s.disk.inbounds, uuid);
    var r := Remove(s, uuid, answered);
    assert r.sessions == if s.hy2 && answered then s.sessions - emails else s.sessions;
    forall e ensures e in emails <==> exists i, c :: i in s.disk.inbounds && Names(i, c, uuid) && c.email.value == e {
      EmailsNamed(s.disk.inbounds, uuid, e);
    }
  }

  lemma NamesEmail()
    ensures forall i, c, uuid :: Names(i, c, uuid) ==> c.email.Some?
  {
  }

  lemma EmailsNamed(inbounds: seq<Inbound>, uuid: string, e: string)
    ensures e in RemovedEmails(inbounds, uuid) <==> exists i, c :: i in inbounds && Names(i, c, uuid) && c.email.value == e
  {
    if e in RemovedEmails(inbounds, uuid) {
      var i, c :| i in inbounds && IsVless(i) && c in i.clients && c.id == Some(uuid) && Truthy(c.email) && c.email.value == e;
      assert Names(i, c, uuid);
    }
  }

  /** Once the user is off the disk another removal finds nothing to kick, so the session that
      survived a failed kick survives every later removal, answered or not. */
  lemma RemoveAgainKeeps(s: Push, uuid: string, again: bool)
    ensures Remove(Remove(s, uuid, false), uuid, again) == Remove(s, uuid, false)
  {
    hide AuthOf, HasUuid;
    var once := Remove(s, uuid, false);
    var inbounds := once.disk.inbounds;
    assert inbounds == RemoveAll(s.disk.inbounds, uuid);
    forall k | 0 <= k < |inbounds| ensures RemoveFrom(inbounds[k], uuid) == inbounds[k] {
      assert inbounds[k] == RemoveFrom(s.disk.inbounds[k], uuid);
      FilterTwice(IsNot(uuid), s.disk.inbounds[k].clients);
    }
    assert RemoveAll(inbounds, uuid) == inbounds;
    forall i | i in inbounds && IsVless(i) ensures !HasUuid(i.clients, uuid) {
      var k :| 0 <= k < |inbounds| && inbounds[k] == i;
      RemovedIsGone(s.disk.inbounds[k], uuid);
    }
    NobodyToKick(inbounds, uuid);
  }

  lemma NobodyToKick(inbounds: seq<Inbound>, uuid: string)
    requires Absent(inbounds, uuid)
    ensures RemovedEmails(inbounds, uuid) == {}
  {
  }

  /** A node with one client online, and a kick that fails: the handler is done, the client can no
      longer sign in, and the session lives on. */
  lemma FailedKickLeavesSession() returns (s: Push)
    ensures Real(s) && s.hy2 && s.auth == AuthOf(s.disk.inbounds) && s.sessions == {"a"}
    ensures RemovedEmails(s.disk.inbounds, "u") == {"a"}
    ensures var r := Remove(s, "u", false);
            "u" !in r.auth && Absent(r.disk.inbounds, "u") && r.sessions == {"a"}
  {
    var client := ClientRecord(Some("u"), Some("a"), None, "");
    var inbound := Inbound("vless", Some("in"), Some(443), None, [client], "");
    s := Push(true, Config([inbound], None, None, None, ""), AuthOf([inbound]), {"a"});
    RemoveRevokes(s, "u", false);
    RemoveCloses(s, "u", false);
    assert client in inbound.clients && inbound in s.disk.inbounds;
    assert "a" in RemovedEmails(s.disk.inbounds, "u");
  }

  // --- the handlers ------------------------------------------------------------------------------------------

  class PushHandlers {
    const hy2: bool
    var disk: Config
    var auth: map<string, string>
    var sessions: set<string>

    function View(): Push
      reads this
    {
      Push(hy2, disk, auth, sessions)
    }

    constructor (hy2: bool, disk: Config)
      ensures View() == Push(hy2, disk, AuthOf(disk.inbounds), {})
    {
      var mapping := RefreshFromConfig(disk);
      this.hy2, this.disk, auth, sessions := hy2, disk, mapping, {};
    }

    method AddClient(req: Request) returns (added: bool)
      modifies this`disk, this`auth
      ensures View() == Add(old(View()), req)
      ensures added <==> disk != old(disk)
    {
      hide AddAll, AuthOf;
      var inbounds;
      inbounds, added := AddEverywhere(disk.inbounds, req);
      if added {
        disk := disk.(inbounds := inbounds);
        auth := RefreshFromConfig(disk);
      }
    }

    /** `answered` is whether Hysteria2 answers a kick; its outcome is not looked at. */
    method RemoveClient(uuid: string, answered: bool) returns (removed: bool)
      modifies this`disk, this`auth, this`sessions
      ensures View() == Remove(old(View()), uuid, answered)
      ensures removed <==> disk != old(disk)
    {
      hide RemoveAll, RemovedEmails, AuthOf;
      var inbounds, emails;
      inbounds, emails, removed := RemoveEverywhere(disk.inbounds, uuid);
      if removed {
        disk := disk.(inbounds := inbounds);
        auth := RefreshFromConfig(disk);
        var _ := KickSessions(emails, answered);
      }
    }

    method KickSessions(emails: set<string>, answered: bool) returns (ok: bool)
      modifies this`sessions
      ensures View() == Kick(old(View()), emails, answered)
      ensures ok <==> !hy2 || emails == {} || answered
    {
      if !hy2 || emails == {} {
        return true;
      }
      if answered {
        sessions := sessions - emails;
      }
      ok := answered;
    }

    method BulkAddClients(reqs: seq<Request>) returns (changed: bool)
      modifies this`disk, this`auth
      ensures View() == AddEach(old(View()), reqs)
      ensures changed <==> disk != old(disk)
    {
      hide BulkAll, AuthOf, AddEach;
      BulkIsIterated(View(), reqs);
      var inbounds;
      inbounds, changed := BulkEverywhere(disk.inbounds, reqs);
      if changed {
        disk := disk.(inbounds := inbounds);
        auth := RefreshFromConfig(disk);
      }
    }
  }

  method AddEverywhere(known: seq<Inbound>, req: Request) returns (inbounds: seq<Inbound>, added: bool)
    ensures inbounds == AddAll(known, req) && (added <==> inbounds != known)
  {
    inbounds, added := known, false;
    for k := 0 to |known|
      invariant |inbounds| == |known| && (added <==> inbounds != known)
      invariant forall i :: 0 <= i < k ==> inbounds[i] == AddTo(known[i], req)
      invariant forall i :: k <= i < |known| ==> inbounds[i] == known[i]
    {
      var inbound := inbounds[k];
      if !IsVless(inbound) || HasUuid(inbound.clients, req.uuid) {
        continue;
      }
      var record := BuildClientRecord(req.uuid, req.email, inbound);
      inbounds := inbounds[k := inbound.(clients := inbound.clients + [record])];
      added := true;
      assert inbounds[k] != known[k];
    }
  }

  method RemoveEverywhere(known: seq<Inbound>, uuid: string)
    returns (inbounds: seq<Inbound>, emails: set<string>, removed: bool)
    ensures inbounds == RemoveAll(known, uuid) && (removed <==> inbounds != known)
    ensures emails == RemovedEmails(known, uuid) && (!removed ==> emails == {})
  {
    inbounds, emails, removed := known, {}, false;
    for k := 0 to |known|
      invariant |inbounds| == |known| && (removed <==> inbounds != known)
      invariant forall i :: 0 <= i < k ==> inbounds[i] == RemoveFrom(known[i], uuid)
      invariant forall i :: k <= i < |known| ==> inbounds[i] == known[i]
      invariant emails == RemovedEmails(known[..k], uuid) && (!removed ==> emails == {})
    {
      hide Filter, RemovedEmails, EmailsOf, RemoveAll;
      var inbound := inbounds[k];
      assert known[..k + 1] == known[..k] + [inbound];
      MoreRemoved(known[..k], inbound, uuid);
      if !IsVless(inbound) {
        continue;
      }
      var kept, gone := Filter(IsNot(uuid), inbound.clients), Filter(Is(uuid), inbound.clients);
      KeptAndGone(inbound, uuid);
      if |kept| == |inbound.clients| {
        continue;
      }
      inbounds := inbounds[k := inbound.(clients := kept)];
      removed := true;
      emails := emails + EmailsOf(gone);
      assert inbounds[k] != known[k];
    }
    assert known[..|known|] == known;
  }

  method BulkEverywhere(known: seq<Inbound>, reqs: seq<Request>) returns (inbounds: seq<Inbound>, changed: bool)
    ensures inbounds == BulkAll(known, reqs) && (changed <==> inbounds != known)
  {
    inbounds, changed := known, false;
    for k := 0 to |known|
      invariant |inbounds| == |known| && (changed <==> inbounds != known)
      invariant forall i :: 0 <= i < k ==> inbounds[i] == BulkTo(known[i], reqs)
      invariant forall i :: k <= i < |known| ==> inbounds[i] == known[i]
    {
      hide BulkTo;
      var more, grew := BulkInto(inbounds[k], reqs);
      if grew {
        inbounds := inbounds[k := more];
        changed := true;
        assert inbounds[k] != known[k];
      }
    }
  }

  /** One inbound of the bulk call: UUIDs it has seen are kept in a set. */
  method BulkInto(inbound: Inbound, reqs: seq<Request>) returns (r: Inbound, changed: bool)
    ensures r == BulkTo(inbound, reqs) && (changed <==> r != inbound)
  {
    r, changed := inbound, false;
    if !IsVless(inbound) {
      BulkForeign(inbound, reqs);
      return;
    }
    var existing := set c | c in inbound.clients :: c.id;
    for j := 0 to |reqs|
      invariant |inbound.clients| <= |r.clients| && (changed <==> |inbound.clients| < |r.clients|)
      invariant !changed ==> r == inbound
      invariant r == BulkTo(inbound, reqs[..j]) && IsVless(r) && r == inbound.(clients := r.clients)
      invariant forall uuid :: Some(uuid) in existing <==> HasUuid(r.clients, uuid)
    {
      var req := reqs[j];
      assert reqs[..j + 1][..j] == reqs[..j];
      if Some(req.uuid) in existing {
        continue;
      }
      var record := BuildClientRecord(req.uuid, req.email, inbound);
      r := r.(clients := r.clients + [record]);
      existing := existing + {Some(req.uuid)};
      changed := true;
    }
    assert reqs[..|reqs|] == reqs;
  }

  lemma {:induction false} BulkForeign(inbound: Inbound, reqs: seq<Request>)
    requires !IsVless(inbound)
    ensures BulkTo(inbound, reqs) == inbound
  {
    if reqs != [] {
      BulkForeign(inbound, reqs[..|reqs| - 1]);
    }
  }

  function EmailsOf(records: seq<ClientRecord>): set<string> {
    set c | c in records && Truthy(c.email) :: c.email.value
  }

  lemma {:induction false} FilterCounts(records: seq<ClientRecord>, uuid: string)
    ensures |Filter(IsNot(uuid), records)| + |Filter(Is(uuid), records)| == |records|
    ensures Filter(Is(uuid), records) == [] ==> Filter(IsNot(uuid), records) == records
  {
    if records != [] {
      FilterCounts(records[1..], uuid);
      assert records == [records[0]] + records[1..];
    }
  }

  lemma KeptAndGone(inbound: Inbound, uuid: string)
    requires IsVless(inbound)
    ensures var kept, gone := Filter(IsNot(uuid), inbound.clients), Filter(Is(uuid), inbound.clients);
            && (|kept| == |inbound.clients| <==> kept == inbound.clients)
            && (|kept| == |inbound.clients| ==> RemovedEmails([inbound], uuid) == {})
            && EmailsOf(gone) == RemovedEmails([inbound], uuid)
  {
    FilterCounts(inbound.clients, uuid);
    forall c ensures c in Filter(Is(uuid), inbound.clients) <==> c in inbound.clients && c.id == Some(uuid) {
      FilterMember(Is(uuid), inbound.clients, c);
    }
  }

  lemma MoreRemoved(inbounds: seq<Inbound>, inbound: Inbound, uuid: string)
    ensures RemovedEmails(inbounds + [inbound], uuid) == RemovedEmails(inbounds, uuid) + RemovedEmails([inbound], uuid)
    ensures !IsVless(inbound) ==> RemovedEmails([inbound], uuid) == {}
  {
  }
}
