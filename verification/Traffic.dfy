/** bot/src/scheduler/tasks.py: turning counters that restart into bytes that are credited once. */
module Traffic {
  import opened Wrappers
  import opened Seqs
  import opened Decimal

  datatype Bytes = Bytes(up: nat, down: nat)
  {
    function Plus(b: Bytes): Bytes {
      Bytes(up + b.up, down + b.down)
    }
  }

  const Zero := Bytes(0, 0)

  predicate Le(a: Bytes, b: Bytes) {
    a.up <= b.up && a.down <= b.down
  }

  type Key = (nat, nat)

  type Stats = seq<(string, Bytes)>

  // --- whose counter it is ---------------------------------------------------------------------------

  const USER := "user_"
  const SUB := "_sub_"
  const DEV := "_dev_"

  /** `f"user_{user}_sub_{sub}"`, and the same with a device. */
  function Email(user: nat, sub: nat): string {
    USER + (Dec(user) + (SUB + Dec(sub)))
  }

  function DeviceEmail(user: nat, sub: nat, device: nat): string {
    USER + (Dec(user) + (SUB + (Dec(sub) + (DEV + Dec(device)))))
  }

  /** What follows `text`, if `s` starts with it. */
  function After(text: string, s: string): Option<string> {
    if text <= s then Some(s[|text|..]) else None
  }

  /** A decimal and what follows it. */
  function Number(s: string): Option<(nat, string)> {
    var n := Span(s);
    if n == 0 then None else Some((Value(s[..n]), s[n..]))
  }

  predicate DeviceTail(s: string) {
    s == "" || (After(DEV, s).Some? && Number(After(DEV, s).value).Some? && Number(After(DEV, s).value).value.1 == "")
  }

  /** An email names a user and a subscription, and perhaps a device: the first two are the key. */
  function ParseEmail(email: string): Option<Key> {
    var a := After(USER, email);
    if a.None? then None else
    var user := Number(a.value);
    if user.None? then None else
    var b := After(SUB, user.value.1);
    if b.None? then None else
    var sub := Number(b.value);
    if sub.None? || !DeviceTail(sub.value.1) then None
    else Some((user.value.0, sub.value.0))
  }

  lemma AfterText(text: string, rest: string)
    ensures After(text, text + rest) == Some(rest)
  {
  }

  lemma NumberText(n: nat, rest: string)
    requires rest == "" || !IsDigit(rest[0])
    ensures Number(Dec(n) + rest) == Some((n, rest))
  {
    SpanOf(Dec(n), rest);
    DecRoundTrip(n);
    assert (Dec(n) + rest)[..|Dec(n)|] == Dec(n);
  }

  /** Every counter name the agents use is credited to its own subscription. */
  lemma EmailRoundTrip(user: nat, sub: nat, device: nat)
    ensures ParseEmail(Email(user, sub)) == Some((user, sub))
    ensures ParseEmail(DeviceEmail(user, sub, device)) == Some((user, sub))
  {
    AfterText(USER, Dec(user) + (SUB + Dec(sub)));
    NumberText(user, SUB + Dec(sub));
    AfterText(SUB, Dec(sub));
    NumberText(sub, "");
    assert Dec(sub) + "" == Dec(sub);
    DeviceRoundTrip(user, sub, device);
  }

  lemma DeviceRoundTrip(user: nat, sub: nat, device: nat)
    ensures ParseEmail(DeviceEmail(user, sub, device)) == Some((user, sub))
  {
    AfterText(USER, Dec(user) + (SUB + (Dec(sub) + (DEV + Dec(device)))));
    NumberText(user, SUB + (Dec(sub) + (DEV + Dec(device))));
    AfterText(SUB, Dec(sub) + (DEV + Dec(device)));
    NumberText(sub, DEV + Dec(device));
    AfterText(DEV, Dec(device));
    NumberText(device, "");
    assert Dec(device) + "" == Dec(device);
  }

  function BelongsTo(key: Key): ((string, Bytes)) -> bool {
    (e: (string, Bytes)) => ParseEmail(e.0) == Some(key)
  }

  lemma FilterOne(key: Key, e: (string, Bytes))
    ensures Filter(BelongsTo(key), [e]) == if ParseEmail(e.0) == Some(key) then [e] else []
  {
    assert [e][1..] == [];
  }

  lemma EmptyGroups()
    ensures forall key: Key :: Filter(BelongsTo(key), []) == []
  {
  }

  /** Groups the counters by subscription in one pass. */
  method IndexStats(stats: Stats) returns (index: map<Key, Stats>)
    ensures forall key :: key in index ==> index[key] == Filter(BelongsTo(key), stats) && index[key] != []
    ensures forall key :: key !in index ==> Filter(BelongsTo(key), stats) == []
  {
    hide Filter, ParseEmail;
    index := map[];
    EmptyGroups();
    for k := 0 to |stats|
      invariant forall key :: key in index ==> index[key] == Filter(BelongsTo(key), stats[..k]) && index[key] != []
      invariant forall key :: key !in index ==> Filter(BelongsTo(key), stats[..k]) == []
    {
      var e := stats[k];
      assert stats[..k + 1] == stats[..k] + [e];
      forall key ensures Filter(BelongsTo(key), stats[..k + 1]) ==
                         Filter(BelongsTo(key), stats[..k]) + if ParseEmail(e.0) == Some(key) then [e] else []
      {
        FilterConcat(BelongsTo(key), stats[..k], [e]);
        FilterOne(key, e);
      }
      var parsed := ParseEmail(e.0);
      if parsed.None? {
        continue;
      }
      var key := parsed.value;
      var group := if key in index then index[key] else [];
      index := index[key := group + [e]];
    }
    assert stats[..|stats|] == stats;
  }

  // --- one poll ----------------------------------------------------------------------------------------

  datatype Link = Link(subId: nat, cursors: map<string, Bytes>, total: Bytes)

  datatype Sub = Sub(userId: nat, total: Bytes)

  /** One server's links, the subscriptions, and the server's own total. */
  datatype Tables = Tables(active: bool, links: seq<Link>, subs: map<nat, Sub>, server: Bytes)

  function Step1(last: nat, cur: nat): nat {
    if cur < last then cur else cur - last
  }

  /** Nothing the first time; after that the growth, or all of a counter that started over. */
  function Delta(last: Option<Bytes>, cur: Bytes): Bytes {
    match last
    case None => Zero
    case Some(l) => Bytes(Step1(l.up, cur.up), Step1(l.down, cur.down))
  }

  function CursorOf(cursors: map<string, Bytes>, email: string): Option<Bytes> {
    if email in cursors then Some(cursors[email]) else None
  }

  function Cursors(cursors: map<string, Bytes>, entries: Stats): map<string, Bytes> {
    if entries == [] then cursors
    else
      var n := |entries| - 1;
      Cursors(cursors, entries[..n])[entries[n].0 := entries[n].1]
  }

  function Gain(cursors: map<string, Bytes>, entries: Stats): Bytes {
    if entries == [] then Zero
    else
      var n := |entries| - 1;
      Gain(cursors, entries[..n]).Plus(Delta(CursorOf(cursors, entries[n].0), entries[n].1))
  }

  ghost predicate DistinctEmails(stats: Stats) {
    forall i, j :: 0 <= i < j < |stats| ==> stats[i].0 != stats[j].0
  }

  /** Each email's cursor is its own: the others in the poll do not move it. */
  lemma {:induction false} CursorsAt(cursors: map<string, Bytes>, entries: Stats, email: string)
    ensures (forall e :: e in entries ==> e.0 != email) ==>
              CursorOf(Cursors(cursors, entries), email) == CursorOf(cursors, email)
    ensures DistinctEmails(entries) ==> forall e :: e in entries && e.0 == email ==>
              CursorOf(Cursors(cursors, entries), email) == Some(e.1)
  {
    if entries != [] {
      var n := |entries| - 1;
      CursorsAt(cursors, entries[..n], email);
      assert entries == entries[..n] + [entries[n]];
    }
  }

  function EntriesOf(t: Tables, link: Link, stats: Stats): Stats {
    if link.subId !in t.subs then [] else Filter(BelongsTo((t.subs[link.subId].userId, link.subId)), stats)
  }

  /** The rows after the first `n` links. */
  function ApplyLinks(t: Tables, stats: Stats, n: nat): Tables
    requires n <= |t.links|
    ensures var r := ApplyLinks(t, stats, n);
            && |r.links| == |t.links| && r.subs.Keys == t.subs.Keys && r.active == t.active
            && (forall i :: n <= i < |t.links| ==> r.links[i] == t.links[i])
            && (forall id :: id in t.subs ==> r.subs[id].userId == t.subs[id].userId)
  {
    if n == 0 then t
    else
      var before := ApplyLinks(t, stats, n - 1);
      var link := t.links[n - 1];
      if link.subId !in t.subs then before
      else
        var entries := EntriesOf(t, link, stats);
        var gain := Gain(link.cursors, entries);
        var sub := before.subs[link.subId];
        before.(links := before.links[n - 1 := Link(link.subId, Cursors(link.cursors, entries), link.total.Plus(gain))],
                subs := before.subs[link.subId := sub.(total := sub.total.Plus(gain))],
                server := before.server.Plus(gain))
  }

  function Apply(t: Tables, stats: Stats): Tables {
    if stats == [] || !t.active then t else ApplyLinks(t, stats, |t.links|)
  }

  /** One link's counters: the new cursors and what is to be credited. */
  method FoldEntries(known: map<string, Bytes>, entries: Stats) returns (cursors: map<string, Bytes>, delta: Bytes)
    requires DistinctEmails(entries)
    ensures cursors == Cursors(known, entries) && delta == Gain(known, entries)
  {
    cursors, delta := known, Zero;
    for i := 0 to |entries|
      invariant cursors == Cursors(known, entries[..i]) && delta == Gain(known, entries[..i])
    {
      var email, cur := entries[i].0, entries[i].1;
      assert entries[..i + 1][..i] == entries[..i];
      CursorsAt(known, entries[..i], email);
      if email in cursors {
        delta := delta.Plus(Delta(Some(cursors[email]), cur));
      }
      cursors := cursors[email := cur];
    }
    assert entries[..|entries|] == entries;
  }

  /** The rows as the poller updates them in place. */
  class TrafficTables {
    var active: bool
    var links: seq<Link>
    var subs: map<nat, Sub>
    var server: Bytes

    function View(): Tables
      reads this
    {
      Tables(active, links, subs, server)
    }

    constructor (t: Tables)
      ensures View() == t
    {
      active, links, subs, server := t.active, t.links, t.subs, t.server;
    }

    /** `_apply_traffic_stats`. */
    method ApplyStats(stats: Stats)
      requires DistinctEmails(stats)
      modifies this
      ensures View() == Apply(old(View()), stats)
    {
      if stats == [] {
        return;
      }
      var index := IndexStats(stats);
      if !active {
        return;
      }
      ghost var t := View();
      for k := 0 to |links|
        invariant |links| == |t.links| && View() == ApplyLinks(t, stats, k)
      {
        ApplyLink(k, t, stats, index);
      }
    }

    method ApplyLink(k: nat, ghost t: Tables, ghost stats: Stats, index: map<Key, Stats>)
      requires DistinctEmails(stats) && k < |links| == |t.links| && View() == ApplyLinks(t, stats, k)
      requires forall key :: key in index ==> index[key] == Filter(BelongsTo(key), stats)
      requires forall key :: key !in index ==> Filter(BelongsTo(key), stats) == []
      modifies this
      ensures |links| == |t.links| && View() == ApplyLinks(t, stats, k + 1)
    {
      hide ApplyLinks, Filter, Gain, Cursors, BelongsTo;
      ApplyLinksShape(t, stats, k);
      var link := links[k];
      if link.subId !in subs {
        SkipLink(t, stats, k);
        return;
      }
      var sub := subs[link.subId];
      var key := (sub.userId, link.subId);
      var entries := if key in index then index[key] else [];
      assert entries == EntriesOf(t, link, stats);
      if entries == [] {
        ApplyLinkIs(t, stats, k);
        assert Gain(link.cursors, []) == Zero && Cursors(link.cursors, []) == link.cursors by { NoEntries(link.cursors); }
        assert links[k := link] == links && subs[link.subId := sub] == subs;
        return;
      }
      FilteredDistinct(stats, key);
      var cursors, delta := FoldEntries(link.cursors, entries);
      ApplyLinkIs(t, stats, k);
      links := links[k := Link(link.subId, cursors, link.total.Plus(delta))];
      subs := subs[link.subId := sub.(total := sub.total.Plus(delta))];
      server := server.Plus(delta);
    }
  }

  lemma NoEntries(cursors: map<string, Bytes>)
    ensures Gain(cursors, []) == Zero && Cursors(cursors, []) == cursors
  {
  }

  lemma ApplyLinksShape(t: Tables, stats: Stats, k: nat)
    requires k < |t.links|
    ensures var r := ApplyLinks(t, stats, k); r.links[k] == t.links[k] && r.subs.Keys == t.subs.Keys
  {
  }

  lemma SkipLink(t: Tables, stats: Stats, k: nat)
    requires k < |t.links| && t.links[k].subId !in t.subs
    ensures ApplyLinks(t, stats, k + 1) == ApplyLinks(t, stats, k)
  {
  }

  lemma ApplyLinkIs(t: Tables, stats: Stats, k: nat)
    requires k < |t.links| && t.links[k].subId in t.subs
    ensures var before := ApplyLinks(t, stats, k); var link := t.links[k];
            var entries := EntriesOf(t, link, stats); var gain := Gain(link.cursors, entries);
            var sub := before.subs[link.subId];
            ApplyLinks(t, stats, k + 1) ==
            before.(links := before.links[k := Link(link.subId, Cursors(link.cursors, entries), link.total.Plus(gain))],
                    subs := before.subs[link.subId := sub.(total := sub.total.Plus(gain))],
                    server := before.server.Plus(gain))
  {
  }

  lemma {:induction false} FilteredDistinct(stats: Stats, key: Key)
    requires DistinctEmails(stats)
    ensures DistinctEmails(Filter(BelongsTo(key), stats))
  {
    if stats != [] {
      FilteredDistinct(stats[1..], key);
      var tail := Filter(BelongsTo(key), stats[1..]);
      forall e | e in tail ensures e.0 != stats[0].0 {
        FilterMember(BelongsTo(key), stats[1..], e);
        var i :| 0 <= i < |stats[1..]| && stats[1..][i] == e;
        assert stats[i + 1] == e;
      }
    }
  }
}
