/** What traffic accounting guarantees: in each poll nothing is lost between the tables, and over
    whole runs no byte is credited twice. */
module TrafficSafety {
  import opened Wrappers
  import opened Seqs
  import opened Traffic

  lemma PlusAssoc(a: Bytes, b: Bytes, c: Bytes)
    ensures a.Plus(b).Plus(c) == a.Plus(b.Plus(c))
  {
  }

  lemma PlusZero(a: Bytes)
    ensures a.Plus(Zero) == a == Zero.Plus(a)
  {
  }

  lemma PlusSwap(a: Bytes, b: Bytes, c: Bytes, d: Bytes)
    ensures a.Plus(b).Plus(c.Plus(d)) == a.Plus(c).Plus(b.Plus(d))
  {
  }

  // --- one poll conserves ------------------------------------------------------------------------------

  function LinkGain(t: Tables, stats: Stats, i: nat): Bytes
    requires i < |t.links|
  {
    if t.links[i].subId in t.subs then Gain(t.links[i].cursors, EntriesOf(t, t.links[i], stats)) else Zero
  }

  function SumLinks(t: Tables, stats: Stats, n: nat): Bytes
    requires n <= |t.links|
  {
    if n == 0 then Zero else SumLinks(t, stats, n - 1).Plus(LinkGain(t, stats, n - 1))
  }

  ghost function TotalOf(subs: map<nat, Sub>): Bytes {
    if subs == map[] then Zero
    else
      var id: nat :| id in subs;
      TotalOf(subs - {id}).Plus(subs[id].total)
  }

  lemma {:induction false} TotalPick(subs: map<nat, Sub>, id: nat)
    requires id in subs
    ensures TotalOf(subs) == TotalOf(subs - {id}).Plus(subs[id].total)
  {
    var first: nat :| first in subs && TotalOf(subs) == TotalOf(subs - {first}).Plus(subs[first].total);
    if first != id {
      TotalPick(subs - {first}, id);
      TotalPick(subs - {id}, first);
      var rest := TotalOf(subs - {first} - {id});
      assert subs - {first} - {id} == subs - {id} - {first};
      assert (subs - {first})[id] == subs[id] && (subs - {id})[first] == subs[first];
      assert TotalOf(subs - {first}) == rest.Plus(subs[id].total);
      assert TotalOf(subs - {id}) == rest.Plus(subs[first].total);
      assert TotalOf(subs) == rest.Plus(subs[id].total).Plus(subs[first].total);
    }
  }

  lemma TotalUpdate(subs: map<nat, Sub>, id: nat, gain: Bytes)
    requires id in subs
    ensures TotalOf(subs[id := subs[id].(total := subs[id].total.Plus(gain))]) == TotalOf(subs).Plus(gain)
  {
    var after := subs[id := subs[id].(total := subs[id].total.Plus(gain))];
    TotalPick(subs, id);
    TotalPick(after, id);
    assert after - {id} == subs - {id};
  }

  /** Each of the first `n` links has its own gain and cursors, and the gains add up. */
  lemma {:induction false} ApplyConserves(t: Tables, stats: Stats, n: nat)
    requires n <= |t.links|
    ensures var r := ApplyLinks(t, stats, n);
            && r.server == t.server.Plus(SumLinks(t, stats, n))
            && TotalOf(r.subs) == TotalOf(t.subs).Plus(SumLinks(t, stats, n))
            && forall i :: 0 <= i < n ==> r.links[i] == PolledLink(t, stats, i)
  {
    hide PolledLink, LinkGain, ApplyLinks, TotalOf, Bytes.Plus;
    if n == 0 {
      NoLinks(t, stats);
      PlusZero(t.server);
      PlusZero(TotalOf(t.subs));
    } else {
      ApplyConserves(t, stats, n - 1);
      OneMoreLink(t, stats, n - 1);
      PlusAssoc(t.server, SumLinks(t, stats, n - 1), LinkGain(t, stats, n - 1));
      PlusAssoc(TotalOf(t.subs), SumLinks(t, stats, n - 1), LinkGain(t, stats, n - 1));
    }
  }

  function PolledLink(t: Tables, stats: Stats, i: nat): Link
    requires i < |t.links|
  {
    var link := t.links[i];
    Link(link.subId, Cursors(link.cursors, EntriesOf(t, link, stats)), link.total.Plus(LinkGain(t, stats, i)))
  }

  lemma NoLinks(t: Tables, stats: Stats)
    ensures ApplyLinks(t, stats, 0) == t
  {
  }

  lemma OneMoreLink(t: Tables, stats: Stats, k: nat)
    requires k < |t.links|
    ensures var before, r := ApplyLinks(t, stats, k), ApplyLinks(t, stats, k + 1);
            && r.links == before.links[k := PolledLink(t, stats, k)]
            && r.server == before.server.Plus(LinkGain(t, stats, k))
            && TotalOf(r.subs) == TotalOf(before.subs).Plus(LinkGain(t, stats, k))
  {
    hide Gain, Filter, Cursors, TotalOf, ApplyLinks;
    ApplyLinksShape(t, stats, k);
    var link := t.links[k];
    if link.subId in t.subs {
      ApplyLinkIs(t, stats, k);
      TotalUpdate(ApplyLinks(t, stats, k).subs, link.subId, LinkGain(t, stats, k));
    } else {
      SkipLink(t, stats, k);
      NoEntriesOf(t, link, stats);
    }
  }

  lemma NoEntriesOf(t: Tables, link: Link, stats: Stats)
    requires link.subId !in t.subs
    ensures Cursors(link.cursors, EntriesOf(t, link, stats)) == link.cursors
  {
  }

  ghost predicate UniqueLinks(t: Tables) {
    forall i, j :: 0 <= i < j < |t.links| ==> t.links[i].subId != t.links[j].subId
  }

  /** The link whose subscription an email names. */
  ghost predicate Owns(t: Tables, i: nat, email: string) {
    && i < |t.links| && t.links[i].subId in t.subs
    && ParseEmail(email) == Some((t.subs[t.links[i].subId].userId, t.links[i].subId))
  }

  /** What one counter of a sample is worth, seen by the first `m` links. */
  ghost function CreditBy(t: Tables, email: string, cur: Bytes, m: nat): Bytes
    requires m <= |t.links|
  {
    if m == 0 then Zero
    else if Owns(t, m - 1, email) then Delta(CursorOf(t.links[m - 1].cursors, email), cur)
    else CreditBy(t, email, cur, m - 1)
  }

  ghost function Credit(t: Tables, email: string, cur: Bytes): Bytes {
    CreditBy(t, email, cur, |t.links|)
  }

  lemma {:induction false} CreditOwner(t: Tables, email: string, cur: Bytes, m: nat)
    requires UniqueLinks(t) && m <= |t.links|
    ensures forall i: nat :: i < m && Owns(t, i, email) ==>
              CreditBy(t, email, cur, m) == Delta(CursorOf(t.links[i].cursors, email), cur)
    ensures (forall i: nat :: i < m ==> !Owns(t, i, email)) ==> CreditBy(t, email, cur, m) == Zero
  {
    hide Delta;
    if m > 0 {
      CreditOwner(t, email, cur, m - 1);
    }
  }

  ghost function SumCredits(t: Tables, stats: Stats): Bytes {
    if stats == [] then Zero
    else
      var n := |stats| - 1;
      SumCredits(t, stats[..n]).Plus(Credit(t, stats[n].0, stats[n].1))
  }

  lemma OneMoreEntry(t: Tables, stats: Stats, i: nat)
    requires stats != [] && i < |t.links|
    ensures var n := |stats| - 1; var email, cur := stats[n].0, stats[n].1;
            LinkGain(t, stats, i) == LinkGain(t, stats[..n], i).Plus(
              if Owns(t, i, email) then Delta(CursorOf(t.links[i].cursors, email), cur) else Zero)
  {
    hide Filter, Delta, ParseEmail, Bytes.Plus, BelongsTo;
    var n := |stats| - 1;
    var link := t.links[i];
    if link.subId in t.subs {
      var key := (t.subs[link.subId].userId, link.subId);
      var before, last := Filter(BelongsTo(key), stats[..n]), stats[n];
      assert stats == stats[..n] + [last];
      FilterConcat(BelongsTo(key), stats[..n], [last]);
      FilterOne(key, last);
      if ParseEmail(last.0) == Some(key) {
        assert EntriesOf(t, link, stats) == before + [last];
        assert (before + [last])[..|before|] == before;
      } else {
        assert EntriesOf(t, link, stats) == before + [] == before;
        PlusZero(Gain(link.cursors, before));
      }
    } else {
      PlusZero(Zero);
    }
  }

  /** An email has one owner at most. */
  lemma OneOwner(t: Tables, i: nat, j: nat, email: string)
    requires UniqueLinks(t) && Owns(t, i, email) && Owns(t, j, email)
    ensures i == j
  {
  }

  lemma CreditByNext(t: Tables, email: string, cur: Bytes, m: nat)
    requires UniqueLinks(t) && m < |t.links|
    ensures CreditBy(t, email, cur, m + 1) == CreditBy(t, email, cur, m).Plus(
              if Owns(t, m, email) then Delta(CursorOf(t.links[m].cursors, email), cur) else Zero)
  {
    hide Delta, Owns, UniqueLinks;
    CreditOwner(t, email, cur, m);
    if Owns(t, m, email) {
      forall i: nat | i < m ensures !Owns(t, i, email) {
        if Owns(t, i, email) {
          OneOwner(t, i, m, email);
        }
      }
      assert CreditBy(t, email, cur, m) == Zero;
    }
  }

  /** One more counter adds its credit, once its owner is among the links summed. */
  lemma {:induction false} OneMoreSum(t: Tables, stats: Stats, m: nat)
    requires stats != [] && m <= |t.links| && UniqueLinks(t)
    ensures var n := |stats| - 1;
            SumLinks(t, stats, m) == SumLinks(t, stats[..n], m).Plus(CreditBy(t, stats[n].0, stats[n].1, m))
  {
    hide LinkGain, Delta, Owns, UniqueLinks, Bytes.Plus;
    var n := |stats| - 1;
    if m > 0 {
      OneMoreSum(t, stats, m - 1);
      OneMoreEntry(t, stats, m - 1);
      var email, cur := stats[n].0, stats[n].1;
      CreditByNext(t, email, cur, m - 1);
      PlusSwap(SumLinks(t, stats[..n], m - 1), CreditBy(t, email, cur, m - 1), LinkGain(t, stats[..n], m - 1),
               if Owns(t, m - 1, email) then Delta(CursorOf(t.links[m - 1].cursors, email), cur) else Zero);
    } else {
      PlusZero(Zero);
    }
  }

  /** What the links gain is the sum of what the counters are worth: each is credited once. */
  lemma {:induction false} GainsAreCredits(t: Tables, stats: Stats)
    requires UniqueLinks(t)
    ensures SumLinks(t, stats, |t.links|) == SumCredits(t, stats)
  {
    hide SumLinks, CreditBy, UniqueLinks;
    if stats == [] {
      NothingGained(t, |t.links|);
    } else {
      var n := |stats| - 1;
      GainsAreCredits(t, stats[..n]);
      OneMoreSum(t, stats, |t.links|);
    }
  }

  lemma {:induction false} NothingGained(t: Tables, n: nat)
    requires n <= |t.links|
    ensures SumLinks(t, [], n) == Zero
  {
    if n > 0 {
      NothingGained(t, n - 1);
    }
  }

  /** One poll: the server's increment is the sum of its links' increments, of the subscriptions'
      increments, and of the credits of the counters. */
  lemma PollConserves(t: Tables, stats: Stats)
    requires UniqueLinks(t) && t.active
    ensures var r := Apply(t, stats); var gained := SumCredits(t, stats);
            && r.server == t.server.Plus(gained)
            && TotalOf(r.subs) == TotalOf(t.subs).Plus(gained)
            && SumLinks(t, stats, |t.links|) == gained
            && |r.links| == |t.links|
            && forall i :: 0 <= i < |t.links| ==> r.links[i].total == t.links[i].total.Plus(LinkGain(t, stats, i))
  {
    hide LinkGain, SumLinks, TotalOf, SumCredits, ApplyLinks;
    GainsAreCredits(t, stats);
    if stats != [] {
      ApplyConserves(t, stats, |t.links|);
    } else {
      NothingGained(t, |t.links|);
      forall i | 0 <= i < |t.links| ensures LinkGain(t, stats, i) == Zero {
        NoGain(t, i);
      }
    }
  }

  lemma NoGain(t: Tables, i: nat)
    requires i < |t.links|
    ensures LinkGain(t, [], i) == Zero
  {
  }

  // --- whole runs ------------------------------------------------------------------------------------------

  type Counters = map<string, Bytes>

  function At(m: Counters, email: string): Bytes {
    if email in m then m[email] else Zero
  }

  /** The tables, Xray's counters and the last sample taken of them; and, as history, the bytes that
      really moved (now, at the sample, at the last credit) and the bytes credited. */
  datatype World = World(
    tables: Tables, counters: Counters, sample: Counters,
    moved: Counters, sampleMoved: Counters, creditedAt: Counters, credited: Counters)

  datatype Event =
    | Move(email: string, bytes: Bytes)
    | Restart
    | Sample
    | Poll(stats: Stats)
    | Unlink(i: nat)
    | Relink(subId: nat)
    | Edit(active: bool, subs: map<nat, Sub>)

  /** A sample as a JSON object lists it. */
  ghost predicate Lists(stats: Stats, sample: Counters) {
    && DistinctEmails(stats)
    && (forall e :: e in stats ==> e.0 in sample && e.1 == sample[e.0])
    && (forall email :: email in sample ==> (email, sample[email]) in stats)
  }

  ghost predicate IsOwned(t: Tables, email: string) {
    exists i: nat :: Owns(t, i, email)
  }

  /** The same sample may be polled again, and a poll may come long after its sample. */
  ghost function Next(w: World, e: Event): Option<World> {
    match e
    case Move(email, bytes) =>
      Some(w.(counters := w.counters[email := At(w.counters, email).Plus(bytes)],
              moved := w.moved[email := At(w.moved, email).Plus(bytes)]))
    case Restart => Some(w.(counters := map[]))
    case Sample => Some(w.(sample := w.counters, sampleMoved := w.moved))
    case Poll(stats) =>
      if !Lists(stats, w.sample) then None
      else if !w.tables.active then Some(w)
      else
        Some(w.(tables := Apply(w.tables, stats),
                credited := map email | email in w.credited.Keys + w.sample.Keys ::
                  At(w.credited, email).Plus(if email in w.sample then Credit(w.tables, email, w.sample[email]) else Zero),
                creditedAt := map email | email in w.creditedAt.Keys + w.sample.Keys ::
                  if email in w.sample && IsOwned(w.tables, email) then At(w.sampleMoved, email) else At(w.creditedAt, email)))
    case Unlink(i) =>
      if i >= |w.tables.links| then None
      else Some(w.(tables := w.tables.(links := w.tables.links[..i] + w.tables.links[i + 1..])))
    case Relink(subId) =>
      if exists i :: 0 <= i < |w.tables.links| && w.tables.links[i].subId == subId then None
      else Some(w.(tables := w.tables.(links := w.tables.links + [Link(subId, map[], Zero)])))
    case Edit(active, subs) => Some(w.(tables := w.tables.(active := active, subs := subs)))
  }

  /** From reading `a` when `ma` had moved to reading `b` when `mb` had: all of the growth moved. */
  predicate Same(a: Bytes, ma: Bytes, b: Bytes, mb: Bytes) {
    b.up - a.up == mb.up - ma.up && b.down - a.down == mb.down - ma.down
  }

  /** ... or the counter restarted in between, and everything it shows moved since. */
  predicate Rel(a: Bytes, ma: Bytes, b: Bytes, mb: Bytes) {
    Le(ma, mb) && (Same(a, ma, b, mb) || (b.up <= mb.up - ma.up && b.down <= mb.down - ma.down))
  }

  lemma RelTrans(a: Bytes, ma: Bytes, b: Bytes, mb: Bytes, c: Bytes, mc: Bytes)
    requires Rel(a, ma, b, mb) && Rel(b, mb, c, mc)
    ensures Rel(a, ma, c, mc)
  {
  }

  ghost predicate EmailOk(w: World, email: string) {
    && Le(At(w.credited, email), At(w.creditedAt, email))
    && Le(At(w.creditedAt, email), At(w.sampleMoved, email))
    && Rel(At(w.sample, email), At(w.sampleMoved, email), At(w.counters, email), At(w.moved, email))
  }

  ghost predicate CursorOk(w: World, i: nat, email: string)
    requires i < |w.tables.links|
  {
    email in w.tables.links[i].cursors ==>
      && ParseEmail(email).Some? && ParseEmail(email).value.1 == w.tables.links[i].subId
      && Rel(w.tables.links[i].cursors[email], At(w.creditedAt, email), At(w.sample, email), At(w.sampleMoved, email))
  }

  ghost predicate WorldInv(w: World) {
    && UniqueLinks(w.tables)
    && (forall email :: EmailOk(w, email))
    && (forall i: nat, email :: i < |w.tables.links| ==> CursorOk(w, i, email))
  }

  // --- the poll step ------------------------------------------------------------------------------------------

  /** Where a cursor stands after a poll: at the sample if the poll listed the email, else where it was. */
  lemma PolledCursor(t: Tables, stats: Stats, sample: Counters, i: nat, email: string)
    requires t.active && Lists(stats, sample) && i < |t.links|
    ensures var r := Apply(t, stats);
            && |r.links| == |t.links| && r.links[i].subId == t.links[i].subId
            && CursorOf(r.links[i].cursors, email) ==
               if email in sample && Owns(t, i, email) then Some(sample[email]) else CursorOf(t.links[i].cursors, email)
  {
    hide Cursors, Filter, DistinctEmails, ParseEmail, LinkGain, ApplyLinks;
    var link := t.links[i];
    if stats != [] {
      ApplyConserves(t, stats, |t.links|);
    }
    if email in sample {
      assert (email, sample[email]) in stats;
    }
    EntriesExact(t, link, stats, email);
    assert DistinctEmails(stats);
    if link.subId in t.subs {
      FilteredDistinct(stats, (t.subs[link.subId].userId, link.subId));
    }
    var entries := EntriesOf(t, link, stats);
    CursorsAt(link.cursors, entries, email);
    if email in sample && Owns(t, i, email) {
      assert (email, sample[email]) in entries;
    } else {
      forall e | e in entries ensures e.0 != email {
        EntriesExact(t, link, stats, e.0);
      }
    }
  }

  lemma EntriesExact(t: Tables, link: Link, stats: Stats, email: string)
    ensures forall cur :: (email, cur) in EntriesOf(t, link, stats) <==>
              (email, cur) in stats && link.subId in t.subs && ParseEmail(email) == Some((t.subs[link.subId].userId, link.subId))
  {
    if link.subId in t.subs {
      var key := (t.subs[link.subId].userId, link.subId);
      forall cur ensures (email, cur) in Filter(BelongsTo(key), stats) <==> (email, cur) in stats && ParseEmail(email) == Some(key) {
        FilterMember(BelongsTo(key), stats, (email, cur));
      }
    }
  }

  lemma CreditIs(t: Tables, i: nat, email: string, cur: Bytes)
    requires UniqueLinks(t) && Owns(t, i, email)
    ensures Credit(t, email, cur) == Delta(CursorOf(t.links[i].cursors, email), cur)
  {
    hide Delta;
    CreditOwner(t, email, cur, |t.links|);
  }

  lemma NoCredit(t: Tables, email: string, cur: Bytes)
    requires UniqueLinks(t) && !IsOwned(t, email)
    ensures Credit(t, email, cur) == Zero
  {
    hide Delta;
    CreditOwner(t, email, cur, |t.links|);
  }

  /** What a poll does to one email's history. */
  lemma PollAt(w: World, stats: Stats, email: string)
    requires Lists(stats, w.sample) && w.tables.active
    ensures Next(w, Poll(stats)).Some?
    ensures var w' := Next(w, Poll(stats)).value;
            && w'.counters == w.counters && w'.moved == w.moved && w'.sample == w.sample && w'.sampleMoved == w.sampleMoved
            && w'.tables == Apply(w.tables, stats)
            && At(w'.credited, email) == At(w.credited, email).Plus(
                 if email in w.sample then Credit(w.tables, email, w.sample[email]) else Zero)
            && At(w'.creditedAt, email) ==
               if email in w.sample && IsOwned(w.tables, email) then At(w.sampleMoved, email) else At(w.creditedAt, email)
  {
    hide Apply, Credit, IsOwned, Lists, Bytes.Plus;
    PlusZero(At(w.credited, email));
  }

  /** One reading after another: what is credited stays below what moved. */
  lemma CreditBound(credited: Bytes, at: Bytes, last: Option<Bytes>, cur: Bytes, moved: Bytes)
    requires Le(credited, at) && Le(at, moved) && (last.Some? ==> Rel(last.value, at, cur, moved))
    ensures Le(credited.Plus(Delta(last, cur)), moved)
    ensures last.Some? && Same(last.value, at, cur, moved) ==>
              var after := credited.Plus(Delta(last, cur));
              moved.up - after.up == at.up - credited.up && moved.down - after.down == at.down - credited.down
  {
  }

  /** A poll credits an email with no more than moved between its last two readings. */
  lemma PollEmail(w: World, stats: Stats, email: string)
    requires WorldInv(w) && Lists(stats, w.sample) && w.tables.active
    ensures EmailOk(Next(w, Poll(stats)).value, email)
  {
    hide Owns, UniqueLinks, Delta, ParseEmail, Apply, Credit, Next, Bytes.Plus, Rel, Le, Same;
    PollAt(w, stats, email);
    assert EmailOk(w, email);
    PlusZero(At(w.credited, email));
    LeSelf(At(w.sampleMoved, email));
    if email in w.sample {
      if i: nat :| Owns(w.tables, i, email) {
        OwnedLink(w.tables, i, email);
        CreditIs(w.tables, i, email, w.sample[email]);
        assert CursorOk(w, i, email);
        CreditBound(At(w.credited, email), At(w.creditedAt, email), CursorOf(w.tables.links[i].cursors, email),
                    w.sample[email], At(w.sampleMoved, email));
      } else {
        NoCredit(w.tables, email, w.sample[email]);
      }
    }
  }

  lemma LeSelf(a: Bytes)
    ensures Le(a, a)
  {
  }

  lemma OwnedLink(t: Tables, i: nat, email: string)
    requires Owns(t, i, email)
    ensures i < |t.links| && ParseEmail(email).Some? && ParseEmail(email).value.1 == t.links[i].subId
  {
  }

  lemma SameOwner(t: Tables, i: nat, email: string)
    requires UniqueLinks(t) && i < |t.links| && IsOwned(t, email)
    requires ParseEmail(email).Some? && ParseEmail(email).value.1 == t.links[i].subId
    ensures Owns(t, i, email)
  {
    hide ParseEmail;
    var j: nat :| Owns(t, j, email);
  }

  lemma PollCursor(w: World, stats: Stats, i: nat, email: string)
    requires WorldInv(w) && Lists(stats, w.sample) && w.tables.active && i < |w.tables.links|
    ensures var w' := Next(w, Poll(stats)).value; i < |w'.tables.links| && CursorOk(w', i, email)
  {
    hide Owns, UniqueLinks, Delta, ParseEmail, Apply, Credit, Next;
    PollAt(w, stats, email);
    var t := w.tables;
    PolledCursor(t, stats, w.sample, i, email);
    assert CursorOk(w, i, email) && EmailOk(w, email);
    if email in w.sample && Owns(t, i, email) {
      OwnedLink(t, i, email);
    } else if email in t.links[i].cursors && email in w.sample && IsOwned(t, email) {
      SameOwner(t, i, email);
      assert false;
    }
  }

  lemma PollKeeps(w: World, stats: Stats)
    requires WorldInv(w) && Next(w, Poll(stats)).Some?
    ensures WorldInv(Next(w, Poll(stats)).value)
  {
    hide EmailOk, CursorOk, Apply, Owns;
    if w.tables.active {
      var w' := Next(w, Poll(stats)).value;
      forall email ensures EmailOk(w', email) {
        PollEmail(w, stats, email);
      }
      PolledLinks(w.tables, stats, w.sample);
      forall i: nat, email | i < |w'.tables.links| ensures CursorOk(w', i, email) {
        PollCursor(w, stats, i, email);
      }
    }
  }

  lemma PolledLinks(t: Tables, stats: Stats, sample: Counters)
    requires t.active && Lists(stats, sample)
    ensures var r := Apply(t, stats);
            |r.links| == |t.links| && forall i :: 0 <= i < |t.links| ==> r.links[i].subId == t.links[i].subId
  {
    hide Apply;
    if |t.links| > 0 {
      PolledCursor(t, stats, sample, 0, "");
    } else {
      ApplyEmpty(t, stats);
    }
    forall i | 0 <= i < |t.links| ensures Apply(t, stats).links[i].subId == t.links[i].subId {
      PolledCursor(t, stats, sample, i, "");
    }
  }

  lemma ApplyEmpty(t: Tables, stats: Stats)
    requires t.links == []
    ensures Apply(t, stats).links == []
  {
  }

  // --- the other steps ------------------------------------------------------------------------------------------

  /** Moving bytes, losing the counters and reading them keep the readings related. */
  lemma ReadingsKeep(w: World, e: Event, email: string)
    requires EmailOk(w, email) && (e.Move? || e.Restart? || e.Sample?)
    ensures EmailOk(Next(w, e).value, email)
    ensures var w' := Next(w, e).value; Rel(At(w.sample, email), At(w.sampleMoved, email), At(w'.sample, email), At(w'.sampleMoved, email))
  {
  }

  lemma CountersKeep(w: World, e: Event)
    requires WorldInv(w) && Next(w, e).Some? && (e.Move? || e.Restart? || e.Sample?)
    ensures WorldInv(Next(w, e).value)
  {
    hide ParseEmail, UniqueLinks, EmailOk, Rel;
    var w' := Next(w, e).value;
    forall email ensures EmailOk(w', email) {
      ReadingsKeep(w, e, email);
    }
    forall i: nat, email | i < |w'.tables.links| ensures CursorOk(w', i, email) {
      assert CursorOk(w, i, email) && EmailOk(w, email);
      ReadingsKeep(w, e, email);
      if email in w.tables.links[i].cursors {
        RelTrans(w.tables.links[i].cursors[email], At(w.creditedAt, email), At(w.sample, email), At(w.sampleMoved, email),
                 At(w'.sample, email), At(w'.sampleMoved, email));
      }
    }
  }

  lemma LinksKeep(w: World, e: Event)
    requires WorldInv(w) && Next(w, e).Some? && (e.Unlink? || e.Relink? || e.Edit?)
    ensures WorldInv(Next(w, e).value)
  {
    hide ParseEmail, Rel;
    var w' := Next(w, e).value;
    assert forall email :: EmailOk(w, email) ==> EmailOk(w', email);
    forall i: nat, email | i < |w'.tables.links| ensures CursorOk(w', i, email) {
      var from := if e.Unlink? && i >= e.i then i + 1 else i;
      if from < |w.tables.links| {
        assert CursorOk(w, from, email);
        assert w'.tables.links[i] == w.tables.links[from];
      }
    }
  }

  lemma WorldStep(w: World, e: Event)
    requires WorldInv(w) && Next(w, e).Some?
    ensures WorldInv(Next(w, e).value)
  {
    hide WorldInv;
    match e {
      case Poll(stats) => PollKeeps(w, stats);
      case Move(_, _) => CountersKeep(w, e);
      case Restart => CountersKeep(w, e);
      case Sample => CountersKeep(w, e);
      case _ => LinksKeep(w, e);
    }
  }

  // --- runs --------------------------------------------------------------------------------------------------------

  ghost predicate WorldStart(w: World) {
    && UniqueLinks(w.tables) && (forall i :: 0 <= i < |w.tables.links| ==> w.tables.links[i].cursors == map[])
    && w.counters == map[] && w.sample == map[] && w.moved == map[] && w.sampleMoved == map[]
    && w.creditedAt == map[] && w.credited == map[]
  }

  ghost predicate Run(worlds: seq<World>, events: seq<Event>) {
    && |worlds| == |events| + 1 && WorldStart(worlds[0])
    && forall k :: 0 <= k < |events| ==> Next(worlds[k], events[k]) == Some(worlds[k + 1])
  }

  lemma StartInv(w: World)
    requires WorldStart(w)
    ensures WorldInv(w)
  {
    forall i: nat, email | i < |w.tables.links| ensures CursorOk(w, i, email) {
      assert w.tables.links[i].cursors == map[];
    }
  }

  lemma {:induction false} RunInv(worlds: seq<World>, events: seq<Event>, k: nat)
    requires Run(worlds, events) && k <= |events|
    ensures WorldInv(worlds[k])
  {
    hide WorldInv, WorldStart, Next;
    if k == 0 {
      StartInv(worlds[0]);
    } else {
      RunInv(worlds, events, k - 1);
      assert Next(worlds[k - 1], events[k - 1]) == Some(worlds[k - 1 + 1]);
      WorldStep(worlds[k - 1], events[k - 1]);
    }
  }

  /** Over every run of traffic, Xray restarts, samples, repeated and late polls, deleted and new
      links: no email is ever credited with more than it moved. */
  lemma NeverOverCounts(worlds: seq<World>, events: seq<Event>, k: nat, email: string)
    requires Run(worlds, events) && k <= |events|
    ensures Le(At(worlds[k].credited, email), At(worlds[k].moved, email))
  {
    hide Next, WorldStart;
    RunInv(worlds, events, k);
    assert EmailOk(worlds[k], email);
  }

  // --- without a restart --------------------------------------------------------------------------------------------

  /** The email has a cursor, and every reading since then has shown all that moved. */
  ghost predicate Exact(w: World, email: string) {
    && Same(At(w.sample, email), At(w.sampleMoved, email), At(w.counters, email), At(w.moved, email))
    && exists i: nat :: i < |w.tables.links| && email in w.tables.links[i].cursors
         && Same(w.tables.links[i].cursors[email], At(w.creditedAt, email), At(w.sample, email), At(w.sampleMoved, email))
  }

  ghost predicate Disturbs(w: World, e: Event, email: string) {
    e.Restart? || (e.Unlink? && e.i < |w.tables.links| && email in w.tables.links[e.i].cursors)
  }

  ghost function Uncredited(w: World, email: string): (int, int) {
    (At(w.creditedAt, email).up - At(w.credited, email).up, At(w.creditedAt, email).down - At(w.credited, email).down)
  }

  /** The first poll that lists an email makes its accounting exact, if Xray did not restart since
      the sample it polls. */
  lemma FirstPollExact(w: World, stats: Stats, i: nat, email: string)
    requires WorldInv(w) && Lists(stats, w.sample) && w.tables.active
    requires Owns(w.tables, i, email) && email in w.sample
    requires Same(At(w.sample, email), At(w.sampleMoved, email), At(w.counters, email), At(w.moved, email))
    ensures Exact(Next(w, Poll(stats)).value, email)
  {
    hide Owns, Delta, ParseEmail, Apply, Credit;
    OwnedLink(w.tables, i, email);
    PolledCursor(w.tables, stats, w.sample, i, email);
    var w' := Next(w, Poll(stats)).value;
    assert email in w'.tables.links[i].cursors;
  }

  lemma ExactPoll(w: World, stats: Stats, email: string)
    requires WorldInv(w) && Next(w, Poll(stats)).Some? && Exact(w, email)
    ensures var w' := Next(w, Poll(stats)).value; Exact(w', email) && Uncredited(w', email) == Uncredited(w, email)
  {
    if w.tables.active {
      ExactActive(w, stats, email);
    }
  }

  lemma ExactActive(w: World, stats: Stats, email: string)
    requires WorldInv(w) && Lists(stats, w.sample) && w.tables.active && Exact(w, email)
    ensures var w' := Next(w, Poll(stats)).value; Exact(w', email) && Uncredited(w', email) == Uncredited(w, email)
  {
    hide Owns, UniqueLinks, Delta, ParseEmail, Apply, Credit, Next, Bytes.Plus, Rel, Le;
    var i: nat :| i < |w.tables.links| && email in w.tables.links[i].cursors
      && Same(w.tables.links[i].cursors[email], At(w.creditedAt, email), At(w.sample, email), At(w.sampleMoved, email));
    PollAt(w, stats, email);
    PlusZero(At(w.credited, email));
    PolledCursor(w.tables, stats, w.sample, i, email);
    assert CursorOk(w, i, email) && EmailOk(w, email);
    var w' := Next(w, Poll(stats)).value;
    assert email in w'.tables.links[i].cursors;
    if email in w.sample && IsOwned(w.tables, email) {
      SameOwner(w.tables, i, email);
      CreditIs(w.tables, i, email, w.sample[email]);
      CreditBound(At(w.credited, email), At(w.creditedAt, email), Some(w.tables.links[i].cursors[email]),
                  w.sample[email], At(w.sampleMoved, email));
    } else if email in w.sample {
      NoCredit(w.tables, email, w.sample[email]);
      NotOwned(w.tables, i, email);
    }
  }

  lemma NotOwned(t: Tables, i: nat, email: string)
    requires !IsOwned(t, email)
    ensures !Owns(t, i, email)
  {
  }

  lemma ExactElse(w: World, e: Event, email: string)
    requires Next(w, e).Some? && Exact(w, email) && !Disturbs(w, e, email) && !e.Poll?
    ensures var w' := Next(w, e).value; Exact(w', email) && Uncredited(w', email) == Uncredited(w, email)
  {
    hide Exact, Uncredited, Next;
    if e.Unlink? || e.Relink? {
      LinksStayExact(w, e, email);
    } else {
      ReadingsStayExact(w, e, email);
    }
  }

  lemma SameLaws(a: Bytes, ma: Bytes, b: Bytes, mb: Bytes, c: Bytes, mc: Bytes, d: Bytes)
    ensures Same(a, ma, b, mb) ==> Same(a, ma, b.Plus(d), mb.Plus(d))
    ensures Same(a, ma, b, mb) && Same(b, mb, c, mc) ==> Same(a, ma, c, mc)
    ensures Same(a, ma, a, ma)
  {
  }

  lemma ReadingsStayExact(w: World, e: Event, email: string)
    requires Next(w, e).Some? && Exact(w, email) && (e.Move? || e.Sample? || e.Edit?)
    ensures var w' := Next(w, e).value; Exact(w', email) && Uncredited(w', email) == Uncredited(w, email)
  {
    hide Same, Bytes.Plus;
    var i: nat :| i < |w.tables.links| && email in w.tables.links[i].cursors
      && Same(w.tables.links[i].cursors[email], At(w.creditedAt, email), At(w.sample, email), At(w.sampleMoved, email));
    var w' := Next(w, e).value;
    assert w'.tables.links[i] == w.tables.links[i];
    SameLaws(At(w.sample, email), At(w.sampleMoved, email), At(w.counters, email), At(w.moved, email), Zero, Zero,
             if e.Move? then e.bytes else Zero);
    SameLaws(w.tables.links[i].cursors[email], At(w.creditedAt, email), At(w.sample, email), At(w.sampleMoved, email),
             At(w.counters, email), At(w.moved, email), Zero);
    SameLaws(At(w.counters, email), At(w.moved, email), Zero, Zero, Zero, Zero, Zero);
  }

  lemma LinksStayExact(w: World, e: Event, email: string)
    requires Next(w, e).Some? && Exact(w, email) && !Disturbs(w, e, email) && (e.Unlink? || e.Relink?)
    ensures var w' := Next(w, e).value; Exact(w', email) && Uncredited(w', email) == Uncredited(w, email)
  {
    hide Same;
    var i: nat :| i < |w.tables.links| && email in w.tables.links[i].cursors
      && Same(w.tables.links[i].cursors[email], At(w.creditedAt, email), At(w.sample, email), At(w.sampleMoved, email));
    var w' := Next(w, e).value;
    var j := if e.Unlink? && i > e.i then i - 1 else i;
    assert w'.tables.links[j] == w.tables.links[i];
  }

  /** From the moment the accounting of an email is exact, as long as Xray does not restart and its
      link stays: what is credited grows by exactly what moved up to the last reading. */
  lemma {:induction false} ExactWithoutRestart(worlds: seq<World>, events: seq<Event>, j: nat, k: nat, email: string)
    requires Run(worlds, events) && j <= k <= |events| && Exact(worlds[j], email)
    requires forall i :: j <= i < k ==> !Disturbs(worlds[i], events[i], email)
    ensures Exact(worlds[k], email) && Uncredited(worlds[k], email) == Uncredited(worlds[j], email)
  {
    hide WorldInv, WorldStart, Next, Exact, Disturbs, Uncredited;
    if j < k {
      ExactWithoutRestart(worlds, events, j, k - 1, email);
      RunInv(worlds, events, k - 1);
      assert Next(worlds[k - 1], events[k - 1]) == Some(worlds[k - 1 + 1]);
      if events[k - 1].Poll? {
        ExactPoll(worlds[k - 1], events[k - 1].stats, email);
      } else {
        ExactElse(worlds[k - 1], events[k - 1], email);
      }
    }
  }

  // --- whose bytes ----------------------------------------------------------------------------------------------------

  /** What the counters of one link's subscription are worth. */
  ghost function OwnCredits(t: Tables, stats: Stats, i: nat): Bytes
    requires i < |t.links|
  {
    if stats == [] then Zero
    else
      var n := |stats| - 1;
      OwnCredits(t, stats[..n], i).Plus(
        if Owns(t, i, stats[n].0) then Delta(CursorOf(t.links[i].cursors, stats[n].0), stats[n].1) else Zero)
  }

  lemma {:induction false} GainIsOwn(t: Tables, stats: Stats, i: nat)
    requires i < |t.links|
    ensures LinkGain(t, stats, i) == OwnCredits(t, stats, i)
  {
    hide LinkGain, Delta, Owns;
    if stats == [] {
      NoGain(t, i);
    } else {
      GainIsOwn(t, stats[..|stats| - 1], i);
      OneMoreEntry(t, stats, i);
    }
  }

  lemma {:induction false} SubsCredited(t: Tables, stats: Stats, n: nat, i: nat)
    requires UniqueLinks(t) && n <= |t.links| && i < |t.links| && t.links[i].subId in t.subs
    ensures var r := ApplyLinks(t, stats, n); var id := t.links[i].subId;
            r.subs[id] == t.subs[id].(total := if i < n then t.subs[id].total.Plus(LinkGain(t, stats, i)) else t.subs[id].total)
  {
    hide LinkGain, Bytes.Plus, Gain, EntriesOf, Cursors, ApplyLinks;
    if n == 0 {
      NoLinks(t, stats);
    } else {
      SubsCredited(t, stats, n - 1, i);
      var link := t.links[n - 1];
      if link.subId in t.subs {
        ApplyLinkIs(t, stats, n - 1);
        GainOf(t, stats, n - 1);
      } else {
        SkipLink(t, stats, n - 1);
      }
    }
  }

  lemma GainOf(t: Tables, stats: Stats, k: nat)
    requires k < |t.links| && t.links[k].subId in t.subs
    ensures LinkGain(t, stats, k) == Gain(t.links[k].cursors, EntriesOf(t, t.links[k], stats))
  {
  }

  lemma {:induction false} OthersUncredited(t: Tables, stats: Stats, n: nat, id: nat)
    requires n <= |t.links| && id in t.subs && forall i :: 0 <= i < |t.links| ==> t.links[i].subId != id
    ensures ApplyLinks(t, stats, n).subs[id] == t.subs[id]
  {
    hide Gain, EntriesOf, Cursors, Bytes.Plus, ApplyLinks;
    if n == 0 {
      NoLinks(t, stats);
    } else {
      OthersUncredited(t, stats, n - 1, id);
      if t.links[n - 1].subId in t.subs {
        ApplyLinkIs(t, stats, n - 1);
      } else {
        SkipLink(t, stats, n - 1);
      }
    }
  }

  /** One poll credits each linked subscription, and its link, with exactly what its own counters are
      worth, and no other subscription with anything; an inactive server's rows stay as they are. */
  lemma EachCredited(t: Tables, stats: Stats, i: nat, id: nat)
    requires UniqueLinks(t) && i < |t.links|
    ensures var r := Apply(t, stats);
            && |r.links| == |t.links|
            && (t.active ==>
                  && r.links[i].total == t.links[i].total.Plus(OwnCredits(t, stats, i))
                  && (t.links[i].subId in t.subs ==>
                        t.links[i].subId in r.subs
                        && r.subs[t.links[i].subId].total == t.subs[t.links[i].subId].total.Plus(OwnCredits(t, stats, i)))
                  && (id in t.subs && (forall k :: 0 <= k < |t.links| ==> t.links[k].subId != id) ==>
                        id in r.subs && r.subs[id] == t.subs[id]))
            && (!t.active ==> r == t)
  {
    hide LinkGain, OwnCredits, ApplyLinks, SumLinks, SumCredits, TotalOf, Bytes.Plus;
    if t.active {
      PollConserves(t, stats);
      GainIsOwn(t, stats, i);
      if stats == [] {
        NoGain(t, i);
        if t.links[i].subId in t.subs {
          PlusZero(t.subs[t.links[i].subId].total);
        }
      } else {
        ApplyConserves(t, stats, |t.links|);
        if t.links[i].subId in t.subs {
          SubsCredited(t, stats, |t.links|, i);
        }
        if id in t.subs && forall k :: 0 <= k < |t.links| ==> t.links[k].subId != id {
          OthersUncredited(t, stats, |t.links|, id);
        }
      }
    }
  }
}
