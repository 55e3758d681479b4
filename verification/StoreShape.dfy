/** The shape the centre's store keeps through every publish, acknowledgement and prune. */
module StoreShape {
  import opened Wrappers
  import opened Items
  import opened Centre

  /** What one generation was published with. */
  datatype Published = Published(items: seq<Item>, schema: nat, size: nat)

  type History = map<nat, Published>

  predicate Carries(item: Item, routeId: nat, pair: (nat, Digest)) {
    match item
    case Service(id, revision, digest, _, _) => id == routeId && pair == (revision, digest)
    case Route(route) => route.routeId == routeId && pair == (route.revision, route.configDigest)
    case _ => false
  }

  ghost predicate CarriedBy(items: seq<Item>, routeId: nat, pair: (nat, Digest)) {
    exists x :: x in items && Carries(x, routeId, pair)
  }

  /** Items built from one database state agree on a route's revision and digest, and a node
      without the cascade capability gets none. */
  ghost predicate Coherent(p: Published) {
    && p.size >= 1
    && (forall id, a, b :: CarriedBy(p.items, id, a) && CarriedBy(p.items, id, b) ==> a == b)
    && (p.schema < 2 ==> forall id, a :: !CarriedBy(p.items, id, a))
  }

  function Low(applied: nat): nat {
    if applied >= 3 then applied - 2 else 1
  }

  ghost predicate PagesStored(row: Row, history: History)
    requires forall g :: g in row.snapshots ==> g in history && history[g].size >= 1
  {
    && (forall g: nat, k: nat :: (g, k) in row.pages <==>
          g in row.snapshots && k < |Chunks(history[g].items, history[g].size)|)
    && (forall g: nat, k: nat :: (g, k) in row.pages ==>
          row.pages[(g, k)] == PageOf(g, history[g].schema, history[g].items, history[g].size, k))
  }

  /** One row for each route the items carry, with its revision and digest, and no other row. */
  ghost predicate RowsExact(rows: map<nat, RouteAck>, items: seq<Item>, generation: nat) {
    && (forall id, a :: CarriedBy(items, id, a) ==> id in rows && rows[id] == RouteAck(a.0, a.1, generation))
    && (forall id :: id in rows ==>
          rows[id].generation == generation && CarriedBy(items, id, (rows[id].revision, rows[id].configDigest)))
  }

  /** The acknowledgement rows are exactly what the applied snapshot carries. */
  ghost predicate AcksExact(row: Row, history: History) {
    && (row.applied == 0 ==> row.routeAcks == map[])
    && (row.applied in history ==> RowsExact(row.routeAcks, history[row.applied].items, row.applied))
  }

  ghost predicate HistoryOk(row: Row, history: History) {
    && (forall g :: g in history <==> 1 <= g <= row.desired)
    && (forall g :: g in history ==> Coherent(history[g]))
    && (forall g :: g in history && g + 1 in history ==>
          (history[g].items, history[g].schema) != (history[g + 1].items, history[g + 1].schema))
  }

  /** Stored are exactly the generations from max(1, applied - 2) to desired, unchanged since they
      were published, each with all of its pages, and no page of any other. */
  ghost predicate SnapshotsStored(row: Row, history: History) {
    && (forall g :: g in row.snapshots <==> Low(row.applied) <= g <= row.desired)
    && (forall g :: g in row.snapshots ==>
          && g in history && history[g].size >= 1
          && row.snapshots[g] == ManifestOf(g, history[g].schema, history[g].items, history[g].size))
    && PagesStored(row, history)
  }

  ghost predicate StoreInv(row: Row, history: History) {
    && HistoryOk(row, history)
    && row.applied <= row.desired
    && SnapshotsStored(row, history)
    && row.appliedDigest == (if row.applied == 0 then None else Some(ItemsDigest(history[row.applied].items)))
    && AcksExact(row, history)
  }

  // --- publish -------------------------------------------------------------------------------------

  lemma LatestIsDesired(row: Row, history: History)
    requires StoreInv(row, history)
    ensures Latest(row) == if row.desired == 0 then None else Some(row.snapshots[row.desired])
  {
    if row.desired > 0 {
      assert row.desired in row.snapshots;
      LatestExists(row.snapshots);
      var g :| IsLatest(row.snapshots, g) && Latest(row) == Some(row.snapshots[g]);
    } else {
      assert forall g :: g !in row.snapshots;
    }
  }

  function PublishedHistory(row: Row, row': Row, history: History, p: Published): History {
    if row' == row then history else history[row'.desired := p]
  }

  function Added(row: Row, p: Published): Row
    requires p.size >= 1
  {
    var g := row.desired + 1;
    row.(snapshots := row.snapshots[g := ManifestOf(g, p.schema, p.items, p.size)],
         pages := row.pages + NewPages(g, p.schema, p.items, p.size),
         desired := g)
  }

  lemma PublishForm(row: Row, history: History, p: Published)
    requires StoreInv(row, history) && p.size >= 1 && (row.desired > 0 ==> row.desired in history)
    ensures Publish(row, p.schema, p.items, p.size) == if UpToDate(row, p.schema, p.items) then row else Added(row, p)
    ensures UpToDate(row, p.schema, p.items) <==>
            row.desired > 0 && history[row.desired].items == p.items && history[row.desired].schema == p.schema
  {
    hide StoreInv, Latest, NewPages, Chunks;
    LatestIsDesired(row, history);
    if row.desired > 0 {
      LatestManifest(row, history);
    }
  }

  lemma LatestManifest(row: Row, history: History)
    requires StoreInv(row, history) && row.desired > 0
    ensures var g := row.desired;
            && g in history && g in row.snapshots && history[g].size >= 1
            && row.snapshots[g] == ManifestOf(g, history[g].schema, history[g].items, history[g].size)
  {
    hide AcksExact, PagesStored, Coherent, ManifestOf;
  }

  lemma AddedPages(pages: map<(nat, nat), Page>, g: nat, p: Published)
    requires p.size >= 1 && forall k: nat :: (g, k) !in pages
    ensures var all := pages + NewPages(g, p.schema, p.items, p.size);
            && (forall h: nat, k: nat :: (h, k) in all <==> (h, k) in pages || (h == g && k < |Chunks(p.items, p.size)|))
            && (forall h: nat, k: nat :: (h, k) in pages ==> all[(h, k)] == pages[(h, k)])
            && (forall k: nat :: k < |Chunks(p.items, p.size)| ==>
                  all[(g, k)] == PageOf(g, p.schema, p.items, p.size, k))
  {
    var added := NewPages(g, p.schema, p.items, p.size);
    forall k: nat | k < |Chunks(p.items, p.size)|
      ensures (g, k) in added && added[(g, k)] == PageOf(g, p.schema, p.items, p.size, k)
    {
    }
  }

  lemma AddedStored(row: Row, history: History, p: Published)
    requires SnapshotsStored(row, history) && p.size >= 1 && row.applied <= row.desired
    requires forall g :: g in history <==> 1 <= g <= row.desired
    ensures SnapshotsStored(Added(row, p), history[row.desired + 1 := p])
  {
    hide Chunks, ManifestOf, NewPages, PageOf;
    var g := row.desired + 1;
    assert g !in row.snapshots;
    AddedPages(row.pages, g, p);
  }

  lemma PublishKeeps(row: Row, history: History, p: Published)
    requires StoreInv(row, history) && Coherent(p)
    ensures var row' := Publish(row, p.schema, p.items, p.size);
            && (row' == row || row'.desired == row.desired + 1)
            && StoreInv(row', PublishedHistory(row, row', history, p))
            && row'.applied == row.applied
  {
    hide Coherent, RowsExact, PagesStored, Publish, UpToDate, SnapshotsStored;
    CoherentSize(p);
    PublishForm(row, history, p);
    if !UpToDate(row, p.schema, p.items) {
      AddedStored(row, history, p);
    }
  }

  lemma CoherentSize(p: Published)
    requires Coherent(p)
    ensures p.size >= 1
  {
  }

  // --- acknowledge ---------------------------------------------------------------------------------

  lemma {:induction false} RevisionsMember(items: seq<Item>, id: nat)
    ensures id in Revisions(items) ==> CarriedBy(items, id, Revisions(items)[id])
    ensures forall a :: CarriedBy(items, id, a) ==> id in Revisions(items)
  {
    if items != [] {
      var n := |items| - 1;
      RevisionsMember(items[..n], id);
      assert items == items[..n] + [items[n]];
      if id in Revisions(items) && !Carries(items[n], id, Revisions(items)[id]) {
        var x :| x in items[..n] && Carries(x, id, Revisions(items)[id]);
        assert x in items;
      }
      forall a | CarriedBy(items, id, a) ensures id in Revisions(items) {
        var x :| x in items && Carries(x, id, a);
        if x in items[..n] {
          assert CarriedBy(items[..n], id, a);
        }
      }
    }
  }

  ghost predicate InPages(pages: seq<Page>, id: nat, a: (nat, Digest)) {
    exists p :: p in pages && p.schemaVersion >= 2 && CarriedBy(p.items, id, a)
  }

  lemma {:induction false} PageRevisionsMember(pages: seq<Page>, id: nat)
    ensures id in PageRevisions(pages) ==> InPages(pages, id, PageRevisions(pages)[id])
    ensures forall a :: InPages(pages, id, a) ==> id in PageRevisions(pages)
  {
    if pages != [] {
      var n := |pages| - 1;
      var last := pages[n];
      PageRevisionsMember(pages[..n], id);
      RevisionsMember(last.items, id);
      assert pages == pages[..n] + [last];
      if id in PageRevisions(pages) && !(last.schemaVersion >= 2 && id in Revisions(last.items)) {
        assert InPages(pages[..n], id, PageRevisions(pages)[id]);
      }
      forall a | InPages(pages, id, a) ensures id in PageRevisions(pages) {
        var p :| p in pages && p.schemaVersion >= 2 && CarriedBy(p.items, id, a);
        if p in pages[..n] {
          assert InPages(pages[..n], id, a);
        }
      }
    }
  }

  lemma {:induction false} FlattenMember(pages: seq<seq<Item>>, x: Item)
    ensures x in Flatten(pages) <==> exists k :: 0 <= k < |pages| && x in pages[k]
  {
    if pages != [] {
      FlattenMember(pages[1..], x);
      if k :| 0 <= k < |pages[1..]| && x in pages[1..][k] {
        assert x in pages[k + 1];
      }
      if k :| 0 <= k < |pages| && x in pages[k] {
        assert k > 0 ==> x in pages[1..][k - 1];
      }
    }
  }

  /** Read in any order, the stored pages of a snapshot carry exactly what it was published with. */
  lemma StoredPagesCarry(row: Row, p: Published, g: nat, pages: seq<Page>, id: nat, a: (nat, Digest))
    requires Coherent(p) && PagesOf(row, g, pages)
    requires forall k: nat :: (g, k) in row.pages <==> k < |Chunks(p.items, p.size)|
    requires forall k: nat :: (g, k) in row.pages ==> row.pages[(g, k)] == PageOf(g, p.schema, p.items, p.size, k)
    ensures InPages(pages, id, a) <==> CarriedBy(p.items, id, a)
  {
    var chunks := Chunks(p.items, p.size);
    ChunksRoundTrip(p.items, p.size);
    if InPages(pages, id, a) {
      var q :| q in pages && q.schemaVersion >= 2 && CarriedBy(q.items, id, a);
      var x :| x in q.items && Carries(x, id, a);
      var k :| (g, k) in row.pages && row.pages[(g, k)] == q;
      assert x in chunks[k];
      FlattenMember(chunks, x);
    }
    if CarriedBy(p.items, id, a) {
      var x :| x in p.items && Carries(x, id, a);
      FlattenMember(chunks, x);
      var k :| 0 <= k < |chunks| && x in chunks[k];
      assert (g, k) in row.pages;
      var q := row.pages[(g, k)];
      assert q in pages && q.schemaVersion >= 2 && CarriedBy(q.items, id, a);
    }
  }

  lemma AckRowsExact(row: Row, history: History, g: nat, pages: seq<Page>)
    requires StoreInv(row, history) && g in row.snapshots && PagesOf(row, g, pages)
    ensures RowsExact(AckRows(PageRevisions(pages), g), history[g].items, g)
  {
    hide AcksExact, CarriedBy, PagesOf, Revisions, PageRevisions, InPages, ManifestOf;
    var p, revisions := history[g], PageRevisions(pages);
    assert Coherent(p);
    forall id | id in revisions ensures CarriedBy(p.items, id, revisions[id]) {
      PageRevisionsMember(pages, id);
      StoredPagesCarry(row, p, g, pages, id, revisions[id]);
    }
    forall id, a | CarriedBy(p.items, id, a) ensures id in revisions && revisions[id] == a {
      StoredPagesCarry(row, p, g, pages, id, a);
      PageRevisionsMember(pages, id);
    }
  }

  lemma PruneKeeps(row: Row, history: History, before: nat)
    requires row.applied <= row.desired && before < row.applied
    requires SnapshotsStored(row.(applied := before), history)
    ensures var row' := Prune(row, row.applied);
            && SnapshotsStored(row', history)
            && (forall g :: g in row'.snapshots ==> g in row.snapshots && row'.snapshots[g] == row.snapshots[g])
            && (forall p :: p in row'.pages ==> p in row.pages && row'.pages[p] == row.pages[p])
  {
  }

  lemma AckedPrune(row: Row, acked: Row, history: History)
    requires SnapshotsStored(row, history) && row.applied < acked.applied <= row.desired
    requires acked.snapshots == row.snapshots && acked.pages == row.pages && acked.desired == row.desired
    ensures var row' := Prune(acked, acked.applied);
            && SnapshotsStored(row', history)
            && (forall g :: g in row'.snapshots ==> g in row.snapshots && row'.snapshots[g] == row.snapshots[g])
            && (forall p :: p in row'.pages ==> p in row.pages && row'.pages[p] == row.pages[p])
  {
    assert SnapshotsStored(acked.(applied := row.applied), history);
    PruneKeeps(acked, history, row.applied);
  }

  lemma AcknowledgeKeeps(row: Row, history: History, g: nat, digest: Digest, success: bool,
                         error: Option<string>, pages: seq<Page>)
    requires StoreInv(row, history) && PagesOf(row, g, pages)
    ensures var (row', reply) := Acknowledge(row, g, digest, success, error, pages);
            && StoreInv(row', history) && row'.desired == row.desired
            && row.applied <= row'.applied
            && (reply.Accepted? <==> row'.applied != row.applied)
            && (reply.Accepted? ==> row'.applied == g && digest == ItemsDigest(history[g].items))
            && (forall h :: h in row'.snapshots ==> h in row.snapshots && row'.snapshots[h] == row.snapshots[h])
            && (forall p :: p in row'.pages ==> p in row.pages && row'.pages[p] == row.pages[p])
  {
    hide StoreInv, PagesOf, PageRevisions, AckRows;
    var (row', reply) := Acknowledge(row, g, digest, success, error, pages);
    if reply.Accepted? {
      AcceptedKeeps(row, history, g, digest, pages);
      assert row' == Prune(AckedRow(row, g, digest, pages), g);
    } else {
      OnlyErrorKeeps(row, row', history);
    }
  }

  function AckedRow(row: Row, g: nat, digest: Digest, pages: seq<Page>): Row {
    row.(applied := g, appliedDigest := Some(digest), lastError := None, routeAcks := AckRows(PageRevisions(pages), g))
  }

  lemma AcceptedKeeps(row: Row, history: History, g: nat, digest: Digest, pages: seq<Page>)
    requires StoreInv(row, history) && PagesOf(row, g, pages)
    requires g in row.snapshots && row.applied < g && row.snapshots[g].digest == digest
    ensures var row' := Prune(AckedRow(row, g, digest, pages), g);
            && StoreInv(row', history) && row'.desired == row.desired && row'.applied == g
            && g in history && digest == ItemsDigest(history[g].items)
            && (forall h :: h in row'.snapshots ==> h in row.snapshots && row'.snapshots[h] == row.snapshots[h])
            && (forall p :: p in row'.pages ==> p in row.pages && row'.pages[p] == row.pages[p])
  {
    hide RowsExact, PagesOf, PageRevisions, Coherent, PagesStored, Prune;
    var acked := AckedRow(row, g, digest, pages);
    var row' := Prune(acked, g);
    AckedPrune(row, acked, history);
    AckRowsExact(row, history, g, pages);
    PruneCounters(acked, g);
    assert RowsExact(row'.routeAcks, history[g].items, g);
    assert HistoryOk(row', history) && AcksExact(row', history);
    assert row.snapshots[g].digest == ItemsDigest(history[g].items);
  }

  lemma OnlyErrorKeeps(row: Row, row': Row, history: History)
    requires StoreInv(row, history) && row' == row.(lastError := row'.lastError)
    ensures StoreInv(row', history)
  {
    hide RowsExact, Coherent, PagesStored;
    assert PagesStored(row', history) by { PagesKept(row, row', history); }
  }

  lemma PagesKept(row: Row, row': Row, history: History)
    requires SnapshotsStored(row, history) && row'.snapshots == row.snapshots && row'.pages == row.pages
    ensures PagesStored(row', history)
  {
  }

  lemma PruneCounters(row: Row, before: nat)
    ensures var row' := Prune(row, before);
            row' == row.(snapshots := row'.snapshots, pages := row'.pages)
  {
  }

  // --- how an acknowledgement is answered ---------------------------------------------------------------

  /** Unknown generation, wrong digest, reported failure, repetition, success: each has its answer, and
      only a failure is noted as an error, only a success clears it. */
  lemma AcknowledgeAnswers(row: Row, history: History, g: nat, digest: Digest, success: bool,
                           error: Option<string>, pages: seq<Page>)
    requires StoreInv(row, history)
    ensures var (row', reply) := Acknowledge(row, g, digest, success, error, pages);
            && (reply == NotFound <==> g < Low(row.applied) || g > row.desired)
            && (reply == DigestMismatch <==> Low(row.applied) <= g <= row.desired && digest != ItemsDigest(history[g].items))
            && (reply == ErrorRecorded <==>
                  Low(row.applied) <= g <= row.desired && digest == ItemsDigest(history[g].items) && !success)
            && (reply == Accepted <==>
                  row.applied < g <= row.desired && digest == ItemsDigest(history[g].items) && success)
            && (reply == Accepted ==> row'.lastError == None && row'.appliedDigest == Some(digest))
            && (reply == ErrorRecorded ==>
                  row' == row.(lastError := if error.Some? then error else Some("reconciliation failed")))
            && (reply != Accepted && reply != ErrorRecorded ==> row' == row)
  {
    hide PagesStored, AcksExact, Coherent, PageRevisions, AckRows, PagesOf;
    if Low(row.applied) <= g <= row.desired {
      assert g in row.snapshots && row.snapshots[g].digest == ItemsDigest(history[g].items);
    }
    PruneCounters(row, g);
    hide Prune;
    var acked := row.(applied := g, appliedDigest := Some(digest), lastError := None,
                      routeAcks := AckRows(PageRevisions(pages), g));
    PruneCounters(acked, g);
  }
}
