/** The centre's rows of one node, updated in place: publishing, pruning, acknowledging, and the
    polling sync handler (bot/src/control/state.py, bot/src/control/router.py). */
module NodeStore {
  import opened Wrappers
  import opened Items
  import opened Centre
  import opened StoreShape

  datatype PublishError = ValueError

  /** What another process may do to the node's rows. */
  datatype Transaction =
    | Publishes(published: Published)
    | Acks(generation: nat, digest: Digest, success: bool, error: Option<string>)

  /** The slices the publisher takes, one page after another. */
  method Paginate(items: seq<Item>, size: nat) returns (pages: seq<seq<Item>>)
    requires size >= 1
    ensures pages == Chunks(items, size)
  {
    pages := [];
    var offset := 0;
    while offset < |items|
      invariant 0 <= offset
      invariant pages + Chunks(items[if offset < |items| then offset else |items|..], size) == Chunks(items, size)
      decreases |items| - offset
    {
      var end := if offset + size < |items| then offset + size else |items|;
      var page := items[offset..end];
      ghost var rest := items[offset..];
      assert rest[..end - offset] == page && items[end..] == rest[end - offset..];
      if |rest| <= size {
        assert page == rest && items[end..] == [];
      }
      assert Chunks(rest, size) == [page] + Chunks(items[end..], size);
      pages := pages + [page];
      offset := offset + size;
    }
  }

  /** A set's elements in an order nobody chose, as a query without ORDER BY returns rows. */
  method Rows(pages: map<(nat, nat), Page>, generation: nat) returns (rows: seq<Page>)
    ensures forall p :: p in rows <==> exists k: nat :: (generation, k) in pages && pages[(generation, k)] == p
    ensures forall i, j :: 0 <= i < j < |rows| ==> rows[i] != rows[j]
  {
    var left := set key | key in pages && key.0 == generation :: pages[key];
    rows := [];
    while left != {}
      invariant forall p :: (p in rows || p in left) <==> exists k: nat :: (generation, k) in pages && pages[(generation, k)] == p
      invariant forall i, j :: 0 <= i < j < |rows| ==> rows[i] != rows[j]
      invariant forall p :: p in rows ==> p !in left
      decreases left
    {
      var page :| page in left;
      left := left - {page};
      rows := rows + [page];
    }
  }

  ghost function FirstPages(generation: nat, schema: nat, items: seq<Item>, size: nat, n: nat): map<(nat, nat), Page>
    requires size >= 1 && n <= |Chunks(items, size)|
  {
    map k: nat | k < n :: (generation, k) := PageOf(generation, schema, items, size, k)
  }

  lemma FirstPagesEnds(generation: nat, schema: nat, items: seq<Item>, size: nat)
    requires size >= 1
    ensures FirstPages(generation, schema, items, size, 0) == map[]
    ensures FirstPages(generation, schema, items, size, |Chunks(items, size)|) == NewPages(generation, schema, items, size)
  {
    hide Chunks, PageOf;
  }

  lemma FirstPagesGrow(generation: nat, schema: nat, items: seq<Item>, size: nat, n: nat)
    requires size >= 1 && n < |Chunks(items, size)|
    ensures FirstPages(generation, schema, items, size, n + 1)
              == FirstPages(generation, schema, items, size, n)[(generation, n) := PageOf(generation, schema, items, size, n)]
  {
    hide Chunks, PageOf, FirstPages;
    var a, b := FirstPages(generation, schema, items, size, n), FirstPages(generation, schema, items, size, n + 1);
    FirstPagesAt(generation, schema, items, size, n);
    FirstPagesAt(generation, schema, items, size, n + 1);
    forall key: (nat, nat) ensures key in b <==> key in a || key == (generation, n) {
      assert key == (key.0, key.1);
    }
    forall key: (nat, nat) | key in b && key != (generation, n) ensures b[key] == a[key] {
      assert key == (key.0, key.1);
    }
    assert b == a[(generation, n) := PageOf(generation, schema, items, size, n)];
  }

  lemma FirstPagesAt(generation: nat, schema: nat, items: seq<Item>, size: nat, n: nat)
    requires size >= 1 && n <= |Chunks(items, size)|
    ensures var pages := FirstPages(generation, schema, items, size, n);
            && (forall g: nat, k: nat :: (g, k) in pages <==> g == generation && k < n)
            && (forall g: nat, k: nat :: (g, k) in pages ==> pages[(g, k)] == PageOf(generation, schema, items, size, k))
  {
    hide Chunks, PageOf;
    var pages := FirstPages(generation, schema, items, size, n);
    forall k: nat | k < n ensures (generation, k) in pages {
      assert PageOf(generation, schema, items, size, k) == pages[(generation, k)];
    }
  }

  lemma PageOfIs(generation: nat, schema: nat, items: seq<Item>, size: nat, k: nat)
    requires size >= 1 && k < |Chunks(items, size)|
    ensures var chunk := Chunks(items, size)[k];
            PageOf(generation, schema, items, size, k) == Page(schema, generation, k, ItemsDigest(chunk), chunk)
  {
  }

  /** The loop over one page: a later item of a route wins. */
  method NoteRevisions(before: map<nat, (nat, Digest)>, items: seq<Item>) returns (revisions: map<nat, (nat, Digest)>)
    ensures revisions == before + Revisions(items)
  {
    revisions := before;
    for i := 0 to |items|
      invariant revisions == before + Revisions(items[..i])
    {
      assert items[..i + 1][..i] == items[..i];
      match items[i]
      case Service(routeId, revision, configDigest, _, _) =>
        revisions := revisions[routeId := (revision, configDigest)];
      case Route(route) =>
        revisions := revisions[route.routeId := (route.revision, route.configDigest)];
      case _ =>
    }
    assert items[..|items|] == items;
  }

  class NodeStore {
    var snapshots: map<nat, Manifest>
    var pages: map<(nat, nat), Page>
    var desired: nat
    var applied: nat
    var appliedDigest: Option<Digest>
    var routeAcks: map<nat, RouteAck>
    var lastError: Option<string>
    // what each generation was published with
    ghost var history: History

    ghost function View(): Row
      reads this
    {
      Row(snapshots, pages, desired, applied, appliedDigest, routeAcks, lastError)
    }

    ghost predicate Valid()
      reads this
    {
      StoreInv(View(), history)
    }

    constructor ()
      ensures Valid() && View() == EmptyRow && history == map[]
    {
      snapshots, pages, desired, applied := map[], map[], 0, 0;
      appliedDigest, routeAcks, lastError := None, map[], None;
      history := map[];
    }

    /** ORDER BY generation DESC LIMIT 1. */
    method LatestSnapshot() returns (m: Option<Manifest>)
      requires Valid()
      ensures m == Latest(View())
    {
      LatestIsDesired(View(), history);
      hide Latest;
      m := if desired in snapshots then Some(snapshots[desired]) else None;
      if desired > 0 {
        LatestManifest(View(), history);
      }
    }

    method Publish(items: seq<Item>, schema: nat, size: int) returns (r: Result<Manifest, PublishError>)
      requires Valid() && (size >= 1 ==> Coherent(Published(items, schema, size)))
      modifies this
      ensures Valid()
      ensures size < 1 ==> r == Err(ValueError) && View() == old(View()) && history == old(history)
      ensures size >= 1 ==>
                && View() == Centre.Publish(old(View()), schema, items, size)
                && history == PublishedHistory(old(View()), View(), old(history), Published(items, schema, size))
                && r.Ok? && Latest(View()) == Some(r.value)
    {
      hide Latest, Coherent, StoreInv, Chunks;
      if size < 1 {
        return Err(ValueError);
      }
      ghost var before, p := View(), Published(items, schema, size);
      PublishKeeps(before, history, p);
      HistoryKnown(before, history);
      PublishForm(before, history, p);
      var latest := LatestSnapshot();
      if latest.Some? && latest.value.digest == ItemsDigest(items) && latest.value.schemaVersion == schema {
        return Ok(latest.value);
      }
      var previous := if latest.Some? then latest.value.generation else 0;
      var generation := (if desired > previous then desired else previous) + 1;
      assert generation == NextGeneration(before);
      var chunks := Paginate(items, size);
      var snapshot := Manifest(schema, generation, ItemsDigest(items), |items|, |chunks|, size);
      snapshots := snapshots[generation := snapshot];
      AddPages(generation, schema, items, size, chunks);
      desired := generation;
      assert View() == Centre.Publish(before, schema, items, size);
      history := PublishedHistory(before, View(), history, p);
      LatestIsDesired(View(), history);
      r := Ok(snapshot);
    }

    method AddPages(generation: nat, schema: nat, items: seq<Item>, size: nat, chunks: seq<seq<Item>>)
      requires size >= 1 && chunks == Chunks(items, size)
      modifies this`pages
      ensures pages == old(pages) + NewPages(generation, schema, items, size)
    {
      hide Chunks, PageOf, FirstPages;
      FirstPagesEnds(generation, schema, items, size);
      for k := 0 to |chunks|
        invariant pages == old(pages) + FirstPages(generation, schema, items, size, k)
      {
        FirstPagesGrow(generation, schema, items, size, k);
        PageOfIs(generation, schema, items, size, k);
        pages := pages[(generation, k) := Page(schema, generation, k, ItemsDigest(chunks[k]), chunks[k])];
      }
    }

    /** Deletes what is older than the acknowledgement window. */
    method Prune(acknowledged: nat)
      modifies this`snapshots, this`pages
      ensures View() == Centre.Prune(old(View()), acknowledged)
    {
      var cutoff := acknowledged - KEEP_PREVIOUS;
      if cutoff <= 1 {
        return;
      }
      pages := map p | p in pages && p.0 >= cutoff :: pages[p];
      snapshots := map g | g in snapshots && g >= cutoff :: snapshots[g];
    }

    /** Replaces the node's acknowledgement rows by what the snapshot's pages carry. */
    method RecordCascadeAck(generation: nat, rows: seq<Page>)
      modifies this`routeAcks
      ensures routeAcks == AckRows(PageRevisions(rows), generation)
    {
      hide Revisions;
      var revisions: map<nat, (nat, Digest)> := map[];
      for n := 0 to |rows|
        invariant revisions == PageRevisions(rows[..n])
      {
        var page := rows[n];
        assert rows[..n + 1][..n] == rows[..n];
        if page.schemaVersion < 2 {
          assert revisions + map[] == revisions;
          continue;
        }
        revisions := NoteRevisions(revisions, page.items);
      }
      assert rows[..|rows|] == rows;
      routeAcks := map id | id in revisions :: RouteAck(revisions[id].0, revisions[id].1, generation);
    }

    method Acknowledge(generation: nat, digest: Digest, success: bool, error: Option<string>)
      returns (reply: AckReply, ghost rows: seq<Page>)
      requires Valid()
      modifies this
      ensures Valid() && history == old(history) && PagesOf(old(View()), generation, rows)
      ensures (View(), reply) == Centre.Acknowledge(old(View()), generation, digest, success, error, rows)
    {
      hide StoreInv, PageRevisions, AckRows;
      var fetched := Rows(pages, generation);
      rows := fetched;
      AcknowledgeKeeps(View(), history, generation, digest, success, error, rows);
      hide PagesOf;
      if generation !in snapshots {
        return NotFound, rows;
      }
      if snapshots[generation].digest != digest {
        return DigestMismatch, rows;
      }
      if !success {
        lastError := Some(error.GetOr("reconciliation failed"));
        return ErrorRecorded, rows;
      }
      if generation <= applied {
        return Duplicate, rows;
      }
      applied := generation;
      appliedDigest := Some(digest);
      lastError := None;
      RecordCascadeAck(generation, fetched);
      Prune(generation);
      reply := Accepted;
    }

    /** `GET /snapshots/{generation}/pages/{index}`. */
    function GetPage(generation: nat, index: nat): Option<Page>
      reads this
    {
      if (generation, index) in pages then Some(pages[(generation, index)]) else None
    }

    /** One poll: publish if there is nothing yet or the node's capabilities changed, then answer. */
    method Poll(generation: nat, digest: Option<Digest>, changed: bool, built: Published) returns (reply: Option<Manifest>)
      requires Valid() && Coherent(built)
      modifies this
      ensures Valid() && Latest(View()).Some? && reply == SyncReply(View(), generation, digest)
      ensures View() == if Latest(old(View())).None? || changed
                        then Centre.Publish(old(View()), built.schema, built.items, built.size) else old(View())
    {
      hide StoreInv, Coherent, Latest;
      CoherentSize(built);
      var snapshot := LatestSnapshot();
      if snapshot.None? || changed {
        var r := Publish(built.items, built.schema, built.size);
        snapshot := Some(r.value);
      }
      reply := None;
      if snapshot.value.generation > generation || digest != Some(snapshot.value.digest) {
        reply := snapshot;
      }
    }

    /** One transaction of another process. */
    method Elsewhere(t: Transaction)
      requires Valid() && (t.Publishes? ==> Coherent(t.published))
      modifies this
      ensures Valid() && old(desired) <= desired && old(applied) <= applied
    {
      hide StoreInv, Coherent, PagesOf, Centre.Acknowledge;
      ghost var before, h := View(), history;
      match t {
        case Publishes(p) =>
          PublishKeeps(before, h, p);
          CoherentSize(p);
          var _ := Publish(p.items, p.schema, p.size);
        case Acks(generation, digest, success, error) =>
          var reply, rows := Acknowledge(generation, digest, success, error);
          AcknowledgeKeeps(before, h, generation, digest, success, error, rows);
      }
    }

    /** The long poll. `built(i)` is what the database would make of the node at poll i, and
        `between(i)` what another process does before the next one. */
    method SyncNode(generation: nat, digest: Option<Digest>, changed: bool, polls: nat,
                    built: nat -> Published, between: nat -> Transaction) returns (reply: Option<Manifest>)
      requires Valid() && forall i :: Coherent(built(i)) && (between(i).Publishes? ==> Coherent(between(i).published))
      modifies this
      ensures Valid() && Latest(View()).Some? && reply == SyncReply(View(), generation, digest)
      ensures old(desired) <= desired && old(applied) <= applied
    {
      hide StoreInv, Coherent, Latest;
      var i := 0;
      while true
        invariant Valid() && i <= polls && old(desired) <= desired && old(applied) <= applied
        decreases polls - i
      {
        ghost var before, h := View(), history;
        PublishKeeps(before, h, built(i));
        reply := Poll(generation, digest, changed && i == 0, built(i));
        if reply.Some? || i == polls {
          return;
        }
        Elsewhere(between(i));
        i := i + 1;
      }
    }
  }

  lemma HistoryKnown(row: Row, history: History)
    requires StoreInv(row, history)
    ensures row.desired > 0 ==> row.desired in history
  {
    hide SnapshotsStored, AcksExact, Coherent;
  }
}
