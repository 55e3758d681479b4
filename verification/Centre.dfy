/** bot/src/control/state.py and router.py: the centre's stored snapshots for one node, and what
    publishing, acknowledging and pruning do to them. */
module Centre {
  import opened Wrappers
  import opened Items

  datatype Manifest = Manifest(
    schemaVersion: nat, generation: nat, digest: Digest, itemCount: nat, pageCount: nat, pageSize: nat)

  datatype Page = Page(schemaVersion: nat, generation: nat, pageIndex: nat, pageDigest: Digest, items: seq<Item>)

  datatype RouteAck = RouteAck(revision: nat, configDigest: Digest, generation: nat)

  /** The rows of one node: its snapshots, their pages by (generation, index), its counters and
      its cascade acknowledgements by route. */
  datatype Row = Row(
    snapshots: map<nat, Manifest>, pages: map<(nat, nat), Page>,
    desired: nat, applied: nat, appliedDigest: Option<Digest>, routeAcks: map<nat, RouteAck>,
    lastError: Option<string>)

  const EmptyRow := Row(map[], map[], 0, 0, None, map[], None)

  // --- pages -------------------------------------------------------------------------------------

  function Chunks(items: seq<Item>, size: nat): seq<seq<Item>>
    requires size >= 1
  {
    if items == [] then []
    else if |items| <= size then [items]
    else [items[..size]] + Chunks(items[size..], size)
  }

  function Flatten(pages: seq<seq<Item>>): seq<Item> {
    if pages == [] then [] else pages[0] + Flatten(pages[1..])
  }

  function PageCount(count: nat, size: nat): nat
    requires size >= 1
  {
    if count == 0 then 0 else (count + size - 1) / size
  }

  /** Cutting into pages loses nothing, and the agent's own formula predicts how many there are. */
  lemma {:induction false} ChunksRoundTrip(items: seq<Item>, size: nat)
    requires size >= 1
    ensures Flatten(Chunks(items, size)) == items
    ensures |Chunks(items, size)| == PageCount(|items|, size)
    ensures forall k :: 0 <= k < |Chunks(items, size)| ==> 1 <= |Chunks(items, size)[k]| <= size
  {
    if items != [] && |items| > size {
      ChunksRoundTrip(items[size..], size);
      assert items == items[..size] + items[size..];
      DivStep(|items|, size);
    } else if items != [] {
      assert Flatten([items]) == items + Flatten([]);
      DivOne(|items|, size);
    }
  }

  lemma MulMonotone(a: nat, b: nat, d: nat)
    requires a <= b
    ensures a * d <= b * d
  {
  }

  lemma DivUnique(n: nat, size: nat, q: nat)
    requires size >= 1 && q * size <= n < q * size + size
    ensures n / size == q
  {
    var k := n / size;
    assert n == k * size + n % size;
    if k < q {
      MulMonotone(k + 1, q, size);
    } else if k > q {
      MulMonotone(q + 1, k, size);
    }
  }

  lemma DivStep(n: nat, size: nat)
    requires n > size >= 1
    ensures (n + size - 1) / size == 1 + (n - size + size - 1) / size
  {
    var m := n - size + size - 1;
    var q := m / size;
    assert m == q * size + m % size;
    DivUnique(n + size - 1, size, q + 1);
  }

  lemma DivOne(n: nat, size: nat)
    requires 1 <= n <= size
    ensures (n + size - 1) / size == 1
  {
    DivUnique(n + size - 1, size, 1);
  }

  // --- publishing --------------------------------------------------------------------------------

  function ManifestOf(generation: nat, schema: nat, items: seq<Item>, size: nat): Manifest
    requires size >= 1
  {
    Manifest(schema, generation, ItemsDigest(items), |items|, |Chunks(items, size)|, size)
  }

  function PageOf(generation: nat, schema: nat, items: seq<Item>, size: nat, k: nat): Page
    requires size >= 1 && k < |Chunks(items, size)|
  {
    Page(schema, generation, k, ItemsDigest(Chunks(items, size)[k]), Chunks(items, size)[k])
  }

  function NewPages(generation: nat, schema: nat, items: seq<Item>, size: nat): map<(nat, nat), Page>
    requires size >= 1
  {
    map k: nat | k < |Chunks(items, size)| :: (generation, k) := PageOf(generation, schema, items, size, k)
  }

  ghost predicate IsLatest(snapshots: map<nat, Manifest>, g: nat) {
    g in snapshots && forall h :: h in snapshots ==> h <= g
  }

  lemma {:induction false} LatestExists(snapshots: map<nat, Manifest>)
    requires snapshots != map[]
    ensures exists g :: IsLatest(snapshots, g)
  {
    var g :| g in snapshots;
    var rest := snapshots - {g};
    assert forall h :: h in snapshots ==> h == g || h in rest;
    if rest == map[] {
      assert IsLatest(snapshots, g);
    } else {
      assert |rest| < |snapshots| by {
        assert rest.Keys == snapshots.Keys - {g};
        assert |rest.Keys| == |snapshots.Keys| - 1;
      }
      LatestExists(rest);
      var h :| IsLatest(rest, h);
      assert IsLatest(snapshots, if g > h then g else h);
    }
  }

  /** `ORDER BY generation DESC LIMIT 1`. */
  ghost function Latest(row: Row): Option<Manifest> {
    if row.snapshots == map[] then None
    else
      LatestExists(row.snapshots);
      var g :| IsLatest(row.snapshots, g);
      Some(row.snapshots[g])
  }

  ghost predicate UpToDate(row: Row, schema: nat, items: seq<Item>) {
    Latest(row).Some? && Latest(row).value.digest == ItemsDigest(items) && Latest(row).value.schemaVersion == schema
  }

  ghost function NextGeneration(row: Row): nat {
    var latest := if Latest(row).Some? then Latest(row).value.generation else 0;
    (if row.desired > latest then row.desired else latest) + 1
  }

  /** A new generation, unless the latest one already says the same. */
  ghost function Publish(row: Row, schema: nat, items: seq<Item>, size: nat): Row
    requires size >= 1
  {
    if UpToDate(row, schema, items) then row
    else
      var g := NextGeneration(row);
      row.(snapshots := row.snapshots[g := ManifestOf(g, schema, items, size)],
           pages := row.pages + NewPages(g, schema, items, size),
           desired := g)
  }

  // --- pruning and acknowledging -----------------------------------------------------------------

  const KEEP_PREVIOUS := 2

  function Prune(row: Row, acknowledged: nat): Row {
    var cutoff := acknowledged - KEEP_PREVIOUS;
    if cutoff <= 1 then row
    else
      row.(snapshots := map g | g in row.snapshots && g >= cutoff :: row.snapshots[g],
           pages := map p | p in row.pages && p.0 >= cutoff :: row.pages[p])
  }

  /** The (revision, digest) each cascade item of a page list carries; a later one wins. */
  function Revisions(items: seq<Item>): map<nat, (nat, Digest)> {
    if items == [] then map[]
    else
      var n := |items| - 1;
      match items[n]
      case Service(routeId, revision, configDigest, _, _) => Revisions(items[..n])[routeId := (revision, configDigest)]
      case Route(route) => Revisions(items[..n])[route.routeId := (route.revision, route.configDigest)]
      case _ => Revisions(items[..n])
  }

  /** Pages older than schema 2 carry no cascade items that count. */
  function PageRevisions(pages: seq<Page>): map<nat, (nat, Digest)> {
    if pages == [] then map[]
    else
      var n := |pages| - 1;
      PageRevisions(pages[..n]) + if pages[n].schemaVersion < 2 then map[] else Revisions(pages[n].items)
  }

  function AckRows(revisions: map<nat, (nat, Digest)>, generation: nat): map<nat, RouteAck> {
    map id | id in revisions :: RouteAck(revisions[id].0, revisions[id].1, generation)
  }

  datatype AckReply = NotFound | DigestMismatch | ErrorRecorded | Duplicate | Accepted

  /** The database returns a snapshot's pages in an order of its own. */
  ghost predicate PagesOf(row: Row, generation: nat, pages: seq<Page>) {
    && (forall p :: p in pages <==> exists k: nat :: (generation, k) in row.pages && row.pages[(generation, k)] == p)
    && (forall i, j :: 0 <= i < j < |pages| ==> pages[i] != pages[j])
  }

  function Acknowledge(row: Row, generation: nat, digest: Digest, success: bool, error: Option<string>, pages: seq<Page>)
    : (Row, AckReply)
  {
    if generation !in row.snapshots then (row, NotFound)
    else if row.snapshots[generation].digest != digest then (row, DigestMismatch)
    else if !success then (row.(lastError := Some(error.GetOr("reconciliation failed"))), ErrorRecorded)
    else if generation <= row.applied then (row, Duplicate)
    else
      var acked := row.(applied := generation, appliedDigest := Some(digest), lastError := None,
                        routeAcks := AckRows(PageRevisions(pages), generation));
      (Prune(acked, generation), Accepted)
  }

  // --- sync ----------------------------------------------------------------------------------------

  /** One poll of `/sync`: a manifest if the node is behind or holds something else, 204 otherwise. */
  ghost function SyncReply(row: Row, generation: nat, digest: Option<Digest>): Option<Manifest> {
    if Latest(row).Some? && (Latest(row).value.generation > generation || digest != Some(Latest(row).value.digest))
    then Latest(row) else None
  }
}
