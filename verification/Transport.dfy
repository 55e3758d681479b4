/** agent/app/control_client.py: asking several control endpoints in turn, and downloading a
    snapshot page by page with every check the agent makes. */
module Transport {
  import opened Wrappers
  import opened Seqs
  import opened Items
  import opened NodeMachine
  import opened Centre

  // --- the network ---------------------------------------------------------------------------------

  datatype Body = ManifestBody(manifest: Manifest) | PageBody(page: Page) | Garbled

  /** What one endpoint does with one request. */
  datatype Answer = Unreachable | TooLarge | Response(status: nat, body: Body)

  datatype SyncError = RequestError | ProtocolError

  /** An endpoint that cannot be reached or fails itself is passed over. */
  predicate PassedOver(a: Answer) {
    a.Unreachable? || (a.Response? && a.status >= 500)
  }

  function OtherThan(preferred: string): string -> bool {
    (url: string) => url != preferred
  }

  /** The endpoint that answered last comes first. */
  function OrderedUrls(urls: seq<string>, preferred: Option<string>): seq<string> {
    if preferred.None? || preferred.value !in urls then urls
    else [preferred.value] + Filter(OtherThan(preferred.value), urls)
  }

  /** Nobody is forgotten, and nobody else is asked. */
  lemma OrderedUrlsSame(urls: seq<string>, preferred: Option<string>)
    ensures forall url :: url in OrderedUrls(urls, preferred) <==> url in urls
    ensures preferred.Some? && preferred.value in urls ==>
              var order := OrderedUrls(urls, preferred);
              && order[0] == preferred.value && order[1..] == Filter(OtherThan(preferred.value), urls)
              && preferred.value !in order[1..]
    ensures preferred.None? || preferred.value !in urls ==> OrderedUrls(urls, preferred) == urls
  {
    if preferred.Some? && preferred.value in urls {
      forall url ensures url in OrderedUrls(urls, preferred) <==> url in urls {
        FilterMember(OtherThan(preferred.value), urls, url);
      }
      FilterMember(OtherThan(preferred.value), urls, preferred.value);
    }
  }

  /** The position of the first answer that is not passed over, or the length if all are. */
  function FirstAnswer(order: seq<string>, ask: string -> Answer): (k: nat)
    ensures k <= |order|
    ensures forall i :: 0 <= i < k ==> PassedOver(ask(order[i]))
    ensures k < |order| ==> !PassedOver(ask(order[k]))
  {
    if order == [] || !PassedOver(ask(order[0])) then 0 else 1 + FirstAnswer(order[1..], ask)
  }

  /** What a request comes to, and the endpoint preferred from then on. */
  function Failover(urls: seq<string>, preferred: Option<string>, ask: string -> Answer)
    : (Option<string>, Result<Answer, SyncError>)
  {
    var order := OrderedUrls(urls, preferred);
    var k := FirstAnswer(order, ask);
    if k == |order| then (preferred, Err(RequestError))
    else if ask(order[k]).TooLarge? then (preferred, Err(ProtocolError))
    else (Some(order[k]), Ok(ask(order[k])))
  }

  /** This endpoint gives no usable answer: it is out of reach, or fails itself. */
  predicate Fails(a: Answer) {
    a.Unreachable? || (a.Response? && a.status > 499)
  }

  /** The first endpoint in order that does not fail decides: an oversized answer ends the request, any
      other is the answer, and that endpoint is preferred from then on. Only if all of them fail does
      the request fail for want of an endpoint, and the preference stays. */
  lemma FailoverExact(urls: seq<string>, preferred: Option<string>, ask: string -> Answer)
    ensures Failover(urls, preferred, ask).1 == Err(RequestError) <==> forall url :: url in urls ==> Fails(ask(url))
    ensures Failover(urls, preferred, ask).1.Err? ==> Failover(urls, preferred, ask).0 == preferred
    ensures var order := OrderedUrls(urls, preferred); var (next, r) := Failover(urls, preferred, ask);
            forall k :: 0 <= k < |order| && (forall i :: 0 <= i < k ==> Fails(ask(order[i]))) && !Fails(ask(order[k])) ==>
              if ask(order[k]).TooLarge? then r == Err(ProtocolError) else r == Ok(ask(order[k])) && next == Some(order[k])
  {
    var order := OrderedUrls(urls, preferred);
    OrderedUrlsSame(urls, preferred);
    var k := FirstAnswer(order, ask);
    assert forall a :: Fails(a) <==> PassedOver(a);
    if k < |order| {
      assert order[k] in urls;
    } else {
      forall url | url in urls ensures PassedOver(ask(url)) {
        assert url in order;
      }
    }
  }

  /** The endpoints, the one preferred at the start, and what each would answer to each request of
      one download: request 0 is `/sync`, request k + 1 asks for page k. */
  datatype Link = Link(urls: seq<string>, preferred: Option<string>, net: nat -> string -> Answer)
  {
    function PreferredAt(k: nat): Option<string> {
      if k == 0 then preferred else Failover(urls, PreferredAt(k - 1), net(k - 1)).0
    }

    function Reply(k: nat): Result<Answer, SyncError> {
      Failover(urls, PreferredAt(k), net(k)).1
    }
  }

  // --- the checks ------------------------------------------------------------------------------------

  /** `size` is the length of a list's canonical JSON in bytes. */
  datatype Limits = Limits(maxPages: nat, maxItems: nat, maxBytes: nat, size: seq<Item> -> nat)

  predicate ValidSchema(schema: nat) {
    schema == 1 || schema == 2
  }

  predicate ValidItem(item: Item) {
    match item
    case Client(_, _, _) => true
    case ConnLimit(_, _) => true
    case Service(routeId, revision, _, _, _) => routeId >= 1 && revision >= 1
    case Route(r) =>
      && r.routeId >= 1 && r.revision >= 1 && r.inboundTags != [] && r.exits != []
      && forall e :: e in r.exits ==> 1 <= e.port <= 65535
  }

  predicate ValidItems(items: seq<Item>) {
    forall item :: item in items ==> ValidItem(item)
  }

  predicate ManifestOk(m: Manifest, limits: Limits) {
    && ValidSchema(m.schemaVersion) && m.generation >= 1 && m.pageSize >= 1
    && m.pageCount <= limits.maxPages && m.itemCount <= limits.maxItems
    && m.pageCount == PageCount(m.itemCount, m.pageSize)
  }

  /** Page `k` of this manifest, with the digest of what it holds. */
  predicate PageOk(m: Manifest, k: nat, p: Page) {
    && ValidItems(p.items)
    && p.schemaVersion == m.schemaVersion && p.generation == m.generation && p.pageIndex == k
    && p.pageDigest == ItemsDigest(p.items)
  }

  datatype Progress = Progress(items: seq<Item>, bytes: nat)

  function ManifestFrom(reply: Result<Answer, SyncError>, limits: Limits): Result<Option<Manifest>, SyncError> {
    match reply
    case Err(e) => Err(e)
    case Ok(a) =>
      if !a.Response? then Err(RequestError)
      else if a.status == 204 then Ok(None)
      else if a.status != 200 then Err(RequestError)
      else if a.body.ManifestBody? && ManifestOk(a.body.manifest, limits) then Ok(Some(a.body.manifest))
      else Err(ProtocolError)
  }

  function AddPage(m: Manifest, limits: Limits, k: nat, reply: Result<Answer, SyncError>, so: Progress)
    : Result<Progress, SyncError>
  {
    match reply
    case Err(e) => Err(e)
    case Ok(a) =>
      if !a.Response? || a.status != 200 then Err(RequestError)
      else if !a.body.PageBody? || !PageOk(m, k, a.body.page) then Err(ProtocolError)
      else
        var items := so.items + a.body.page.items;
        var bytes := so.bytes + limits.size(a.body.page.items);
        if !NoRepeats(Uuids(items)) || bytes > limits.maxBytes then Err(ProtocolError)
        else Ok(Progress(items, bytes))
  }

  /** The first `n` pages. */
  function Pages(link: Link, m: Manifest, limits: Limits, n: nat): Result<Progress, SyncError> {
    if n == 0 then Ok(Progress([], 0))
    else
      match Pages(link, m, limits, n - 1)
      case Err(e) => Err(e)
      case Ok(so) => AddPage(m, limits, n - 1, link.Reply(n), so)
  }

  function SyncResult(link: Link, limits: Limits): Result<Option<Snapshot>, SyncError> {
    match ManifestFrom(link.Reply(0), limits)
    case Err(e) => Err(e)
    case Ok(None) => Ok(None)
    case Ok(Some(m)) =>
      match Pages(link, m, limits, m.pageCount)
      case Err(e) => Err(e)
      case Ok(all) =>
        if |all.items| == m.itemCount && ItemsDigest(all.items) == m.digest
        then Ok(Some(Snapshot(m.schemaVersion, m.generation, m.digest, all.items)))
        else Err(ProtocolError)
  }

  // --- what is accepted ----------------------------------------------------------------------------------

  function TotalSize(pages: seq<seq<Item>>, size: seq<Item> -> nat): nat {
    if pages == [] then 0 else TotalSize(pages[..|pages| - 1], size) + size(pages[|pages| - 1])
  }

  /** The items of the first `n` replies. */
  function Arrived(link: Link, n: nat): seq<seq<Item>> {
    if n == 0 then []
    else
      Arrived(link, n - 1) +
      (match link.Reply(n)
       case Ok(Response(_, PageBody(page))) => [page.items]
       case _ => [])
  }

  lemma {:induction false} FlattenSnoc(pages: seq<seq<Item>>, page: seq<Item>)
    ensures Flatten(pages + [page]) == Flatten(pages) + page
  {
    if pages == [] {
      assert [page][1..] == [] && [] + [page] == [page];
      assert Flatten([page]) == page + Flatten([]);
    } else {
      FlattenSnoc(pages[1..], page);
      assert (pages + [page])[1..] == pages[1..] + [page];
    }
  }

  lemma {:induction false} PagesSound(link: Link, m: Manifest, limits: Limits, n: nat)
    requires Pages(link, m, limits, n).Ok?
    ensures var so := Pages(link, m, limits, n).value;
            && |Arrived(link, n)| == n
            && so.items == Flatten(Arrived(link, n))
            && so.bytes == TotalSize(Arrived(link, n), limits.size) && (n > 0 ==> so.bytes <= limits.maxBytes)
            && ValidItems(so.items) && NoRepeats(Uuids(so.items))
  {
    if n > 0 {
      PagesSound(link, m, limits, n - 1);
      var before, page := Arrived(link, n - 1), link.Reply(n).value.body.page.items;
      FlattenSnoc(before, page);
      assert (before + [page])[..n - 1] == before;
    }
  }

  /** Whatever pages arrive: an accepted snapshot is the one list the manifest's digest stands for,
      made of exactly the pages that arrived, valid, without a repeated UUID, within the limits. */
  lemma AcceptedIsGenuine(link: Link, limits: Limits, published: seq<Item>)
    requires SyncResult(link, limits).Ok? && SyncResult(link, limits).value.Some?
    requires ManifestFrom(link.Reply(0), limits) == Ok(Some(link.Reply(0).value.body.manifest))
    requires link.Reply(0).value.body.manifest.digest == ItemsDigest(published)
    ensures var m, s := link.Reply(0).value.body.manifest, SyncResult(link, limits).value.value;
            && s == Snapshot(m.schemaVersion, m.generation, m.digest, published)
            && published == Flatten(Arrived(link, m.pageCount))
            && |published| == m.itemCount <= limits.maxItems
            && (m.pageCount > 0 ==> TotalSize(Arrived(link, m.pageCount), limits.size) <= limits.maxBytes)
            && ValidItems(published) && NoRepeats(Uuids(published))
  {
    var m := link.Reply(0).value.body.manifest;
    PagesSound(link, m, limits, m.pageCount);
  }

  /** Accepted or not, a snapshot never comes from anything but a manifest that passed. */
  lemma AcceptedHasManifest(link: Link, limits: Limits)
    requires SyncResult(link, limits).Ok? && SyncResult(link, limits).value.Some?
    ensures link.Reply(0).Ok? && link.Reply(0).value.Response? && link.Reply(0).value.body.ManifestBody?
    ensures var m := link.Reply(0).value.body.manifest;
            && ManifestFrom(link.Reply(0), limits) == Ok(Some(m)) && ManifestOk(m, limits)
            && SyncResult(link, limits).value.value.digest == m.digest == ItemsDigest(SyncResult(link, limits).value.value.items)
            && SyncResult(link, limits).value.value.generation == m.generation
            && SyncResult(link, limits).value.value.schemaVersion == m.schemaVersion
  {
  }

  // --- the round trip --------------------------------------------------------------------------------------

  /** Request 0 is answered with the stored manifest, request k + 1 with stored page k. */
  ghost predicate Serves(link: Link, g: nat, schema: nat, items: seq<Item>, size: nat)
    requires size >= 1
  {
    && link.Reply(0) == Ok(Response(200, ManifestBody(ManifestOf(g, schema, items, size))))
    && forall k: nat :: k < |Chunks(items, size)| ==>
         link.Reply(k + 1) == Ok(Response(200, PageBody(PageOf(g, schema, items, size, k))))
  }

  predicate Fits(items: seq<Item>, size: nat, limits: Limits)
    requires size >= 1
  {
    && PageCount(|items|, size) <= limits.maxPages && |items| <= limits.maxItems
    && TotalSize(Chunks(items, size), limits.size) <= limits.maxBytes
  }

  lemma {:induction false} UuidsConcat(a: seq<Item>, b: seq<Item>)
    ensures Uuids(a + b) == Uuids(a) + Uuids(b)
  {
    if a == [] {
      assert a + b == b;
    } else {
      UuidsConcat(a[1..], b);
      assert (a + b)[1..] == a[1..] + b;
    }
  }

  lemma {:induction false} FlattenConcat(a: seq<seq<Item>>, b: seq<seq<Item>>)
    ensures Flatten(a + b) == Flatten(a) + Flatten(b)
  {
    if a == [] {
      assert a + b == b;
    } else {
      FlattenConcat(a[1..], b);
      assert (a + b)[1..] == a[1..] + b;
    }
  }

  lemma {:induction false} TotalSizeGrows(pages: seq<seq<Item>>, n: nat, size: seq<Item> -> nat)
    requires n <= |pages|
    ensures TotalSize(pages[..n], size) <= TotalSize(pages, size)
  {
    if n < |pages| {
      TotalSizeGrows(pages[..|pages| - 1], n, size);
      assert pages[..|pages| - 1][..n] == pages[..n];
    } else {
      assert pages[..n] == pages;
    }
  }

  /** A part of a list passes every check the list passes. */
  lemma PrefixPasses(chunks: seq<seq<Item>>, n: nat, limits: Limits)
    requires n <= |chunks| && ValidItems(Flatten(chunks)) && NoRepeats(Uuids(Flatten(chunks)))
    requires TotalSize(chunks, limits.size) <= limits.maxBytes
    ensures ValidItems(Flatten(chunks[..n])) && NoRepeats(Uuids(Flatten(chunks[..n])))
    ensures TotalSize(chunks[..n], limits.size) <= limits.maxBytes
  {
    assert chunks == chunks[..n] + chunks[n..];
    FlattenConcat(chunks[..n], chunks[n..]);
    UuidsConcat(Flatten(chunks[..n]), Flatten(chunks[n..]));
    TotalSizeGrows(chunks, n, limits.size);
    PrefixNoRepeats(Uuids(Flatten(chunks[..n])), Uuids(Flatten(chunks[n..])));
  }

  lemma PrefixNoRepeats(a: seq<string>, b: seq<string>)
    requires NoRepeats(a + b)
    ensures NoRepeats(a)
  {
    forall i, j | 0 <= i < j < |a| ensures a[i] != a[j] {
      assert (a + b)[i] == a[i] && (a + b)[j] == a[j];
    }
  }

  lemma PageAdded(m: Manifest, limits: Limits, page: Page, so: Progress)
    requires ValidItems(so.items + page.items) && NoRepeats(Uuids(so.items + page.items))
    requires page.schemaVersion == m.schemaVersion && page.generation == m.generation
    requires page.pageDigest == ItemsDigest(page.items)
    requires so.bytes + limits.size(page.items) <= limits.maxBytes
    ensures AddPage(m, limits, page.pageIndex, Ok(Response(200, PageBody(page))), so)
            == Ok(Progress(so.items + page.items, so.bytes + limits.size(page.items)))
  {
    forall x | x in page.items ensures ValidItem(x) {
      assert x in so.items + page.items;
    }
  }

  // --- exactly what is accepted -------------------------------------------------------------------------------

  /** An item no agent takes: a cascade item without a proper id or revision, or a route without an
      inbound, without an exit, or with an exit on no real port. */
  predicate Faulty(x: Item) {
    || (x.Service? && (x.routeId == 0 || x.revision == 0))
    || (x.Route? &&
        (x.route.routeId == 0 || x.route.revision == 0 || |x.route.inboundTags| == 0 || |x.route.exits| == 0
         || exists e :: e in x.route.exits && (e.port == 0 || e.port > 65535)))
  }

  lemma FaultyExactly(items: seq<Item>)
    ensures ValidItems(items) <==> forall x :: x in items ==> !Faulty(x)
  {
    forall x ensures ValidItem(x) <==> !Faulty(x) {
    }
  }

  /** Page by page, with nothing left out and nothing in the wrong place. */
  ghost predicate Delivers(link: Link, m: Manifest, pages: seq<Page>) {
    forall k: nat :: k < |pages| ==>
      && link.Reply(k + 1) == Ok(Response(200, PageBody(pages[k])))
      && pages[k].schemaVersion == m.schemaVersion && pages[k].generation == m.generation && pages[k].pageIndex == k
      && pages[k].pageDigest == ItemsDigest(pages[k].items)
  }

  function Contents(pages: seq<Page>): (r: seq<seq<Item>>)
    ensures |r| == |pages| && forall k :: 0 <= k < |r| ==> r[k] == pages[k].items
  {
    seq(|pages|, k requires 0 <= k < |pages| => pages[k].items)
  }

  lemma {:induction false} PagesComplete(link: Link, limits: Limits, m: Manifest, pages: seq<Page>, n: nat)
    requires Delivers(link, m, pages) && n <= |pages|
    requires ValidItems(Flatten(Contents(pages))) && NoRepeats(Uuids(Flatten(Contents(pages))))
    requires TotalSize(Contents(pages), limits.size) <= limits.maxBytes
    ensures var done := Contents(pages)[..n];
            Pages(link, m, limits, n) == Ok(Progress(Flatten(done), TotalSize(done, limits.size)))
  {
    hide Delivers, AddPage, NoRepeats, ValidItems, Link.Reply, Contents, Flatten, TotalSize, Uuids;
    if n == 0 {
      Unpaged(link, m, limits);
    } else {
      var chunks := Contents(pages);
      PagesComplete(link, limits, m, pages, n - 1);
      PrefixPasses(chunks, n, limits);
      assert chunks[..n] == chunks[..n - 1] + [chunks[n - 1]];
      FlattenSnoc(chunks[..n - 1], chunks[n - 1]);
      SizeSnoc(chunks[..n - 1], chunks[n - 1], limits.size);
      Delivered(link, m, pages, n - 1);
      PageAdded(m, limits, pages[n - 1], Progress(Flatten(chunks[..n - 1]), TotalSize(chunks[..n - 1], limits.size)));
    }
  }

  lemma SizeSnoc(chunks: seq<seq<Item>>, chunk: seq<Item>, size: seq<Item> -> nat)
    ensures TotalSize(chunks + [chunk], size) == TotalSize(chunks, size) + size(chunk)
  {
    assert (chunks + [chunk])[..|chunks|] == chunks;
  }

  lemma Delivered(link: Link, m: Manifest, pages: seq<Page>, k: nat)
    requires Delivers(link, m, pages) && k < |pages|
    ensures link.Reply(k + 1) == Ok(Response(200, PageBody(pages[k])))
    ensures pages[k].schemaVersion == m.schemaVersion && pages[k].generation == m.generation && pages[k].pageIndex == k
    ensures pages[k].pageDigest == ItemsDigest(pages[k].items)
  {
  }

  lemma PageTaken(m: Manifest, limits: Limits, k: nat, reply: Result<Answer, SyncError>, so: Progress) returns (page: Page)
    requires AddPage(m, limits, k, reply, so).Ok? && ValidItems(so.items)
    ensures reply == Ok(Response(200, PageBody(page)))
    ensures page.schemaVersion == m.schemaVersion && page.generation == m.generation && page.pageIndex == k
    ensures page.pageDigest == ItemsDigest(page.items)
    ensures AddPage(m, limits, k, reply, so).value == Progress(so.items + page.items, so.bytes + limits.size(page.items))
    ensures ValidItems(so.items + page.items) && NoRepeats(Uuids(so.items + page.items))
    ensures so.bytes + limits.size(page.items) <= limits.maxBytes
  {
    hide NoRepeats, Uuids, ValidItem;
    page := reply.value.body.page;
  }

  lemma Unpaged(link: Link, m: Manifest, limits: Limits)
    ensures Contents([]) == [] && Flatten([]) == [] && TotalSize([], limits.size) == 0 && Delivers(link, m, [])
    ensures ValidItems([]) && NoRepeats(Uuids([])) && Pages(link, m, limits, 0) == Ok(Progress([], 0))
  {
  }

  lemma PagesSnoc(pages: seq<Page>, page: Page, size: seq<Item> -> nat)
    ensures Contents(pages + [page]) == Contents(pages) + [page.items]
    ensures Flatten(Contents(pages + [page])) == Flatten(Contents(pages)) + page.items
    ensures TotalSize(Contents(pages + [page]), size) == TotalSize(Contents(pages), size) + size(page.items)
  {
    FlattenSnoc(Contents(pages), page.items);
    assert Contents(pages + [page]) == Contents(pages) + [page.items];
    assert Contents(pages + [page])[..|pages|] == Contents(pages);
  }

  /** Pages that were taken one by one are all there, each in its place. */
  lemma {:induction false} PagesTaken(link: Link, m: Manifest, limits: Limits, n: nat) returns (pages: seq<Page>)
    requires Pages(link, m, limits, n).Ok?
    ensures |pages| == n && Delivers(link, m, pages)
    ensures Pages(link, m, limits, n).value == Progress(Flatten(Contents(pages)), TotalSize(Contents(pages), limits.size))
    ensures ValidItems(Flatten(Contents(pages))) && NoRepeats(Uuids(Flatten(Contents(pages))))
    ensures n > 0 ==> TotalSize(Contents(pages), limits.size) <= limits.maxBytes
  {
    hide NoRepeats, Link.Reply, AddPage, Contents, ValidItems, Flatten, TotalSize, Uuids;
    pages := [];
    if n == 0 {
      Unpaged(link, m, limits);
    } else {
      var so := Pages(link, m, limits, n - 1).value;
      var before := PagesTaken(link, m, limits, n - 1);
      var page := PageTaken(m, limits, n - 1, link.Reply(n), so);
      pages := before + [page];
      PagesSnoc(before, page, limits.size);
    }
  }

  lemma PageCountExact(count: nat, size: nat, pages: nat)
    requires size >= 1
    ensures pages == PageCount(count, size) <==>
            if count == 0 then pages == 0 else pages >= 1 && (pages - 1) * size < count <= pages * size
  {
    if count > 0 {
      var q := (count + size - 1) / size;
      assert count + size - 1 == q * size + (count + size - 1) % size;
      if pages >= 1 && (pages - 1) * size < count <= pages * size {
        assert (pages - 1) * size == pages * size - size;
        DivUnique(count + size - 1, size, pages);
      }
      assert q == 0 ==> q * size == 0;
      assert (q - 1) * size == q * size - size;
    }
  }

  /** The manifest and the pages of a download that succeeds. */
  ghost predicate Proper(link: Link, limits: Limits, m: Manifest, pages: seq<Page>) {
    && link.Reply(0) == Ok(Response(200, ManifestBody(m)))
    && (m.schemaVersion == 1 || m.schemaVersion == 2) && m.generation >= 1 && m.pageSize >= 1
    && m.pageCount <= limits.maxPages && m.itemCount <= limits.maxItems
    && (if m.itemCount == 0 then m.pageCount == 0
        else m.pageCount >= 1 && (m.pageCount - 1) * m.pageSize < m.itemCount <= m.pageCount * m.pageSize)
    && |pages| == m.pageCount && Delivers(link, m, pages)
    && var items := Flatten(Contents(pages));
       && (forall x :: x in items ==> !Faulty(x)) && NoRepeats(Uuids(items))
       && (pages != [] ==> TotalSize(Contents(pages), limits.size) <= limits.maxBytes)
       && |items| == m.itemCount && ItemsDigest(items) == m.digest
  }

  function SnapshotFrom(m: Manifest, pages: seq<Page>): Snapshot {
    Snapshot(m.schemaVersion, m.generation, m.digest, Flatten(Contents(pages)))
  }

  /** A download yields a snapshot exactly if a proper manifest came and, in its place, every proper
      page it announces, and the snapshot is what these say. */
  lemma AcceptedExactly(link: Link, limits: Limits, s: Snapshot)
    ensures SyncResult(link, limits) == Ok(Some(s)) <==>
            exists m, pages :: Proper(link, limits, m, pages) && s == SnapshotFrom(m, pages)
  {
    if SyncResult(link, limits) == Ok(Some(s)) {
      var m := ProperTaken(link, limits, s);
    }
    if m, pages :| Proper(link, limits, m, pages) && s == SnapshotFrom(m, pages) {
      ProperAccepted(link, limits, m, pages);
    }
  }

  lemma ProperTaken(link: Link, limits: Limits, s: Snapshot) returns (m: Manifest)
    requires SyncResult(link, limits) == Ok(Some(s))
    ensures exists pages :: Proper(link, limits, m, pages) && s == SnapshotFrom(m, pages)
  {
    hide NoRepeats, Link.Reply, PageCount, Contents, Delivers, Faulty, ValidItems;
    m := link.Reply(0).value.body.manifest;
    var pages := PagesTaken(link, m, limits, m.pageCount);
    FaultyExactly(Flatten(Contents(pages)));
    PageCountExact(m.itemCount, m.pageSize, m.pageCount);
    assert Proper(link, limits, m, pages);
  }

  lemma ProperAccepted(link: Link, limits: Limits, m: Manifest, pages: seq<Page>)
    requires Proper(link, limits, m, pages)
    ensures SyncResult(link, limits) == Ok(Some(SnapshotFrom(m, pages)))
  {
    hide NoRepeats, Link.Reply, PageCount, Contents, Delivers, Faulty, ValidItems, AddPage;
    FaultyExactly(Flatten(Contents(pages)));
    PageCountExact(m.itemCount, m.pageSize, m.pageCount);
    if pages != [] {
      PagesComplete(link, limits, m, pages, |pages|);
      assert Contents(pages)[..|pages|] == Contents(pages);
    } else {
      NoPages(link, m, limits);
      assert Contents(pages) == [];
    }
  }

  lemma NoPages(link: Link, m: Manifest, limits: Limits)
    ensures Pages(link, m, limits, 0) == Ok(Progress(Flatten([]), 0))
  {
  }

  /** Nothing new exactly if that is the answer. */
  lemma NothingNewExactly(link: Link, limits: Limits)
    ensures SyncResult(link, limits) == Ok(None) <==>
            link.Reply(0).Ok? && link.Reply(0).value.Response? && link.Reply(0).value.status == 204
  {
  }

  function StoredPages(g: nat, schema: nat, items: seq<Item>, size: nat): (r: seq<Page>)
    requires size >= 1
    ensures |r| == |Chunks(items, size)| && forall k :: 0 <= k < |r| ==> r[k] == PageOf(g, schema, items, size, k)
  {
    seq(|Chunks(items, size)|, k requires 0 <= k < |Chunks(items, size)| => PageOf(g, schema, items, size, k))
  }

  /** What the centre stores is accepted, and comes back whole, exactly when its UUIDs are distinct,
      none of its items is faulty and its size is within the agent's limits. */
  lemma RoundTrip(link: Link, limits: Limits, g: nat, schema: nat, items: seq<Item>, size: nat)
    requires g >= 1 && ValidSchema(schema) && size >= 1 && Serves(link, g, schema, items, size)
    ensures SyncResult(link, limits) == Ok(Some(Snapshot(schema, g, ItemsDigest(items), items)))
            <==> NoRepeats(Uuids(items)) && (forall x :: x in items ==> !Faulty(x)) && Fits(items, size, limits)
    ensures SyncResult(link, limits).Ok? <==>
            NoRepeats(Uuids(items)) && (forall x :: x in items ==> !Faulty(x)) && Fits(items, size, limits)
  {
    hide NoRepeats, Faulty, Link.Reply, SyncResult, Serves, Proper, SnapshotFrom, Fits, ManifestOf, StoredPages, Uuids;
    var m, pages := ManifestOf(g, schema, items, size), StoredPages(g, schema, items, size);
    StoredProper(link, limits, g, schema, items, size);
    if Proper(link, limits, m, pages) {
      ProperAccepted(link, limits, m, pages);
    }
    if SyncResult(link, limits).Ok? {
      ServedIsSome(link, limits, m);
      var t := SyncResult(link, limits).value.value;
      AcceptedExactly(link, limits, t);
      var n, taken :| Proper(link, limits, n, taken) && t == SnapshotFrom(n, taken);
      SamePages(link, limits, n, taken, m, pages);
    }
  }

  lemma StoredProper(link: Link, limits: Limits, g: nat, schema: nat, items: seq<Item>, size: nat)
    requires g >= 1 && ValidSchema(schema) && size >= 1 && Serves(link, g, schema, items, size)
    ensures var m, pages := ManifestOf(g, schema, items, size), StoredPages(g, schema, items, size);
            && link.Reply(0) == Ok(Response(200, ManifestBody(m)))
            && |pages| == m.pageCount
            && (forall k: nat :: k < |pages| ==> link.Reply(k + 1) == Ok(Response(200, PageBody(pages[k]))))
            && SnapshotFrom(m, pages) == Snapshot(schema, g, ItemsDigest(items), items)
            && (Proper(link, limits, m, pages) <==>
                  NoRepeats(Uuids(items)) && (forall x :: x in items ==> !Faulty(x)) && Fits(items, size, limits))
  {
    hide NoRepeats, Faulty, Link.Reply, PageCount, Uuids;
    var pages := StoredPages(g, schema, items, size);
    ChunksRoundTrip(items, size);
    assert Contents(pages) == Chunks(items, size);
    PageCountExact(|items|, size, |pages|);
    if items == [] {
      assert TotalSize(Chunks(items, size), limits.size) == 0;
    }
  }

  lemma ServedIsSome(link: Link, limits: Limits, m: Manifest)
    requires link.Reply(0) == Ok(Response(200, ManifestBody(m))) && SyncResult(link, limits).Ok?
    ensures SyncResult(link, limits).value.Some?
  {
  }

  /** The same replies are the same manifest and pages. */
  lemma SamePages(link: Link, limits: Limits, n: Manifest, a: seq<Page>, m: Manifest, b: seq<Page>)
    requires Proper(link, limits, n, a) && link.Reply(0) == Ok(Response(200, ManifestBody(m))) && |b| == m.pageCount
    requires forall k: nat :: k < |b| ==> link.Reply(k + 1) == Ok(Response(200, PageBody(b[k])))
    ensures n == m && a == b
  {
    hide Link.Reply, NoRepeats, Faulty;
    forall k: nat | k < |a| ensures a[k] == b[k] {
      Delivered(link, n, a, k);
      assert link.Reply(k + 1) == Ok(Response(200, PageBody(b[k])));
    }
  }

  lemma SeenOne(items: seq<Item>, x: Item)
    requires NoRepeats(Uuids(items))
    ensures Uuids(items + [x]) == Uuids(items) + (if x.Client? || x.Service? then [x.uuid] else [])
    ensures NoRepeats(Uuids(items + [x])) <==> !((x.Client? || x.Service?) && x.uuid in Uuids(items))
  {
    UuidsConcat(items, [x]);
    assert [x][1..] == [];
    var us := Uuids(items + [x]);
    if (x.Client? || x.Service?) && x.uuid in Uuids(items) {
      var k :| 0 <= k < |Uuids(items)| && Uuids(items)[k] == x.uuid;
      assert us[k] == us[|us| - 1];
    }
  }

  lemma RepeatStays(a: seq<Item>, b: seq<Item>)
    requires !NoRepeats(Uuids(a))
    ensures !NoRepeats(Uuids(a + b))
  {
    UuidsConcat(a, b);
    if NoRepeats(Uuids(a + b)) {
      PrefixNoRepeats(Uuids(a), Uuids(b));
    }
  }

  // --- the client --------------------------------------------------------------------------------------------

  class ControlClient {
    const urls: seq<string>
    const limits: Limits
    var preferred: Option<string>

    constructor (urls: seq<string>, limits: Limits)
      ensures this.urls == urls && this.limits == limits && preferred == None
    {
      this.urls := urls;
      this.limits := limits;
      preferred := None;
    }

    method RequestWithFailover(ask: string -> Answer) returns (r: Result<Answer, SyncError>)
      modifies this
      ensures (preferred, r) == Failover(urls, old(preferred), ask)
    {
      var order := OrderedUrls(urls, preferred);
      ghost var first := FirstAnswer(order, ask);
      for k := 0 to |order|
        invariant k <= first && preferred == old(preferred)
      {
        var a := ask(order[k]);
        if a.TooLarge? {
          return Err(ProtocolError);
        }
        if a.Response? && a.status < 500 {
          preferred := Some(order[k]);
          return Ok(a);
        }
      }
      r := Err(RequestError);
    }

    /** Adds a page's UUIDs to those seen, or reports one seen before. */
    method NoteUuids(items: seq<Item>, seen: set<string>, ghost before: seq<Item>) returns (r: Result<set<string>, SyncError>)
      requires NoRepeats(Uuids(before)) && seen == set u | u in Uuids(before)
      ensures r.Ok? <==> NoRepeats(Uuids(before + items))
      ensures r.Ok? ==> r.value == set u | u in Uuids(before + items)
      ensures r.Err? ==> r.error == ProtocolError
    {
      hide NoRepeats, Uuids;
      var all := seen;
      assert before + items[..0] == before;
      for i := 0 to |items|
        invariant NoRepeats(Uuids(before + items[..i])) && all == set u | u in Uuids(before + items[..i])
      {
        ghost var here := before + items[..i];
        assert before + items[..i + 1] == here + [items[i]];
        SeenOne(here, items[i]);
        if items[i].Client? || items[i].Service? {
          if items[i].uuid in all {
            assert before + items == (here + [items[i]]) + items[i + 1..];
            RepeatStays(here + [items[i]], items[i + 1..]);
            return Err(ProtocolError);
          }
          all := all + {items[i].uuid};
        }
      }
      assert before + items[..|items|] == before + items;
      r := Ok(all);
    }

    method DownloadPage(m: Manifest, k: nat, so: Progress, seen: set<string>, ask: string -> Answer)
      returns (r: Result<Progress, SyncError>, seen': set<string>)
      requires NoRepeats(Uuids(so.items)) && seen == set u | u in Uuids(so.items)
      modifies this
      ensures preferred == Failover(urls, old(preferred), ask).0
      ensures r == AddPage(m, limits, k, Failover(urls, old(preferred), ask).1, so)
      ensures r.Ok? ==> NoRepeats(Uuids(r.value.items)) && seen' == set u | u in Uuids(r.value.items)
    {
      seen' := seen;
      var reply := RequestWithFailover(ask);
      if reply.Err? {
        return Err(reply.error), seen;
      }
      if !reply.value.Response? || reply.value.status != 200 {
        return Err(RequestError), seen;
      }
      if !reply.value.body.PageBody? || !PageOk(m, k, reply.value.body.page) {
        return Err(ProtocolError), seen;
      }
      var items := reply.value.body.page.items;
      var noted := NoteUuids(items, seen, so.items);
      if noted.Err? {
        return Err(ProtocolError), seen;
      }
      seen' := noted.value;
      var bytes := so.bytes + limits.size(items);
      if bytes > limits.maxBytes {
        return Err(ProtocolError), seen';
      }
      r := Ok(Progress(so.items + items, bytes));
    }

    method Sync(net: nat -> string -> Answer) returns (r: Result<Option<Snapshot>, SyncError>)
      modifies this
      ensures r == SyncResult(Link(urls, old(preferred), net), limits)
    {
      ghost var link := Link(urls, preferred, net);
      var reply := RequestWithFailover(net(0));
      var head := ManifestFrom(reply, limits);
      if head.Err? {
        return Err(head.error);
      }
      if head.value.None? {
        return Ok(None);
      }
      var m := head.value.value;
      var so, seen := Progress([], 0), {};
      for k := 0 to m.pageCount
        invariant preferred == link.PreferredAt(k + 1)
        invariant Pages(link, m, limits, k) == Ok(so)
        invariant NoRepeats(Uuids(so.items)) && seen == set u | u in Uuids(so.items)
      {
        var page, noted := DownloadPage(m, k, so, seen, net(k + 1));
        assert Pages(link, m, limits, k + 1) == page;
        if page.Err? {
          PagesStayFailed(link, m, limits, k + 1, m.pageCount);
          return Err(page.error);
        }
        so, seen := page.value, noted;
      }
      if |so.items| != m.itemCount || ItemsDigest(so.items) != m.digest {
        return Err(ProtocolError);
      }
      r := Ok(Some(Snapshot(m.schemaVersion, m.generation, m.digest, so.items)));
    }
  }

  lemma {:induction false} PagesStayFailed(link: Link, m: Manifest, limits: Limits, k: nat, n: nat)
    requires k <= n && Pages(link, m, limits, k).Err?
    ensures Pages(link, m, limits, n) == Pages(link, m, limits, k)
  {
    if k < n {
      PagesStayFailed(link, m, limits, k, n - 1);
    }
  }
}
