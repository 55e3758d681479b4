/** agent/app/lbprobe.py over the reals: the delay that steers clients between nodes, the smoothed
    load behind it, and the window of recent traffic. */
module LoadProbe {
  import opened Wrappers
  import opened Seqs
  import Traffic

  // --- the delay ---------------------------------------------------------------------------------------

  const MAX_DELAY_MS := 2000.0

  datatype Settings = Settings(
    loadBaseMs: real, switchPenaltyMs: real, stickBytes: real, fullLoad: real, linkMbps: real)

  const Defaults := Settings(20.0, 1000.0, 65536.0, 0.95, 0.0)

  predicate Sane(s: Settings) {
    s.loadBaseMs >= 0.0 && s.switchPenaltyMs >= 0.0 && s.stickBytes > 0.0 && s.fullLoad <= 1.0
  }

  function Max(a: real, b: real): real {
    if a < b then b else a
  }

  function Min(a: real, b: real): real {
    if a < b then a else b
  }

  /** No answer at or past full load. */
  function Penalty(s: Settings, rho: real): Option<real>
    requires Sane(s)
  {
    if rho >= s.fullLoad then None
    else
      var load := Max(0.0, rho);
      Some(s.loadBaseMs * load / (1.0 - load))
  }

  function SwitchPenalty(s: Settings, recent: nat): real
    requires Sane(s)
  {
    s.switchPenaltyMs / (1.0 + recent as real / s.stickBytes)
  }

  function Delay(s: Settings, rho: real, recent: nat): Option<real>
    requires Sane(s)
  {
    match Penalty(s, rho)
    case None => None
    case Some(load) => Some(Min(load + SwitchPenalty(s, recent), MAX_DELAY_MS))
  }

  /** With the default settings the load never adds 380 ms, and the cap never bites. */
  lemma DefaultBounds(rho: real, recent: nat)
    requires Penalty(Defaults, rho).Some?
    ensures 0.0 <= Penalty(Defaults, rho).value < 380.0
    ensures 0.0 < SwitchPenalty(Defaults, recent) <= 1000.0
    ensures Delay(Defaults, rho, recent) == Some(Penalty(Defaults, rho).value + SwitchPenalty(Defaults, recent))
    ensures Delay(Defaults, rho, recent).value < 1380.0
  {
    var load := Max(0.0, rho);
    Quotient(20.0 * load, 1.0 - load, 380.0);
    var d := 1.0 + recent as real / 65536.0;
    assert d >= 1.0;
    Quotient(1000.0, d, 1001.0);
    DivAtMost(1000.0, d, 1000.0);
  }

  lemma MulMonotone(a: real, b: real, d: real)
    requires d > 0.0
    ensures a <= b ==> a * d <= b * d
    ensures a < b ==> a * d < b * d
  {
  }

  lemma Quotient(n: real, d: real, bound: real)
    requires n >= 0.0 && d > 0.0 && n < bound * d
    ensures 0.0 <= n / d < bound
    ensures n > 0.0 ==> n / d > 0.0
  {
    var q := n / d;
    assert q * d == n;
    MulMonotone(bound, q, d);
    MulMonotone(q, 0.0, d);
  }

  lemma DivAtMost(n: real, d: real, bound: real)
    requires d > 0.0 && n <= bound * d
    ensures n / d <= bound
  {
    var q := n / d;
    assert q * d == n;
    MulMonotone(bound, q, d);
  }

  lemma QuotientIs(n: real, d: real, q: real)
    requires d > 0.0 && q * d == n
    ensures n / d == q
  {
    var x := n / d;
    assert x * d == n;
    MulMonotone(x, q, d);
    MulMonotone(q, x, d);
  }

  /** Traffic of at least the stick threshold halves the switch penalty, and more never raises it. */
  lemma SwitchMelts(less: nat, more: nat)
    requires less <= more
    ensures SwitchPenalty(Defaults, more) <= SwitchPenalty(Defaults, less)
    ensures more >= 65536 ==> SwitchPenalty(Defaults, more) <= 500.0
    ensures SwitchPenalty(Defaults, 0) == 1000.0
  {
    var a, b := 1.0 + less as real / 65536.0, 1.0 + more as real / 65536.0;
    assert 1.0 <= a <= b;
    var q := 1000.0 / a;
    assert q * a == 1000.0;
    assert q >= 0.0 by {
      Quotient(1000.0, a, 1001.0);
    }
    assert q * b >= q * a;
    DivAtMost(1000.0, b, q);
    if more >= 65536 {
      DivAtMost(1000.0, b, 500.0);
    }
  }

  /** What a client ranks a node by: its ping plus the delay of the probe. */
  function Rank(pingMs: real, rho: real, recent: nat): Option<real> {
    match Delay(Defaults, rho, recent)
    case None => None
    case Some(d) => Some(pingMs + d)
  }

  /** The node that carries a user's traffic beats every idle one, unless that one's ping is at
      least 120 ms better. */
  lemma CarrierWins(carrierPing: real, carrierRho: real, bytes: nat, idlePing: real, idleRho: real)
    requires Rank(carrierPing, carrierRho, bytes).Some? && bytes >= 65536
    requires Rank(idlePing, idleRho, 0).Some?
    requires carrierPing - idlePing <= 120.0
    ensures Rank(carrierPing, carrierRho, bytes).value < Rank(idlePing, idleRho, 0).value
  {
    DefaultBounds(carrierRho, bytes);
    DefaultBounds(idleRho, 0);
    SwitchMelts(65536, bytes);
    SwitchMelts(0, 0);
  }

  /** The load at which the penalty is `p`. */
  lemma PenaltyAt(p: real) returns (rho: real)
    requires 0.0 <= p < 380.0
    ensures Penalty(Defaults, rho) == Some(p)
  {
    rho := p / (20.0 + p);
    Quotient(p, 20.0 + p, 0.95);
    assert rho * (20.0 + p) == p;
    assert rho * (20.0 + p) == 20.0 * rho + p * rho;
    assert p * (1.0 - rho) == p - p * rho;
    QuotientIs(20.0 * rho, 1.0 - rho, p);
  }

  /** 120 ms is exact: for any greater ping difference some load lets the idle node win. */
  lemma CarrierMayLose(carrierPing: real, idlePing: real) returns (rho: real)
    requires carrierPing - idlePing > 120.0
    ensures Rank(carrierPing, rho, 65536).Some? && Rank(idlePing, 0.0, 0).Some?
    ensures Rank(idlePing, 0.0, 0).value < Rank(carrierPing, rho, 65536).value
  {
    var d := carrierPing - idlePing;
    var p := if d >= 500.0 then 1.0 else (500.0 - d + 380.0) / 2.0;
    rho := PenaltyAt(p);
    DefaultBounds(rho, 65536);
    var _ := PenaltyAt(0.0);
    DefaultBounds(0.0, 0);
    SwitchMelts(0, 0);
    assert SwitchPenalty(Defaults, 65536) == 500.0;
    assert Penalty(Defaults, 0.0) == Some(0.0);
  }

  // --- the load ---------------------------------------------------------------------------------------------

  /** What the kernel reports at one moment: CPU jiffies, and bytes of the busier direction. */
  datatype Reading = Reading(idle: int, total: int, net: int, time: real)

  datatype Load = Load(cpu: real, net: real, rho: real)

  const NoLoad := Load(0.0, 0.0, 0.0)

  const ALPHA := 2.0 / 30.0

  function Busy(from: Reading, to: Reading): real {
    var ticks := if to.total - from.total < 1 then 1 else to.total - from.total;
    1.0 - (to.idle - from.idle) as real / ticks as real
  }

  function Mbps(from: Reading, to: Reading): real {
    (to.net - from.net) as real * 8.0 / Max(0.001, to.time - from.time) / 1000000.0
  }

  /** One smoothing step; without a measured link speed the network stays out of it. */
  function Smooth(linkMbps: real, l: Load, from: Reading, to: Reading): Load {
    var cpu := l.cpu + ALPHA * (Min(1.0, Max(0.0, Busy(from, to))) - l.cpu);
    var net := if linkMbps > 0.0 then l.net + ALPHA * (Min(1.0, Mbps(from, to) / linkMbps) - l.net) else l.net;
    Load(cpu, net, Max(cpu, net))
  }

  /** After the readings so far; a failed one is skipped and the next compares with the last good one. */
  function Sampled(linkMbps: real, first: Reading, readings: seq<Option<Reading>>): (Load, Reading) {
    if readings == [] then (NoLoad, first)
    else
      var (l, last) := Sampled(linkMbps, first, readings[..|readings| - 1]);
      match readings[|readings| - 1]
      case None => (l, last)
      case Some(now) => (Smooth(linkMbps, l, last, now), now)
  }

  predicate LoadInRange(l: Load) {
    0.0 <= l.cpu <= 1.0 && l.net <= 1.0 && 0.0 <= l.rho <= 1.0
  }

  lemma MbpsSign(from: Reading, to: Reading, link: real)
    requires link > 0.0
    ensures from.net <= to.net ==> Mbps(from, to) / link >= 0.0
    ensures from.net > to.net ==> Mbps(from, to) / link < 0.0
  {
    var d := Max(0.001, to.time - from.time);
    var bytes := (to.net - from.net) as real * 8.0;
    SignOfQuotient(bytes, d);
    SignOfQuotient(bytes / d, 1000000.0);
    SignOfQuotient(Mbps(from, to), link);
  }

  lemma SignOfQuotient(n: real, d: real)
    requires d > 0.0
    ensures n >= 0.0 ==> n / d >= 0.0
    ensures n < 0.0 ==> n / d < 0.0
  {
    var q := n / d;
    assert q * d == n;
    MulMonotone(q, 0.0, d);
    MulMonotone(0.0, q, d);
  }

  /** Whatever the kernel reports, the load that is acted on stays between 0 and 1. */
  lemma {:induction false} LoadStaysInRange(linkMbps: real, first: Reading, readings: seq<Option<Reading>>)
    ensures LoadInRange(Sampled(linkMbps, first, readings).0)
  {
    if readings != [] {
      LoadStaysInRange(linkMbps, first, readings[..|readings| - 1]);
    }
  }

  /** The network counters never go back from one good reading to the next. */
  ghost predicate NetGrows(linkMbps: real, first: Reading, readings: seq<Option<Reading>>) {
    forall k :: 0 <= k < |readings| && readings[k].Some? ==>
      Sampled(linkMbps, first, readings[..k]).1.net <= readings[k].value.net
  }

  /** Unlike the CPU, the smoothed network load is bounded below only while the counters grow: */
  lemma {:induction false} NetStaysInRange(linkMbps: real, first: Reading, readings: seq<Option<Reading>>)
    requires NetGrows(linkMbps, first, readings)
    ensures 0.0 <= Sampled(linkMbps, first, readings).0.net <= 1.0
  {
    if readings != [] {
      var n := |readings| - 1;
      forall k | 0 <= k < n && readings[..n][k].Some?
        ensures Sampled(linkMbps, first, readings[..n][..k]).1.net <= readings[..n][k].value.net
      {
        assert readings[..n][..k] == readings[..k];
      }
      NetStaysInRange(linkMbps, first, readings[..n]);
      if readings[n].Some? && linkMbps > 0.0 {
        var from := Sampled(linkMbps, first, readings[..n]).1;
        assert from.net <= readings[n].value.net;
        MbpsSign(from, readings[n].value, linkMbps);
      }
    }
  }

  /** from an idle start, a single step of the counters backwards makes it negative, and no other does. */
  lemma NetNegative(linkMbps: real, first: Reading, now: Reading)
    requires linkMbps > 0.0
    ensures Sampled(linkMbps, first, [Some(now)]).0.net < 0.0 <==> now.net < first.net
  {
    assert [Some(now)][..0] == [];
    MbpsSign(first, now, linkMbps);
  }

  // --- recent traffic -----------------------------------------------------------------------------------------

  datatype Sample = Sample(time: real, total: nat)

  type History = seq<Sample>

  const WINDOW := 600.0

  function InWindow(now: real): Sample -> bool {
    (s: Sample) => now - s.time <= WINDOW
  }

  /** A total below the last one means the counters started over. */
  function Extended(h: History, now: real, total: nat): History {
    (if h != [] && total < h[|h| - 1].total then [] else h) + [Sample(now, total)]
  }

  function NextHistory(h: History, now: real, total: nat): History {
    Filter(InWindow(now), Extended(h, now, total))
  }

  ghost predicate Ordered(h: History, clock: real) {
    && (forall i, j :: 0 <= i < j < |h| ==> h[i].time <= h[j].time && h[i].total <= h[j].total)
    && (forall i :: 0 <= i < |h| ==> h[i].time <= clock)
  }

  lemma ExtendedOrdered(h: History, clock: real, now: real, total: nat)
    requires Ordered(h, clock) && clock <= now
    ensures Ordered(Extended(h, now, total), now)
  {
  }

  lemma {:induction false} FilterSuffix(h: History, now: real, k: nat)
    requires k < |h| && now - h[k].time <= WINDOW
    requires forall i, j :: 0 <= i < j < |h| ==> h[i].time <= h[j].time
    requires forall i :: 0 <= i < k ==> now - h[i].time > WINDOW
    ensures Filter(InWindow(now), h) == h[k..]
  {
    assert h == h[..k] + h[k..];
    FilterConcat(InWindow(now), h[..k], h[k..]);
    FilterNone(InWindow(now), h[..k]);
    FilterAll(InWindow(now), h[k..]);
  }

  /** Adds a sample and pops what has left the window. The newest sample never leaves it, so the
      loop ends before the list is empty. */
  method AddSample(h: History, ghost clock: real, now: real, total: nat) returns (r: History)
    requires Ordered(h, clock) && clock <= now
    ensures r == NextHistory(h, now, total) && r != [] && Ordered(r, now)
    ensures r[|r| - 1] == Sample(now, total)
    ensures forall s :: s in r ==> now - s.time <= WINDOW
  {
    r := h;
    if r != [] && total < r[|r| - 1].total {
      r := [];
    }
    r := r + [Sample(now, total)];
    ghost var all, k := r, 0;
    ExtendedOrdered(h, clock, now, total);
    while now - r[0].time > WINDOW
      invariant 0 <= k < |all| && r == all[k..]
      invariant forall i :: 0 <= i < k ==> now - all[i].time > WINDOW
      decreases |r|
    {
      assert |r| > 1;
      r := r[1..];
      k := k + 1;
    }
    FilterSuffix(all, now, k);
  }

  function SumSteps(h: History): nat {
    if |h| <= 1 then 0
    else SumSteps(h[..|h| - 1]) + Traffic.Step1(h[|h| - 2].total, h[|h| - 1].total)
  }

  /** The recent bytes are the traffic since the oldest sample kept: what the accounting of the
      same counters would credit over the window, poll by poll. */
  lemma {:induction false} RecentIsTraffic(h: History, clock: real)
    requires Ordered(h, clock) && h != []
    ensures SumSteps(h) == h[|h| - 1].total - h[0].total
  {
    if |h| > 1 {
      var front := h[..|h| - 1];
      RecentIsTraffic(front, clock);
    }
  }

  // --- the probe -------------------------------------------------------------------------------------------------

  function HistoryOf(histories: map<string, History>, email: string): History {
    if email in histories then histories[email] else []
  }

  datatype Activity = Activity(histories: map<string, History>, recent: map<string, nat>)

  /** Every user's samples, and by probe id the traffic they show; from what was known before. */
  function Refreshed(known: map<string, History>, ids: map<string, string>, now: real, entries: seq<(string, nat)>): Activity {
    if entries == [] then Activity(known, map[])
    else
      var n := |entries| - 1;
      var before := Refreshed(known, ids, now, entries[..n]);
      var email := entries[n].0;
      var h := NextHistory(HistoryOf(before.histories, email), now, entries[n].1);
      Activity(before.histories[email := h], if email in ids then before.recent[ids[email] := SumSteps(h)] else before.recent)
  }

  /** A user not polled keeps the samples known before. */
  lemma {:induction false} Unpolled(known: map<string, History>, ids: map<string, string>, now: real,
                                    entries: seq<(string, nat)>, email: string)
    requires forall i :: 0 <= i < |entries| ==> entries[i].0 != email
    ensures HistoryOf(Refreshed(known, ids, now, entries).histories, email) == HistoryOf(known, email)
  {
    if entries != [] {
      Unpolled(known, ids, now, entries[..|entries| - 1], email);
    }
  }

  /** A probe id is shown exactly if a polled user has it, and then with the traffic in the window
      of one such user, who gained one sample. */
  lemma {:induction false} RefreshedShows(known: map<string, History>, ids: map<string, string>, now: real,
                                          entries: seq<(string, nat)>, id: string) returns (i: nat)
    requires DistinctNames(entries)
    ensures var a := Refreshed(known, ids, now, entries);
            && (id in a.recent <==> exists j :: 0 <= j < |entries| && entries[j].0 in ids && ids[entries[j].0] == id)
            && (id in a.recent ==>
                  && i < |entries| && entries[i].0 in ids && ids[entries[i].0] == id
                  && HistoryOf(a.histories, entries[i].0) == NextHistory(HistoryOf(known, entries[i].0), now, entries[i].1)
                  && a.recent[id] == SumSteps(HistoryOf(a.histories, entries[i].0)))
  {
    hide NextHistory, SumSteps;
    i := 0;
    if entries != [] {
      var n := |entries| - 1;
      var email := entries[n].0;
      i := RefreshedShows(known, ids, now, entries[..n], id);
      if email in ids && ids[email] == id {
        i := n;
        Unpolled(known, ids, now, entries[..n], email);
      } else if id in Refreshed(known, ids, now, entries[..n]).recent {
        assert entries[..n][i] == entries[i];
      }
    }
  }

  ghost predicate DistinctNames(entries: seq<(string, nat)>) {
    forall i, j :: 0 <= i < j < |entries| ==> entries[i].0 != entries[j].0
  }

  class LoadProbe {
    const settings: Settings
    var load: Load
    var recent: map<string, nat>
    var histories: map<string, History>
    ghost var clock: real

    ghost predicate Valid()
      reads this
    {
      && Sane(settings) && LoadInRange(load)
      && forall email :: email in histories ==> Ordered(histories[email], clock)
    }

    constructor (settings: Settings)
      requires Sane(settings)
      ensures Valid() && load == NoLoad && histories == map[] && recent == map[] && this.settings == settings
    {
      this.settings := settings;
      load, recent, histories, clock := NoLoad, map[], map[], 0.0;
    }

    method SampleLoop(first: Reading, readings: seq<Option<Reading>>)
      requires Valid() && load == NoLoad
      modifies this`load
      ensures Valid() && load == Sampled(settings.linkMbps, first, readings).0
    {
      var last := first;
      for k := 0 to |readings|
        invariant Valid() && (load, last) == Sampled(settings.linkMbps, first, readings[..k])
      {
        assert readings[..k + 1][..k] == readings[..k];
        LoadStaysInRange(settings.linkMbps, first, readings[..k + 1]);
        match readings[k]
        case None => continue;
        case Some(now) =>
          load := Smooth(settings.linkMbps, load, last, now);
          last := now;
      }
      assert readings[..|readings|] == readings;
    }

    /** Who moved how much here lately, by probe id. */
    method RefreshActivity(ids: map<string, string>, now: real, entries: seq<(string, nat)>)
      requires Valid() && clock <= now
      modifies this`recent, this`histories, this`clock
      ensures Valid() && clock == now
      ensures Activity(histories, recent) == Refreshed(old(histories), ids, now, entries)
    {
      hide NextHistory, SumSteps;
      var seen: map<string, nat> := map[];
      ghost var before := histories;
      clock := now;
      for k := 0 to |entries|
        invariant Valid() && clock == now
        invariant Activity(histories, seen) == Refreshed(before, ids, now, entries[..k])
      {
        assert entries[..k + 1][..k] == entries[..k];
        var email, total := entries[k].0, entries[k].1;
        var h := AddSample(HistoryOf(histories, email), now, now, total);
        RecentIsTraffic(h, now);
        histories := histories[email := h];
        if email in ids {
          seen := seen[ids[email] := total - h[0].total];
        }
      }
      assert entries[..|entries|] == entries;
      recent := seen;
    }

    /** What a client waits for, or no answer from a full node. */
    function DelayMs(probeId: string): Option<real>
      requires Valid()
      reads this
    {
      Delay(settings, load.rho, if probeId in recent then recent[probeId] else 0)
    }
  }

  // --- the formulas, solved ----------------------------------------------------------------------------

  /** The load penalty is the delay of a queue at that load: base times load over what is left; at or
      past full load there is none, because there is no answer. */
  lemma PenaltyExact(s: Settings, rho: real)
    requires Sane(s)
    ensures Penalty(s, rho).None? <==> rho >= s.fullLoad
    ensures rho < s.fullLoad && rho >= 0.0 ==> Penalty(s, rho).value * (1.0 - rho) == s.loadBaseMs * rho
    ensures rho < s.fullLoad && rho < 0.0 ==> Penalty(s, rho) == Some(0.0)
  {
  }

  /** The switch penalty is its full value times the threshold over threshold plus traffic. */
  lemma SwitchExact(s: Settings, recent: nat)
    requires Sane(s)
    ensures SwitchPenalty(s, recent) * (s.stickBytes + recent as real) == s.switchPenaltyMs * s.stickBytes
  {
    var share := recent as real / s.stickBytes;
    SignOfQuotient(recent as real, s.stickBytes);
    assert share * s.stickBytes == recent as real;
    var d := 1.0 + share;
    assert SwitchPenalty(s, recent) * d == s.switchPenaltyMs;
    assert d * s.stickBytes == s.stickBytes + recent as real;
    assert SwitchPenalty(s, recent) * (d * s.stickBytes) == (SwitchPenalty(s, recent) * d) * s.stickBytes;
  }

  lemma DelayExact(s: Settings, rho: real, recent: nat)
    requires Sane(s)
    ensures Delay(s, rho, recent).None? <==> rho >= s.fullLoad
    ensures rho < s.fullLoad ==>
              var all := Penalty(s, rho).value + SwitchPenalty(s, recent);
              Delay(s, rho, recent) == Some(if all < 2000.0 then all else 2000.0)
  {
  }

  /** Each good reading takes the CPU figure a fifteenth of the way to the share of busy ticks. */
  lemma CpuExact(linkMbps: real, l: Load, from: Reading, to: Reading)
    requires to.total > from.total && from.idle <= to.idle && to.idle - from.idle <= to.total - from.total
    ensures var ticks, idle := (to.total - from.total) as real, (to.idle - from.idle) as real;
            15.0 * ticks * (Smooth(linkMbps, l, from, to).cpu - l.cpu) == (ticks - idle) - ticks * l.cpu
  {
    var ticks, idle := (to.total - from.total) as real, (to.idle - from.idle) as real;
    var share := idle / ticks;
    assert share * ticks == idle;
    SignOfQuotient(idle, ticks);
    DivAtMost(idle, ticks, 1.0);
    assert Busy(from, to) == 1.0 - share;
    var cpu := Smooth(linkMbps, l, from, to).cpu;
    assert 15.0 * (cpu - l.cpu) == (1.0 - share) - l.cpu;
    assert ticks * (15.0 * (cpu - l.cpu)) == ticks * ((1.0 - share) - l.cpu);
    assert ticks * ((1.0 - share) - l.cpu) == ticks - share * ticks - ticks * l.cpu;
  }

  /** And the network figure a fifteenth of the way to the share of the link in use, at most all of it;
      without a measured link it stays as it is. */
  lemma NetExact(linkMbps: real, l: Load, from: Reading, to: Reading)
    requires to.time - from.time >= 0.001
    ensures var net := Smooth(linkMbps, l, from, to).net;
            var capacity := linkMbps * 1000000.0 * (to.time - from.time);
            var bits := (to.net - from.net) as real * 8.0;
            && (linkMbps <= 0.0 ==> net == l.net)
            && (linkMbps > 0.0 && bits >= capacity ==> 15.0 * (net - l.net) == 1.0 - l.net)
            && (linkMbps > 0.0 && bits < capacity ==> 15.0 * capacity * (net - l.net) == bits - capacity * l.net)
  {
    if linkMbps > 0.0 {
      var dt := to.time - from.time;
      var bits := (to.net - from.net) as real * 8.0;
      var capacity := linkMbps * 1000000.0 * dt;
      var share := Mbps(from, to) / linkMbps;
      var net := Smooth(linkMbps, l, from, to).net;
      LinkShare(bits, dt, linkMbps);
      assert share * capacity == bits;
      assert capacity > 0.0;
      MulMonotone(share, 1.0, capacity);
      MulMonotone(1.0, share, capacity);
      assert 15.0 * (net - l.net) == Min(1.0, share) - l.net;
      if bits < capacity {
        Mixed(share, capacity, bits, l.net, net);
      }
    }
  }

  lemma Mixed(share: real, capacity: real, bits: real, was: real, net: real)
    requires share * capacity == bits && 15.0 * (net - was) == share - was
    ensures 15.0 * capacity * (net - was) == bits - capacity * was
  {
    assert capacity * (15.0 * (net - was)) == capacity * (share - was);
    assert capacity * (share - was) == share * capacity - capacity * was;
  }

  lemma LinkShare(bits: real, dt: real, link: real)
    requires dt > 0.0 && link > 0.0
    ensures bits / dt / 1000000.0 / link * (link * 1000000.0 * dt) == bits
    ensures link * 1000000.0 * dt > 0.0
  {
    var a := bits / dt;
    var b := a / 1000000.0;
    var c := b / link;
    assert a * dt == bits && b * 1000000.0 == a && c * link == b;
    assert c * (link * 1000000.0 * dt) == (c * link) * 1000000.0 * dt;
  }

  /** The load acted upon is the larger of the two. */
  lemma RhoExact(linkMbps: real, l: Load, from: Reading, to: Reading)
    ensures var now := Smooth(linkMbps, l, from, to);
            now.rho >= now.cpu && now.rho >= now.net && (now.rho == now.cpu || now.rho == now.net)
  {
  }

  /** The samples kept are the new one and those of the last ten minutes since the counters last
      started over. */
  lemma WindowExact(h: History, now: real, total: nat, s: Sample)
    ensures s in NextHistory(h, now, total) <==>
            s == Sample(now, total) ||
            (s in h && now - s.time <= 600.0 && total >= h[|h| - 1].total)
  {
    FilterMember(InWindow(now), Extended(h, now, total), s);
  }
}
