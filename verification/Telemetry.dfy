/** agent/app/control_loop.py and the telemetry handler: report numbers are reserved on disk in
    blocks, so that a restarted agent never reuses one. */
module Telemetry {
  import opened Wrappers

  const BLOCK := 1024

  /** A numbered report and the start of the agent that sent it. */
  datatype Report = Report(start: nat, number: nat)

  /** On disk: `reserved file`. In memory: the last confirmed number and the reservation. At the
      centre: the stored report. `wire` is every report ever sent; `base` what the running agent
      loaded; `unsaved` whether its last reservation failed without reaching the disk. */
  datatype World = World(
    file: nat, running: bool, sequence: nat, reserved: nat, backoff: nat,
    start: nat, base: nat, unsaved: bool, wire: set<Report>, stored: Option<Report>)

  datatype Event =
    | Start
    | Stop
    | Fail
    | Reserve(raised: bool, written: bool)
    | Send
    | Deliver(report: Report)
    | Confirm

  predicate NeedsBlock(w: World) {
    w.sequence + 1 > w.reserved
  }

  function Backoff(seconds: nat): nat {
    if 2 * seconds < 60 then 2 * seconds else 60
  }

  /** The centre keeps a report only if its number is above the stored one. */
  function Receive(stored: Option<Report>, r: Report): Option<Report> {
    if stored.Some? && r.number <= stored.value.number then stored else Some(r)
  }

  function Next(w: World, e: Event): Option<World> {
    match e
    case Start =>
      if w.running then None
      else Some(w.(running := true, sequence := w.file, reserved := w.file, backoff := 1,
                   start := w.start + 1, base := w.file, unsaved := false))
    case Stop => Some(w.(running := false))
    case Fail => if w.running then Some(w.(backoff := Backoff(w.backoff))) else None
    case Reserve(raised, written) =>
      // The reservation is taken in memory before it is written.
      if !w.running || !NeedsBlock(w) || !(raised || written) then None
      else
        var block := w.sequence + BLOCK;
        Some(w.(reserved := block, file := if written then block else w.file, unsaved := !written,
                backoff := if raised then Backoff(w.backoff) else w.backoff))
    case Send =>
      if !w.running || NeedsBlock(w) then None
      else Some(w.(wire := w.wire + {Report(w.start, w.sequence + 1)}))
    case Deliver(r) => if r in w.wire then Some(w.(stored := Receive(w.stored, r))) else None
    case Confirm =>
      // Only a reply to this very report confirms it.
      if w.running && Report(w.start, w.sequence + 1) in w.wire
         && w.stored.Some? && w.sequence + 1 <= w.stored.value.number
      then Some(w.(sequence := w.sequence + 1, backoff := 1)) else None
  }

  // --- the loop ------------------------------------------------------------------------------------

  function After(w: World, events: seq<Event>): Option<World> {
    if events == [] then Some(w)
    else
      match After(w, events[..|events| - 1])
      case None => None
      case Some(v) => Next(v, events[|events| - 1])
  }

  lemma AfterSnoc(w: World, events: seq<Event>, e: Event)
    requires After(w, events).Some?
    ensures After(w, events + [e]) == Next(After(w, events).value, e)
  {
    assert (events + [e])[..|events|] == events;
  }

  datatype Reply = Lost | Unanswered | Answered

  /** How one round of the control loop goes: whether it got as far as the report, how the write of
      a reservation went, and what became of the report. */
  datatype Round = Round(reconciled: bool, raised: bool, written: bool, reply: Reply)

  class ControlLoop {
    var file: nat
    var running: bool
    var sequence: nat
    var reserved: nat
    var backoff: nat
    // the centre, the network, and what the numbers are measured against
    ghost var stored: Option<Report>
    ghost var wire: set<Report>
    ghost var start: nat
    ghost var base: nat
    ghost var unsaved: bool
    ghost var first: World
    ghost var events: seq<Event>

    ghost function View(): World
      reads this
    {
      World(file, running, sequence, reserved, backoff, start, base, unsaved, wire, stored)
    }

    /** The object has done exactly the logged events. */
    ghost predicate Logged()
      reads this
    {
      Beginning(first) && After(first, events) == Some(View())
    }

    ghost method Log(e: Event)
      requires Beginning(first) && After(first, events).Some?
      requires Next(After(first, events).value, e) == Some(View())
      modifies this`events
      ensures Logged()
    {
      AfterSnoc(first, events, e);
      events := events + [e];
    }

    constructor (file: nat)
      ensures Logged() && !running && this.file == file && wire == {}
    {
      this.file, running, sequence, reserved, backoff := file, false, 0, 0, 1;
      stored, wire, start, base, unsaved, events := None, {}, 0, 0, false, [];
      first := World(file, false, 0, 0, 1, 0, 0, false, {}, None);
    }

    method Begin()
      requires Logged() && !running
      modifies this
      ensures Logged() && running && sequence == reserved == file == old(file)
    {
      sequence := file;
      reserved := sequence;
      running := true;
      backoff := 1;
      start, base, unsaved := start + 1, file, false;
      Log(Start);
    }

    /** Takes the next block of numbers if this one is used up. */
    method ReserveIfNeeded(raised: bool, written: bool) returns (ok: bool)
      requires Logged() && running
      modifies this
      ensures Logged() && running && sequence == old(sequence) && (ok ==> !NeedsBlock(View()))
      ensures wire == old(wire) && start == old(start)
      ensures ok == !(raised && NeedsBlock(old(View())))
    {
      ok := true;
      if sequence + 1 > reserved {
        reserved := sequence + BLOCK;
        if written || !raised {
          file := reserved;
        }
        unsaved := raised && !written;
        if raised {
          backoff := Backoff(backoff);
        }
        Log(Reserve(raised, written || !raised));
        ok := !raised;
      }
    }

    method SendTelemetry(reply: Reply)
      requires Logged() && running && !NeedsBlock(View())
      modifies this
      ensures Logged() && running && start == old(start)
      ensures sequence == if reply == Answered then old(sequence) + 1 else old(sequence)
      ensures backoff == if reply == Answered then 1 else Backoff(old(backoff))
      ensures wire == old(wire) + {Report(start, old(sequence) + 1)}
    {
      hide After, Beginning, Next;
      Transmit(reply != Lost);
      if reply == Answered {
        Confirm();
      } else {
        Retreat();
      }
    }

    /** The report goes out; whether or not it arrives is up to the network. */
    method Transmit(arrives: bool)
      requires Logged() && running && !NeedsBlock(View())
      modifies this`wire, this`stored, this`events
      ensures Logged() && wire == old(wire) + {Report(start, sequence + 1)}
      ensures arrives ==> stored.Some? && sequence + 1 <= stored.value.number
    {
      hide After, Beginning;
      ghost var r := Report(start, sequence + 1);
      wire := wire + {r};
      Log(Send);
      if arrives {
        stored := Receive(stored, r);
        Log(Deliver(r));
      }
    }

    method Confirm()
      requires Logged() && running && Report(start, sequence + 1) in wire
      requires stored.Some? && sequence + 1 <= stored.value.number
      modifies this`sequence, this`backoff, this`events
      ensures Logged() && sequence == old(sequence) + 1 && backoff == 1
    {
      hide After, Beginning;
      sequence := sequence + 1;
      backoff := 1;
      Log(Event.Confirm);
    }

    method Retreat()
      requires Logged() && running
      modifies this`backoff, this`events
      ensures Logged() && backoff == Backoff(old(backoff))
    {
      hide After, Beginning;
      backoff := Backoff(backoff);
      Log(Fail);
    }

    /** The control loop, round after round, until it is stopped. */
    method Run(rounds: seq<Round>)
      requires Logged() && !running
      modifies this
      ensures Logged() && !running
    {
      Begin();
      for k := 0 to |rounds|
        invariant Logged() && running
      {
        var round := rounds[k];
        if !round.reconciled {
          Retreat();
          continue;
        }
        var ok := ReserveIfNeeded(round.raised, round.written);
        if ok {
          SendTelemetry(round.reply);
        }
      }
      running := false;
      Log(Stop);
    }
  }

  // --- what the numbers guarantee -------------------------------------------------------------------

  ghost predicate Beginning(w: World) {
    !w.running && !w.unsaved && w.start == 0 && w.base == 0 && w.wire == {} && w.stored == None
    && w.sequence == 0 && w.reserved == 0
  }

  /** A report is sent although its number's reservation never reached the disk. */
  ghost predicate SendsUnsaved(w: World, e: Event) {
    e.Send? && w.running && w.unsaved
  }

  ghost predicate WorldOk(w: World) {
    && w.base <= w.file && w.base <= w.sequence <= w.reserved
    && (w.unsaved ==> w.file <= w.sequence)
    && (w.running && !w.unsaved ==> w.reserved == w.file)
    && (forall r :: r in w.wire ==> r.start <= w.start)
    && (forall r :: r in w.wire && r.start == w.start ==> w.base < r.number <= w.sequence + 1 && r.number <= w.reserved)
    && (w.stored.Some? ==> w.stored.value in w.wire)
  }

  /** Every number sent is durably reserved, and a restart starts above all of them. */
  ghost predicate AllReserved(w: World) {
    && (forall r :: r in w.wire ==> r.number <= w.file)
    && (forall r :: r in w.wire && r.start < w.start ==> r.number <= w.base)
    && (forall r, t :: r in w.wire && t in w.wire && r.start < t.start ==> r.number < t.number)
  }

  lemma BeginningOk(w: World)
    requires Beginning(w)
    ensures WorldOk(w) && AllReserved(w)
  {
  }

  lemma OkStep(w: World, e: Event)
    requires WorldOk(w) && Next(w, e).Some?
    ensures WorldOk(Next(w, e).value)
  {
  }

  lemma ReservedStep(w: World, e: Event)
    requires WorldOk(w) && AllReserved(w) && Next(w, e).Some? && !SendsUnsaved(w, e)
    ensures AllReserved(Next(w, e).value)
  {
  }

  /** The number about to be sent is on disk exactly when the last reservation got there. */
  lemma SendExact(w: World)
    requires WorldOk(w) && Next(w, Send).Some?
    ensures w.sequence + 1 <= w.file <==> !w.unsaved
  {
  }

  ghost predicate IsRun(worlds: seq<World>, events: seq<Event>) {
    && |worlds| == |events| + 1 && Beginning(worlds[0])
    && forall k :: 0 <= k < |events| ==> Next(worlds[k], events[k]) == Some(worlds[k + 1])
  }

  lemma {:induction false} RunOk(worlds: seq<World>, events: seq<Event>, k: nat)
    requires IsRun(worlds, events) && k <= |events|
    ensures WorldOk(worlds[k])
    ensures (forall i :: 0 <= i < k ==> !SendsUnsaved(worlds[i], events[i])) ==> AllReserved(worlds[k])
  {
    hide Next, SendsUnsaved, AllReserved, WorldOk;
    if k == 0 {
      BeginningOk(worlds[0]);
    } else {
      RunOk(worlds, events, k - 1);
      assert Next(worlds[k - 1], events[k - 1]) == Some(worlds[k - 1 + 1]);
      OkStep(worlds[k - 1], events[k - 1]);
      if forall i :: 0 <= i < k ==> !SendsUnsaved(worlds[i], events[i]) {
        ReservedStep(worlds[k - 1], events[k - 1]);
      }
    }
  }

  /** Over a whole run: every number sent was always on disk, and every restart went above all
      earlier numbers, exactly when no report was sent on a reservation that failed to be written. */
  lemma ReservedExactly(worlds: seq<World>, events: seq<Event>)
    requires IsRun(worlds, events)
    ensures (forall k :: 0 <= k <= |events| ==> AllReserved(worlds[k])) <==>
            (forall k :: 0 <= k < |events| ==> !SendsUnsaved(worlds[k], events[k]))
  {
    hide Next, WorldOk, AllReserved, SendsUnsaved;
    if forall k :: 0 <= k < |events| ==> !SendsUnsaved(worlds[k], events[k]) {
      forall k | 0 <= k <= |events| ensures AllReserved(worlds[k]) {
        RunOk(worlds, events, k);
      }
    } else {
      var k :| 0 <= k < |events| && SendsUnsaved(worlds[k], events[k]);
      RunOk(worlds, events, k);
      assert Next(worlds[k], events[k]) == Some(worlds[k + 1]);
      UnsavedIsAbove(worlds[k], events[k]);
      assert !AllReserved(worlds[k + 1]);
    }
  }

  lemma UnsavedIsAbove(w: World, e: Event)
    requires WorldOk(w) && SendsUnsaved(w, e) && Next(w, e).Some?
    ensures !AllReserved(Next(w, e).value)
  {
    var sent := Report(w.start, w.sequence + 1);
    SendExact(w);
    assert sent in Next(w, e).value.wire;
  }

  /** A report of the running agent is turned away only for one of its own: never for what an agent
      sent before a restart. In particular its first report gets through. */
  lemma RestartGetsThrough(worlds: seq<World>, events: seq<Event>, k: nat, r: Report)
    requires IsRun(worlds, events) && k <= |events|
    requires forall i :: 0 <= i < k ==> !SendsUnsaved(worlds[i], events[i])
    requires r in worlds[k].wire && r.start == worlds[k].start
    requires worlds[k].stored.Some? && worlds[k].stored.value.start < r.start
    ensures Receive(worlds[k].stored, r) == Some(r) && worlds[k].stored.value.number < r.number
  {
    hide Next, SendsUnsaved;
    RunOk(worlds, events, k);
  }

  /** What the centre stores only grows. */
  lemma {:induction false} StoredGrows(worlds: seq<World>, events: seq<Event>, j: nat, k: nat)
    requires IsRun(worlds, events) && j <= k <= |events| && worlds[j].stored.Some?
    ensures worlds[k].stored.Some? && worlds[j].stored.value.number <= worlds[k].stored.value.number
    ensures worlds[k].stored != worlds[j].stored ==> worlds[j].stored.value.number < worlds[k].stored.value.number
  {
    if j < k {
      StoredGrows(worlds, events, j, k - 1);
      assert Next(worlds[k - 1], events[k - 1]) == Some(worlds[k - 1 + 1]);
    }
  }

  /** A failed write breaks it: the loop goes on with the block it could not save, and after a
      restart the same numbers are sent again, so that the first new report is turned away. */
  lemma FailedWriteReuses()
    ensures var w0 := World(0, false, 0, 0, 1, 0, 0, false, {}, None);
            var end := After(w0, [Start, Reserve(true, false), Send, Deliver(Report(1, 1)), Stop,
                                  Start, Reserve(false, true), Send, Deliver(Report(2, 1))]);
            && Beginning(w0) && end.Some? && Report(2, 1) in end.value.wire
            && end.value.start == 2 && end.value.stored == Some(Report(1, 1))
  {
    var w0 := World(0, false, 0, 0, 1, 0, 0, false, {}, None);
    var a := [Start, Reserve(true, false), Send];
    var b := a + [Deliver(Report(1, 1)), Stop, Start];
    var c := b + [Reserve(false, true), Send, Deliver(Report(2, 1))];
    AfterThree(w0, [], Start, Reserve(true, false), Send);
    AfterThree(w0, a, Deliver(Report(1, 1)), Stop, Start);
    AfterThree(w0, b, Reserve(false, true), Send, Deliver(Report(2, 1)));
    assert [] + [Start, Reserve(true, false), Send] == a;
    assert c == [Start, Reserve(true, false), Send, Deliver(Report(1, 1)), Stop,
                 Start, Reserve(false, true), Send, Deliver(Report(2, 1))];
  }

  lemma AfterThree(w: World, events: seq<Event>, a: Event, b: Event, c: Event)
    requires After(w, events).Some?
    requires Next(After(w, events).value, a).Some?
    requires Next(Next(After(w, events).value, a).value, b).Some?
    ensures After(w, events + [a, b, c]) == Next(Next(Next(After(w, events).value, a).value, b).value, c)
  {
    AfterSnoc(w, events, a);
    AfterSnoc(w, events + [a], b);
    AfterSnoc(w, events + [a] + [b], c);
    assert events + [a, b, c] == events + [a] + [b] + [c];
  }

  /** The object runs this machine, so all of this holds of it. */
  lemma LoopOk(w0: World, events: seq<Event>) returns (worlds: seq<World>)
    requires Beginning(w0) && After(w0, events).Some?
    ensures IsRun(worlds, events) && worlds[0] == w0 && worlds[|events|] == After(w0, events).value
  {
    worlds := [w0];
    for k := 0 to |events|
      invariant |worlds| == k + 1 && worlds[0] == w0 && After(w0, events[..k]) == Some(worlds[k])
      invariant forall i :: 0 <= i < k ==> Next(worlds[i], events[i]) == Some(worlds[i + 1])
    {
      assert events[..k + 1][..k] == events[..k];
      AfterDefined(w0, events, k + 1);
      worlds := worlds + [Next(worlds[k], events[k]).value];
    }
    assert events[..|events|] == events;
  }

  lemma {:induction false} AfterDefined(w: World, events: seq<Event>, k: nat)
    requires k <= |events| && After(w, events).Some?
    ensures After(w, events[..k]).Some?
  {
    if k < |events| {
      var n := |events| - 1;
      AfterDefined(w, events[..n], k);
      assert events[..n][..k] == events[..k];
    } else {
      assert events[..k] == events;
    }
  }

  // --- how far a block goes, how long a failure waits --------------------------------------------------

  /** A block is good for 1024 reports: one is taken when the last is used up, and the next not before
      1024 more numbers are confirmed. */
  lemma BlockLasts(w: World, raised: bool, written: bool, confirmed: nat)
    requires WorldOk(w) && Next(w, Reserve(raised, written)).Some?
    ensures var w' := Next(w, Reserve(raised, written)).value;
            && w'.sequence == w.sequence == w.reserved
            && (NeedsBlock(w'.(sequence := w.sequence + confirmed)) <==> confirmed >= 1024)
  {
  }

  function Backoffs(failures: nat): nat {
    if failures == 0 then 1 else Backoff(Backoffs(failures - 1))
  }

  function TwoTo(n: nat): nat {
    if n == 0 then 1 else 2 * TwoTo(n - 1)
  }

  /** After a success the pause is one second; it doubles with each failure, up to a minute. */
  lemma {:induction false} BackoffExact(failures: nat)
    ensures Backoffs(failures) == if failures <= 5 then TwoTo(failures) else 60
    ensures TwoTo(5) == 32
  {
    assert TwoTo(0) == 1 && TwoTo(1) == 2 && TwoTo(2) == 4 && TwoTo(3) == 8 && TwoTo(4) == 16 && TwoTo(5) == 32;
    if failures > 0 {
      BackoffExact(failures - 1);
    }
  }

  /** A confirmed report resets the pause and every failure lengthens it, in every run. */
  lemma {:induction false} PauseInRange(worlds: seq<World>, events: seq<Event>, k: nat)
    requires IsRun(worlds, events) && worlds[0].backoff == 1 && k <= |events|
    ensures 1 <= worlds[k].backoff <= 60
    ensures k > 0 && events[k - 1].Confirm? ==> worlds[k].backoff == 1
  {
    if k > 0 {
      PauseInRange(worlds, events, k - 1);
      assert Next(worlds[k - 1], events[k - 1]) == Some(worlds[k - 1 + 1]);
    }
  }
}
