/** The outbound limiter of a connection: fixed windows of at least one second, each with a frame and
    a byte quota. The module proves what the windows give: the quotas per window, and twice the
    quotas over any second, wherever it starts. */
module SendLimiter {

  const SEND_WINDOW_MS: nat := 1_000
  const MAX_SEND_BYTES_PER_WINDOW: nat := 33_554_432
  const MAX_SEND_FRAMES_PER_WINDOW: nat := 4_096

  datatype Limiter = Limiter(startedAt: nat, bytes: nat, frames: nat)

  datatype Offer = Offer(now: nat, len: nat, open: bool)

  function Rolled(l: Limiter, now: nat): Limiter {
    if now >= l.startedAt + SEND_WINDOW_MS then Limiter(now, 0, 0) else l
  }

  predicate Passes(l: Limiter, o: Offer) {
    l.bytes + o.len <= MAX_SEND_BYTES_PER_WINDOW && l.frames < MAX_SEND_FRAMES_PER_WINDOW && o.open
  }

  function After(l: Limiter, o: Offer): Limiter {
    var r := Rolled(l, o.now);
    if Passes(r, o) then Limiter(r.startedAt, r.bytes + o.len, r.frames + 1) else r
  }

  /** The fields of a connection that its `send` uses. */
  class Connection {
    var sendWindowStartedAt: nat
    var sentBytesInWindow: nat
    var sentFramesInWindow: nat

    ghost function View(): Limiter
      reads this
    {
      Limiter(sendWindowStartedAt, sentBytesInWindow, sentFramesInWindow)
    }

    constructor (now: nat)
      ensures View() == Limiter(now, 0, 0)
    {
      sendWindowStartedAt, sentBytesInWindow, sentFramesInWindow := now, 0, 0;
    }

    method Send(len: nat, open: bool, now: nat) returns (ok: bool)
      modifies this
      ensures ok == Passes(Rolled(old(View()), now), Offer(now, len, open))
      ensures View() == After(old(View()), Offer(now, len, open))
    {
      if now >= sendWindowStartedAt && now - sendWindowStartedAt >= SEND_WINDOW_MS {
        sendWindowStartedAt := now;
        sentBytesInWindow := 0;
        sentFramesInWindow := 0;
      }
      if sentBytesInWindow + len > MAX_SEND_BYTES_PER_WINDOW || sentFramesInWindow >= MAX_SEND_FRAMES_PER_WINDOW {
        return false;
      }
      if !open {
        return false;
      }
      sentBytesInWindow := sentBytesInWindow + len;
      sentFramesInWindow := sentFramesInWindow + 1;
      return true;
    }
  }

  // ----- whole runs

  /** A frame that went out: when, how long, and in the window started when. */
  datatype Sent = Sent(at: nat, len: nat, window: nat)

  datatype Trace = Trace(l: Limiter, log: seq<Sent>)

  function Step(t: Trace, o: Offer): Trace {
    var r := Rolled(t.l, o.now);
    Trace(After(t.l, o), if Passes(r, o) then t.log + [Sent(o.now, o.len, r.startedAt)] else t.log)
  }

  function Run(created: nat, offers: seq<Offer>): Trace {
    if offers == [] then Trace(Limiter(created, 0, 0), [])
    else Step(Run(created, offers[..|offers| - 1]), offers[|offers| - 1])
  }

  predicate NonDecreasing(created: nat, offers: seq<Offer>) {
    && (forall i :: 0 <= i < |offers| ==> created <= offers[i].now)
    && (forall i, j :: 0 <= i <= j < |offers| ==> offers[i].now <= offers[j].now)
  }

  function FramesOf(log: seq<Sent>, window: nat): nat {
    if log == [] then 0 else FramesOf(log[..|log| - 1], window) + if log[|log| - 1].window == window then 1 else 0
  }

  function BytesOf(log: seq<Sent>, window: nat): nat {
    if log == [] then 0
    else BytesOf(log[..|log| - 1], window) + if log[|log| - 1].window == window then log[|log| - 1].len else 0
  }

  function FramesIn(log: seq<Sent>, lo: nat, hi: nat): nat {
    if log == [] then 0 else FramesIn(log[..|log| - 1], lo, hi) + if lo <= log[|log| - 1].at < hi then 1 else 0
  }

  function BytesIn(log: seq<Sent>, lo: nat, hi: nat): nat {
    if log == [] then 0
    else BytesIn(log[..|log| - 1], lo, hi) + if lo <= log[|log| - 1].at < hi then log[|log| - 1].len else 0
  }

  /** Frames lie in their windows, windows are a second apart, and none is later than the current one. */
  ghost predicate Windowed(t: Trace) {
    && (forall i :: 0 <= i < |t.log| ==> t.log[i].window <= t.log[i].at < t.log[i].window + SEND_WINDOW_MS)
    && (forall i :: 0 <= i < |t.log| ==>
        t.log[i].window == t.l.startedAt || t.log[i].window + SEND_WINDOW_MS <= t.l.startedAt)
    && (forall i, j :: 0 <= i < |t.log| && 0 <= j < |t.log| && t.log[i].window < t.log[j].window ==>
          t.log[i].window + SEND_WINDOW_MS <= t.log[j].window)
  }

  ghost predicate WithinQuota(log: seq<Sent>, window: nat) {
    FramesOf(log, window) <= MAX_SEND_FRAMES_PER_WINDOW && BytesOf(log, window) <= MAX_SEND_BYTES_PER_WINDOW
  }

  ghost predicate Counted(t: Trace) {
    && t.l.frames == FramesOf(t.log, t.l.startedAt)
    && t.l.bytes == BytesOf(t.log, t.l.startedAt)
    && forall window :: WithinQuota(t.log, window)
  }

  lemma {:induction false} NothingInNewWindow(log: seq<Sent>, window: nat)
    requires forall i :: 0 <= i < |log| ==> log[i].window != window
    ensures FramesOf(log, window) == 0 && BytesOf(log, window) == 0
  {
    if log != [] {
      NothingInNewWindow(log[..|log| - 1], window);
    }
  }

  lemma RollKeeps(t: Trace, now: nat)
    requires Windowed(t) && Counted(t) && t.l.startedAt <= now
    ensures Windowed(t.(l := Rolled(t.l, now))) && Counted(t.(l := Rolled(t.l, now)))
  {
    if now >= t.l.startedAt + SEND_WINDOW_MS {
      NothingInNewWindow(t.log, now);
    }
  }

  lemma SendKeepsWindowed(t: Trace, o: Offer, l: Limiter)
    requires Windowed(t) && t.l.startedAt <= o.now < t.l.startedAt + SEND_WINDOW_MS && l.startedAt == t.l.startedAt
    ensures Windowed(Trace(l, t.log + [Sent(o.now, o.len, t.l.startedAt)]))
  {
  }

  lemma SendKeepsCounted(t: Trace, o: Offer)
    requires Counted(t) && Passes(t.l, o)
    ensures Counted(Trace(Limiter(t.l.startedAt, t.l.bytes + o.len, t.l.frames + 1),
                          t.log + [Sent(o.now, o.len, t.l.startedAt)]))
  {
    var log := t.log + [Sent(o.now, o.len, t.l.startedAt)];
    assert log[..|log| - 1] == t.log;
    forall window
      ensures WithinQuota(log, window)
    {
      assert WithinQuota(t.log, window);
    }
  }

  lemma {:induction false} RunsKeepWindows(created: nat, offers: seq<Offer>)
    requires NonDecreasing(created, offers)
    ensures Windowed(Run(created, offers)) && Counted(Run(created, offers))
    ensures Run(created, offers).l.startedAt <= if offers == [] then created else offers[|offers| - 1].now
  {
    if offers == [] {
      assert forall window :: WithinQuota([], window);
    } else {
      var init, o := offers[..|offers| - 1], offers[|offers| - 1];
      RunsKeepWindows(created, init);
      assert Run(created, init).l.startedAt <= o.now;
      hide Windowed, Counted, Step;
      StepKeeps(Run(created, init), o);
    }
  }

  lemma StepKeeps(t: Trace, o: Offer)
    requires Windowed(t) && Counted(t) && t.l.startedAt <= o.now
    ensures Windowed(Step(t, o)) && Counted(Step(t, o)) && Step(t, o).l.startedAt <= o.now
  {
    hide Windowed, Counted;
    RollKeeps(t, o.now);
    var r := t.(l := Rolled(t.l, o.now));
    if Passes(r.l, o) {
      SendKeepsWindowed(r, o, After(t.l, o));
      SendKeepsCounted(r, o);
    }
  }

  /** Every window, in every run with a clock that does not go back, keeps both quotas. */
  lemma WindowQuota(created: nat, offers: seq<Offer>, window: nat)
    requires NonDecreasing(created, offers)
    ensures FramesOf(Run(created, offers).log, window) <= 4_096
    ensures BytesOf(Run(created, offers).log, window) <= 32 * 1_024 * 1_024
  {
    RunsKeepWindows(created, offers);
    assert WithinQuota(Run(created, offers).log, window);
  }

  predicate InInterval(e: Sent, lo: nat) {
    lo <= e.at < lo + SEND_WINDOW_MS
  }

  /** One second meets at most two windows. */
  lemma TwoWindows(t: Trace, lo: nat, i: int, j: int, k: int)
    requires Windowed(t) && 0 <= i < |t.log| && 0 <= j < |t.log| && 0 <= k < |t.log|
    requires InInterval(t.log[i], lo) && InInterval(t.log[j], lo) && InInterval(t.log[k], lo)
    ensures t.log[i].window == t.log[j].window || t.log[j].window == t.log[k].window
            || t.log[i].window == t.log[k].window
  {
  }

  lemma {:induction false} CoveredByTwo(log: seq<Sent>, lo: nat, a: nat, b: nat)
    requires forall i :: 0 <= i < |log| && InInterval(log[i], lo) ==> log[i].window == a || log[i].window == b
    ensures FramesIn(log, lo, lo + SEND_WINDOW_MS) <= FramesOf(log, a) + FramesOf(log, b)
    ensures BytesIn(log, lo, lo + SEND_WINDOW_MS) <= BytesOf(log, a) + BytesOf(log, b)
  {
    if log != [] {
      var last := log[|log| - 1];
      assert InInterval(last, lo) ==> last.window == a || last.window == b;
      CoveredByTwo(log[..|log| - 1], lo, a, b);
    }
  }

  /** And no frame is held back that fits: an offer to an open socket goes out exactly if the window it falls in,
      the current one for its first second and else a new one, still has room by what went out in it. */
  lemma GoesOutIfItFits(created: nat, offers: seq<Offer>, o: Offer)
    requires NonDecreasing(created, offers) && (forall i :: 0 <= i < |offers| ==> offers[i].now <= o.now)
             && created <= o.now
    ensures var t := Run(created, offers);
            var window := if o.now >= t.l.startedAt + 1_000 then o.now else t.l.startedAt;
            var fits := FramesOf(t.log, window) < 4_096 && BytesOf(t.log, window) + o.len <= 32 * 1_024 * 1_024;
            Step(t, o).log == if o.open && fits then t.log + [Sent(o.now, o.len, window)] else t.log
  {
    RunsKeepWindows(created, offers);
    var t := Run(created, offers);
    if o.now >= t.l.startedAt + SEND_WINDOW_MS {
      NothingInNewWindow(t.log, o.now);
    }
  }

  /** Any second, wherever it starts, carries at most twice the quotas. */
  lemma AnySecond(created: nat, offers: seq<Offer>, lo: nat)
    requires NonDecreasing(created, offers)
    ensures FramesIn(Run(created, offers).log, lo, lo + 1_000) <= 2 * 4_096
    ensures BytesIn(Run(created, offers).log, lo, lo + 1_000) <= 2 * 32 * 1_024 * 1_024
  {
    RunsKeepWindows(created, offers);
    var t := Run(created, offers);
    var log := t.log;
    var a, b := 0, 0;
    if i :| 0 <= i < |log| && InInterval(log[i], lo) {
      a, b := log[i].window, log[i].window;
      if j :| 0 <= j < |log| && InInterval(log[j], lo) && log[j].window != a {
        b := log[j].window;
        forall k | 0 <= k < |log| && InInterval(log[k], lo)
          ensures log[k].window == a || log[k].window == b
        {
          TwoWindows(t, lo, i, j, k);
        }
      }
    }
    CoveredByTwo(log, lo, a, b);
    WindowQuota(created, offers, a);
    WindowQuota(created, offers, b);
  }
}
