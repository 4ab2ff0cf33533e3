/** The self-imposed rate limiter of one client: a single `lastRequest`
    timestamp. A request may start only once the clock has passed it, and
    starting a request moves it one second past the moment of the start.

    Time is an abstract integer clock counted in .NET `DateTime` ticks
    (100 ns), supplied by the caller; the busy-wait itself is not modelled,
    only the clock reading at which it ends. */
module RateLimit {
  import opened Wrappers

  /** `DateTime.AddSeconds(1)` in ticks. */
  const TicksPerSecond: int := 10_000_000

  /** The limiter state: the `lastRequest` field. */
  datatype Gate = Gate(lastRequest: int) {
    /** The spin `while (lastRequest >= DateTime.Now) { }` ends at clock reading `now`. */
    predicate Ready(now: int)
    {
      now > lastRequest
    }
  }

  /** The field initialiser: construction time minus one second. */
  function Init(created: int): (g: Gate)
    ensures g.lastRequest == created - TicksPerSecond
    ensures g.Ready(created)
  {
    Gate(created - TicksPerSecond)
  }

  /** Starting a request: `lastRequest` becomes the clock reading `later`,
      taken after the spin ended, plus one second. */
  function Pass(g: Gate, later: int): (g': Gate)
    ensures g'.lastRequest == later + TicksPerSecond
    ensures forall t :: g'.Ready(t) <==> t > later + TicksPerSecond
  {
    Gate(later + TicksPerSecond)
  }

  /** The first clock reading, from `arrive` on, at which the spin ends: no
      earlier reading ends it, so a ready gate lets the caller through at once. */
  function WaitUntil(g: Gate, arrive: int): (start: int)
    ensures start >= arrive && g.Ready(start)
    ensures forall t :: arrive <= t < start ==> !g.Ready(t)
    ensures g.Ready(arrive) ==> start == arrive
  {
    if g.Ready(arrive) then arrive else g.lastRequest + 1
  }

  /** The two clock readings of one request start: `now` ends the spin and
      `later` (read afterwards, so not earlier) stamps the gate. */
  datatype Tick = Tick(now: int, later: int)

  /** One request start, if the readings are possible: the spin must have
      ended and the clock must not run backwards between the two readings. */
  predicate Admits(g: Gate, t: Tick)
  {
    g.Ready(t.now) && t.later >= t.now
  }

  /** Run the gate over successive request starts; `None` when some start
      could not have happened at the given readings. */
  function Replay(g: Gate, ticks: seq<Tick>): Option<Gate>
    decreases |ticks|
  {
    if ticks == [] then Some(g)
    else if Admits(g, ticks[0]) then Replay(Pass(g, ticks[0].later), ticks[1..])
    else None
  }

  /** A freshly built client lets a request through without waiting at any
      time from its construction on. */
  lemma FirstRequestWithoutWait(created: int, arrive: int)
    requires arrive >= created
    ensures Init(created).Ready(arrive)
    ensures WaitUntil(Init(created), arrive) == arrive
  {
  }

  /** After a start stamped `later`, the next start is more than one second
      after it, and so more than one second after the previous spin ended. */
  lemma NextStartAfterOneSecond(g: Gate, t: Tick, next: int)
    requires Admits(g, t)
    requires Pass(g, t.later).Ready(next)
    ensures next > t.later + TicksPerSecond
    ensures next - t.now > TicksPerSecond
  {
  }

  /** In an accepted run, successive request starts are strictly more than one
      second apart. */
  lemma {:induction false} ReplaySpacing(g: Gate, ticks: seq<Tick>)
    requires Replay(g, ticks).Some?
    ensures forall k :: 0 <= k < |ticks| - 1 ==> ticks[k + 1].now - ticks[k].now > TicksPerSecond
    decreases |ticks|
  {
    if ticks != [] {
      var g' := Pass(g, ticks[0].later);
      ReplaySpacing(g', ticks[1..]);
      if |ticks| > 1 {
        assert Admits(g', ticks[1]);
      }
      forall k | 0 <= k < |ticks| - 1 ensures ticks[k + 1].now - ticks[k].now > TicksPerSecond {
        if k > 0 {
          assert ticks[1..][k - 1] == ticks[k];
          assert ticks[1..][k] == ticks[k + 1];
        }
      }
    }
  }

  /** N accepted request starts span more than N - 1 seconds (for N >= 2). */
  lemma {:induction false} ReplaySpan(g: Gate, ticks: seq<Tick>)
    requires Replay(g, ticks).Some?
    requires |ticks| >= 2
    ensures ticks[|ticks| - 1].now - ticks[0].now > (|ticks| - 1) * TicksPerSecond
    decreases |ticks|
  {
    var g' := Pass(g, ticks[0].later);
    assert Admits(g', ticks[1]);
    if |ticks| > 2 {
      ReplaySpan(g', ticks[1..]);
    }
  }

  /** Waiting for the gate before every start always yields an accepted run:
      the spin ends for any sequence of arrivals, and no start precedes its
      arrival. */
  function Schedule(g: Gate, arrivals: seq<int>, lags: seq<nat>): (ticks: seq<Tick>)
    requires |lags| == |arrivals|
    ensures |ticks| == |arrivals|
    ensures Replay(g, ticks).Some?
    ensures forall k :: 0 <= k < |ticks| ==> ticks[k].now >= arrivals[k]
    decreases |arrivals|
  {
    if arrivals == [] then []
    else
      var start := WaitUntil(g, arrivals[0]);
      var t := Tick(start, start + lags[0]);
      var rest := Schedule(Pass(g, t.later), arrivals[1..], lags[1..]);
      assert ([t] + rest)[1..] == rest;
      [t] + rest
  }
}
