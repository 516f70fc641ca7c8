/** The process-local, single-key, read-through cache with a one-hour TTL
    and in-flight load de-duplication. The exam cache and the document
    cache are two instances of this one slot; only their by-id lookups
    differ (see ExamCache and DocumentCache).

    The asynchronous `getAll…` function is cut into the events the
    single-threaded scheduler can interleave: a read (`Get`), the
    completion of a load (`Settle`) and the manual reset (`Clear`). Time is
    an integer number of milliseconds passed in by the caller. */
module SlotCache {
  import opened Common

  /** `CACHE_TTL = 60 * 60 * 1000`. */
  const TTL: int := 3_600_000

  /** The four module-level variables of one cache file. `inFlight` stands
      for `loadPromise !== null`. */
  datatype Slot<T> = Slot(cached: Option<seq<T>>, timestamp: int, isLoading: bool, inFlight: bool)

  /** The state at module load, and after `clear…Cache()`. */
  function Initial<T>(): Slot<T> {
    Slot(None, 0, false, false)
  }

  /** The hit test: data present (an empty array counts) and younger than the TTL. */
  predicate Fresh<T>(s: Slot<T>, now: int) {
    s.cached.Some? && now - s.timestamp < TTL
  }

  /** The loading flag and the promise reference move together. */
  predicate Consistent<T>(s: Slot<T>) {
    s.isLoading <==> s.inFlight
  }

  /** What a call to `getAll…` does before its first suspension. */
  datatype Lookup<T> = Hit(data: seq<T>) | Join | StartLoad

  datatype GetStep<T> = GetStep(answer: Lookup<T>, next: Slot<T>)

  function Get<T>(s: Slot<T>, now: int): (r: GetStep<T>)
    // a hit answers the cached array and changes nothing
    ensures Fresh(s, now) ==> r.answer == Hit(s.cached.value) && r.next == s
    // a miss during a load joins it: nothing starts and nothing changes
    ensures !Fresh(s, now) && s.isLoading && s.inFlight ==> r.answer == Join && r.next == s
    // a load starts exactly on a miss with no load recorded, and only marks it
    ensures r.answer.StartLoad? <==> !Fresh(s, now) && !(s.isLoading && s.inFlight)
    ensures r.answer.StartLoad? ==>
      r.next.cached == s.cached && r.next.timestamp == s.timestamp && r.next.isLoading && r.next.inFlight
    ensures Consistent(r.next) || r.next == s
  {
    if Fresh(s, now) then GetStep(Hit(s.cached.value), s)
    else if s.isLoading && s.inFlight then GetStep(Join, s)
    else GetStep(StartLoad, s.(isLoading := true, inFlight := true))
  }

  /** What the read-and-parse of the data file produced. */
  datatype LoadOutcome<T> = Loaded(data: seq<T>) | NotArray | Failed

  datatype SettleStep<T> = SettleStep(reply: seq<T>, next: Slot<T>)

  /** A started load completes: the initiating caller's return value and
      the slot afterwards. Success stores the array with the completion
      time; a non-array payload and a thrown error both answer `[]` and
      keep the snapshot. Every path clears both in-flight markers. */
  function Settle<T>(s: Slot<T>, outcome: LoadOutcome<T>, now: int): (r: SettleStep<T>)
    ensures !r.next.isLoading && !r.next.inFlight
    ensures outcome.Loaded? ==> r.reply == outcome.data && r.next.cached == Some(outcome.data) && r.next.timestamp == now
    ensures !outcome.Loaded? ==> r.reply == [] && r.next.cached == s.cached && r.next.timestamp == s.timestamp
  {
    match outcome
    case Loaded(data) => SettleStep(data, Slot(Some(data), now, false, false))
    case NotArray => SettleStep([], s.(isLoading := false, inFlight := false))
    case Failed => SettleStep([], s.(isLoading := false, inFlight := false))
  }

  /** What a caller that joined the load (`return loadPromise`) receives:
      the promise's own settlement, which escapes the `catch`. */
  datatype Joined<T> = Resolved(data: seq<T>) | Rejected

  function JoinerView<T>(outcome: LoadOutcome<T>): (r: Joined<T>)
    ensures r.Rejected? <==> outcome.Failed?
    ensures outcome.Loaded? ==> r == Resolved(outcome.data)
    ensures outcome.NotArray? ==> r == Resolved([])
  {
    match outcome
    case Loaded(data) => Resolved(data)
    case NotArray => Resolved([])
    case Failed => Rejected
  }

  /** The initiator and the joiners of one load agree exactly when the load
      did not throw; on an error the initiator is answered `[]` and every
      joiner sees a rejection. */
  lemma JoinersAgreeUnlessFailed<T>(s: Slot<T>, outcome: LoadOutcome<T>, now: int)
    ensures JoinerView(outcome) == Resolved(Settle(s, outcome, now).reply) <==> !outcome.Failed?
  {
  }

  /** `clear…Cache()`: all four variables back to their initial values. */
  function Clear<T>(s: Slot<T>): (r: Slot<T>)
    ensures r.cached.None? && r.timestamp == 0 && !r.isLoading && !r.inFlight
    ensures forall now :: !Fresh(r, now)
  {
    Initial()
  }

  /** Every event keeps the two loading markers in step. */
  lemma EventsKeepConsistent<T>(s: Slot<T>, now: int, outcome: LoadOutcome<T>)
    requires Consistent(s)
    ensures Consistent(Get(s, now).next)
    ensures Consistent(Settle(s, outcome, now).next)
    ensures Consistent(Clear(s))
  {
  }

  /** A failed load does not poison the slot: once it has settled the next
      read that misses starts a fresh load. */
  lemma FailureIsRetried<T>(s: Slot<T>, t: int, now: int)
    requires !Fresh(Settle(s, Failed, t).next, now)
    ensures Get(Settle(s, Failed, t).next, now).answer == StartLoad
  {
  }

  /** Clearing forces the next read to load even if the data was fresh. */
  lemma ClearForcesReload<T>(s: Slot<T>, now: int)
    ensures Get(Clear(s), now).answer == StartLoad
  {
  }

  // ----- Statistics -----

  datatype Status = Valid | Expired | Empty

  datatype Stats = Stats(status: Status, count: nat, ageSeconds: int, remainingSeconds: int, isLoading: bool)

  /** `get…CacheStats()`: `Math.floor(x / 1000)` is floor division, which
      Dafny's `/` is for a positive divisor. */
  function GetStats<T>(s: Slot<T>, now: int): (r: Stats)
    ensures r.status == Valid <==> Fresh(s, now)
    ensures r.status == Expired <==> s.cached.Some? && !Fresh(s, now)
    ensures r.status == Empty <==> s.cached.None?
    ensures r.count == if s.cached.Some? then |s.cached.value| else 0
    ensures s.cached.Some? ==>
      r.ageSeconds * 1000 <= now - s.timestamp < r.ageSeconds * 1000 + 1000
    ensures s.cached.None? ==> r.ageSeconds == 0
    ensures r.status == Valid ==>
      r.remainingSeconds * 1000 <= TTL - (now - s.timestamp) < r.remainingSeconds * 1000 + 1000
    ensures r.status != Valid ==> r.remainingSeconds == 0
    ensures r.isLoading == s.isLoading
  {
    var elapsed := now - s.timestamp;
    var valid := Fresh(s, now);
    Stats(
      if valid then Valid else if s.cached.Some? then Expired else Empty,
      if s.cached.Some? then |s.cached.value| else 0,
      if s.cached.Some? then elapsed / 1000 else 0,
      if valid then (TTL - elapsed) / 1000 else 0,
      s.isLoading)
  }

  /** For a valid slot, age and remaining time add up to the TTL in whole
      seconds, less at most one second lost to flooring; neither exceeds
      the TTL unless the clock reads earlier than the load time. */
  lemma StatsAgeBudget<T>(s: Slot<T>, now: int)
    requires GetStats(s, now).status == Valid
    ensures var st := GetStats(s, now);
      0 <= st.remainingSeconds && 3599 <= st.ageSeconds + st.remainingSeconds <= 3600 &&
      (now >= s.timestamp ==> 0 <= st.ageSeconds && st.remainingSeconds <= 3600)
  {
    var st := GetStats(s, now);
    assert st.remainingSeconds * 1000 <= TTL - (now - s.timestamp) < st.remainingSeconds * 1000 + 1000;
    assert st.ageSeconds * 1000 <= now - s.timestamp < st.ageSeconds * 1000 + 1000;
  }

  // ----- Traces: single flight -----

  /** The events the scheduler can interleave. */
  datatype Event<T> = Read(now: int) | Complete(outcome: LoadOutcome<T>, at: int) | Invalidate

  /** The slot together with the number of load promises that have been
      started and have not settled yet. A `Complete` is only possible while
      one is outstanding. */
  datatype World<T> = World(slot: Slot<T>, pending: nat)

  function Step<T>(w: World<T>, e: Event<T>): (r: Option<World<T>>)
    ensures r.None? <==> e.Complete? && w.pending == 0
    ensures e.Read? && r.Some? ==>
      r.value.pending == w.pending + (if Get(w.slot, e.now).answer.StartLoad? then 1 else 0)
  {
    match e
    case Read(now) =>
      var g := Get(w.slot, now);
      Some(World(g.next, if g.answer.StartLoad? then w.pending + 1 else w.pending))
    case Complete(outcome, at) =>
      if w.pending == 0 then None
      else Some(World(Settle(w.slot, outcome, at).next, w.pending - 1))
    case Invalidate =>
      Some(World(Clear(w.slot), w.pending))
  }

  /** Applies the events in order; `None` if some `Complete` had no load to finish. */
  function Run<T>(w: World<T>, es: seq<Event<T>>): Option<World<T>>
    decreases |es|
  {
    if |es| == 0 then Some(w)
    else match Step(w, es[0])
      case None => None
      case Some(w') => Run(w', es[1..])
  }

  /** Without `Clear`, the markers tell the truth: a load is recorded
      exactly when one is outstanding, and there is never more than one. */
  predicate SingleFlight<T>(w: World<T>) {
    Consistent(w.slot) && w.pending <= 1 && (w.pending == 1 <==> w.slot.isLoading)
  }

  lemma {:induction false} RunWithoutClearIsSingleFlight<T>(w: World<T>, es: seq<Event<T>>)
    requires SingleFlight(w)
    requires forall i :: 0 <= i < |es| ==> !es[i].Invalidate?
    ensures Run(w, es).Some? ==> SingleFlight(Run(w, es).value)
    decreases |es|
  {
    if |es| > 0 {
      match Step(w, es[0])
      case None =>
      case Some(w') =>
        assert SingleFlight(w') by {
          match es[0]
          case Read(now) =>
          case Complete(outcome, at) =>
        }
        RunWithoutClearIsSingleFlight(w', es[1..]);
    }
  }

  /** From the start of the process, any run without `Clear` keeps a single flight. */
  lemma InitialRunIsSingleFlight<T>(es: seq<Event<T>>)
    requires forall i :: 0 <= i < |es| ==> !es[i].Invalidate?
    ensures Run(World(Initial<T>(), 0), es).Some? ==> SingleFlight(Run(World(Initial<T>(), 0), es).value)
  {
    RunWithoutClearIsSingleFlight(World(Initial<T>(), 0), es);
  }

  /** Every event, `Clear` included, keeps the markers in step. */
  lemma {:induction false} RunKeepsConsistent<T>(w: World<T>, es: seq<Event<T>>)
    requires Consistent(w.slot)
    ensures Run(w, es).Some? ==> Consistent(Run(w, es).value.slot)
    decreases |es|
  {
    if |es| > 0 {
      match Step(w, es[0])
      case None =>
      case Some(w') =>
        assert Consistent(w'.slot) by {
          match es[0]
          case Read(now) =>
          case Complete(outcome, at) =>
          case Invalidate =>
        }
        RunKeepsConsistent(w', es[1..]);
    }
  }

  /** `Clear` does not cancel a load: a load that was outstanding when the
      cache was cleared still stores its array when it completes. */
  lemma ClearDoesNotCancel<T>(w: World<T>, data: seq<T>, at: int)
    requires w.pending > 0
    ensures var w2 := Step(w, Invalidate).value;
      Step(w2, Complete(Loaded(data), at)).Some? &&
      Step(w2, Complete(Loaded(data), at)).value.slot.cached == Some(data)
  {
  }

  /** After `Clear` during a load, a read starts a second load while the
      first is still outstanding. */
  lemma ClearAllowsSecondFlight<T>(w: World<T>, now: int)
    requires w.pending == 1
    ensures Run(w, [Invalidate, Read(now)]).Some?
    ensures Run(w, [Invalidate, Read(now)]).value.pending == 2
  {
    var w1 := Step(w, Invalidate).value;
    assert Get(w1.slot, now).answer == StartLoad;
    var w2 := Step(w1, Read(now)).value;
    assert Run(w2, []) == Some(w2);
    assert Run(w1, [Read(now)]) == Run(w2, []);
  }
}
