/**
 * The solo mining coordinator (class MinerCoordinator, src/minerd/miner.ts
 * 187-376) as a machine over its events. An `await` suspends an activation,
 * which is kept as a frame until its operation settles; meanwhile any other
 * event may arrive. Code after an `await` that does not suspend on an outside
 * operation runs before the next timer, message or I/O callback, so it belongs
 * to the same step.
 */
module Coordinator {
  import opened Binary
  import opened Crypto

  /** A block template: the tip it was built on, and the rest. */
  datatype Template = Template(prevHash: Hash32, body: nat)

  /** A nonce found by the grind; every find has its own number. */
  datatype Solve = Solve(id: nat, template: Template, nonce: nat)

  /** A call of `submit`, with the chain's tip at that moment. */
  datatype Submission = Submission(solve: Solve, tip: Hash32)

  /** A suspended activation. */
  datatype Frame =
    | SolveSubmit                      // onSolved awaits its own submit
    | SolveDrain                       // onSolved awaits the drained solve's submit
    | TipCatchUp(entryTip: Hash32)     // tipAdvanced awaits the catch-up
    | TipDrain                         // tipAdvanced awaits the drained solve's submit

  datatype Coord = Coord(
    current: Option<Template>,
    busy: bool,
    pending: Option<Solve>,
    retryArmed: bool,
    disposed: bool,
    frames: seq<Frame>,
    /** the running grind */
    grind: Option<Template>,
    /** the chain's tip */
    tip: Hash32,
    submitted: seq<Submission>,
    /** solves discarded because the catch-up they waited for failed */
    lost: set<nat>,
    nextId: nat)

  /** How a rebuild goes: building throws, starting the pool throws (perhaps half-started), or it works. */
  datatype Build = BuildThrows | StartThrows(body: nat, halfStarted: bool) | Started(body: nat)

  datatype CatchUp = Advanced | Unchanged | Failed

  function Initial(tip: Hash32): Coord {
    Coord(None, false, None, false, false, [], None, tip, [], {}, 0)
  }

  // ------------------------------------------------------------------
  // The steps as functions
  // ------------------------------------------------------------------

  function WithoutFrame(s: Coord, i: nat): Coord
    requires i < |s.frames|
  {
    s.(frames := s.frames[..i] + s.frames[i + 1..])
  }

  function Rebuilt(s: Coord, b: Build): Coord {
    if s.disposed then s
    else
      match b
      case BuildThrows => s.(retryArmed := true)
      case StartThrows(body, half) =>
        var t := Template(s.tip, body);
        s.(current := Some(t), grind := if half then Some(t) else None, retryArmed := true)
      case Started(body) =>
        var t := Template(s.tip, body);
        s.(current := Some(t), grind := Some(t), retryArmed := false)
  }

  function Submitting(s: Coord, solve: Solve, frame: Frame): Coord {
    s.(grind := None, submitted := s.submitted + [Submission(solve, s.tip)], frames := s.frames + [frame])
  }

  function Drained(s: Coord, allowSubmit: bool, frame: Frame): (Coord, bool) {
    var s' := s.(pending := None);
    if s.pending.None? || s.disposed then (s', false)
    else if !allowSubmit then (s'.(lost := s.lost + {s.pending.value.id}), false)
    else if s.pending.value.template.prevHash != s.tip then (s', false)
    else (Submitting(s', s.pending.value, frame), true)
  }

  /** Everything that can happen. `i` picks the suspended activation that resumes. */
  datatype Event =
    | Solved(nonce: nat)
    | Exhausted(build: Build)
    | TipAnnounced
    | SubmitSettled(i: nat, build: Build)
    | CatchUpSettled(i: nat, result: CatchUp, build: Build)
    | TipMoves(newTip: Hash32)
    | TimerFires(build: Build)
    | Startup(build: Build)
    | Disposed

  /** The grind calls back only while it runs; the chain moves only inside an operation that owns it. */
  predicate Enabled(s: Coord, e: Event) {
    match e
    case Solved(_) => s.grind.Some?
    case Exhausted(_) => s.grind.Some?
    case SubmitSettled(i, _) => i < |s.frames| && !s.frames[i].TipCatchUp?
    case CatchUpSettled(i, r, _) =>
      i < |s.frames| && s.frames[i].TipCatchUp? && (r.Unchanged? ==> s.tip == s.frames[i].entryTip)
    case TipMoves(_) => s.frames != []
    case TimerFires(_) => s.retryArmed
    case Startup(_) => s.current.None? && !s.busy
    case _ => true
  }

  function Next(s: Coord, e: Event): Coord
    requires Enabled(s, e)
  {
    match e
    case Solved(nonce) =>
      if s.current.None? then s
      else
        var solve := Solve(s.nextId, s.current.value, nonce);
        var s' := s.(nextId := s.nextId + 1);
        if s.busy then s'.(pending := Some(solve)) else Submitting(s'.(busy := true), solve, SolveSubmit)
    case Exhausted(b) => if s.busy then s else Rebuilt(s, b)
    case TipAnnounced => if s.busy then s else s.(busy := true, frames := s.frames + [TipCatchUp(s.tip)])
    case SubmitSettled(i, b) => AfterSubmit(WithoutFrame(s, i), s.frames[i], b)
    case CatchUpSettled(i, r, b) => AfterCatchUp(WithoutFrame(s, i), r, b)
    case TipMoves(newTip) => s.(tip := newTip)
    case TimerFires(b) =>
      if s.disposed then s.(retryArmed := false) else if s.busy then s else Rebuilt(s, b)
    case Startup(b) => Rebuilt(s, b)
    case Disposed => s.(disposed := true, pending := None, retryArmed := false)
  }

  function AfterSubmit(s: Coord, frame: Frame, b: Build): Coord {
    if frame.SolveSubmit? then
      var (s', attempted) := Drained(s, true, SolveDrain);
      if attempted then s' else Rebuilt(s'.(busy := false), b)
    else Rebuilt(s.(busy := false), b)
  }

  function AfterCatchUp(s: Coord, r: CatchUp, b: Build): Coord {
    var stopped := match r
      case Advanced => Rebuilt(s.(grind := None), b)
      case Unchanged => s
      case Failed => s.(grind := None);
    var (s', attempted) := Drained(stopped, !r.Failed?, TipDrain);
    if attempted then s' else s'.(busy := false)
  }

  // ------------------------------------------------------------------
  // The coordinator
  // ------------------------------------------------------------------

  class MinerCoordinator {
    var current: Option<Template>
    var busy: bool
    var pendingSolve: Option<Solve>
    /** whether the retry timer is set */
    var retryTimer: bool
    var disposed: bool
    // The outside: suspended activations, the grind pool, the chain, and what was submitted.
    var frames: seq<Frame>
    var grind: Option<Template>
    var tip: Hash32
    var submitted: seq<Submission>
    var lost: set<nat>
    var nextId: nat

    function View(): Coord
      reads this
    {
      Coord(current, busy, pendingSolve, retryTimer, disposed, frames, grind, tip, submitted, lost, nextId)
    }

    constructor (tip: Hash32)
      ensures View() == Initial(tip)
    {
      current, busy, pendingSolve, retryTimer, disposed := None, false, None, false, false;
      frames, grind, submitted, lost, nextId := [], None, [], {}, 0;
      this.tip := tip;
    }

    method PoolStop()
      modifies this
      ensures View() == old(View()).(grind := None)
    {
      grind := None;
    }

    /** Calls `submit` and suspends. */
    method StartSubmit(solve: Solve, frame: Frame)
      modifies this
      ensures View() == Submitting(old(View()), solve, frame).(grind := old(grind))
    {
      submitted := submitted + [Submission(solve, tip)];
      frames := frames + [frame];
    }

    method ScheduleRebuildRetry()
      modifies this
      ensures View() == old(View()).(retryArmed := old(retryTimer) || !old(disposed))
    {
      if disposed || retryTimer {
        return;
      }
      retryTimer := true;
    }

    /** `rebuild`: a new template on the current tip, and the pool started on it. Returns whether it threw. */
    method Rebuild(b: Build) returns (threw: bool)
      modifies this
      ensures threw <==> !b.Started?
      ensures View() == match b
                case BuildThrows => old(View())
                case StartThrows(body, half) =>
                  old(View()).(current := Some(Template(old(tip), body)),
                               grind := if half then Some(Template(old(tip), body)) else None)
                case Started(body) =>
                  old(View()).(current := Some(Template(old(tip), body)), grind := Some(Template(old(tip), body)))
    {
      if b.BuildThrows? {
        return true;
      }
      current := Some(Template(tip, b.body));
      if b.StartThrows? {
        grind := if b.halfStarted then current else None;
        return true;
      }
      grind := current;
      threw := false;
    }

    method SafeRebuild(b: Build)
      modifies this
      ensures View() == Rebuilt(old(View()), b)
    {
      if disposed {
        return;
      }
      retryTimer := false;
      var threw := Rebuild(b);
      if threw {
        ScheduleRebuildRetry();
      }
    }

    method OnSolved(nonce: nat)
      requires Enabled(View(), Solved(nonce))
      modifies this
      ensures View() == Next(old(View()), Solved(nonce))
    {
      if current.None? {
        return;
      }
      var solve := Solve(nextId, current.value, nonce);
      nextId := nextId + 1;
      if busy {
        pendingSolve := Some(solve);
        return;
      }
      busy := true;
      PoolStop();
      StartSubmit(solve, SolveSubmit);
    }

    /** Decides a queued solve while the caller still holds `busy`. True when a submit was attempted. */
    method DrainPendingSolve(allowSubmit: bool, frame: Frame) returns (attempted: bool)
      modifies this
      ensures (View(), attempted) == Drained(old(View()), allowSubmit, frame)
    {
      var pending := pendingSolve;
      pendingSolve := None;
      if pending.None? || disposed {
        return false;
      }
      if !allowSubmit {
        lost := lost + {pending.value.id};
        return false;
      }
      if pending.value.template.prevHash != tip {
        return false;
      }
      PoolStop();
      StartSubmit(pending.value, frame);
      attempted := true;
    }

    method OnExhausted(b: Build)
      requires Enabled(View(), Exhausted(b))
      modifies this
      ensures View() == Next(old(View()), Exhausted(b))
    {
      if busy {
        return;
      }
      SafeRebuild(b);
    }

    method TipAdvanced()
      modifies this
      ensures View() == Next(old(View()), TipAnnounced)
    {
      if busy {
        return;
      }
      busy := true;
      frames := frames + [TipCatchUp(tip)];
    }

    /** A suspended `submit` settles, successfully or not. */
    method ResumeAfterSubmit(i: nat, b: Build)
      requires Enabled(View(), SubmitSettled(i, b))
      modifies this
      ensures View() == Next(old(View()), SubmitSettled(i, b))
    {
      var frame := frames[i];
      frames := frames[..i] + frames[i + 1..];
      if frame.SolveSubmit? {
        var attempted := DrainPendingSolve(true, SolveDrain);
        if attempted {
          return;
        }
      }
      busy := false;
      SafeRebuild(b);
    }

    /** A suspended catch-up settles. */
    method ResumeAfterCatchUp(i: nat, r: CatchUp, b: Build)
      requires Enabled(View(), CatchUpSettled(i, r, b))
      modifies this
      ensures View() == Next(old(View()), CatchUpSettled(i, r, b))
    {
      frames := frames[..i] + frames[i + 1..];
      var catchUpFailed := false;
      if r.Advanced? {
        PoolStop();
        SafeRebuild(b);
      } else if r.Failed? {
        catchUpFailed := true;
        PoolStop();
      }
      var attempted := DrainPendingSolve(!catchUpFailed, TipDrain);
      if !attempted {
        busy := false;
      }
    }

    method OnRetryTimer(b: Build)
      requires Enabled(View(), TimerFires(b))
      modifies this
      ensures View() == Next(old(View()), TimerFires(b))
    {
      retryTimer := false;
      if disposed {
        return;
      }
      if busy {
        ScheduleRebuildRetry();
        return;
      }
      SafeRebuild(b);
    }

    method Dispose()
      modifies this
      ensures View() == Next(old(View()), Disposed)
    {
      disposed := true;
      pendingSolve := None;
      retryTimer := false;
    }
  }

  // ------------------------------------------------------------------
  // Safety over every run
  // ------------------------------------------------------------------

  /** One operation at most owns the chain, and `busy` says exactly whether one does. */
  predicate OneOwner(s: Coord) {
    |s.frames| <= 1 && (s.busy <==> |s.frames| == 1)
  }

  /** The grind works on the current template; when nothing owns the chain, on its tip. */
  predicate GrindFresh(s: Coord) {
    && (s.grind.Some? ==> s.grind == s.current)
    && (!s.busy ==> s.pending.None?)
    && (!s.busy && s.grind.Some? ==> s.grind.value.prevHash == s.tip)
    && (forall f :: f in s.frames && !f.TipCatchUp? ==> s.grind.None? && s.pending.None?)
    && (forall f :: f in s.frames && f.TipCatchUp? && s.grind.Some? ==> s.grind.value.prevHash == f.entryTip)
  }

  /** Everything submitted was built on the tip of its moment, and no lost solve was submitted. */
  predicate SubmitsGood(s: Coord) {
    && (forall k :: 0 <= k < |s.submitted| ==>
          var x := s.submitted[k]; x.solve.template.prevHash == x.tip && x.solve.id < s.nextId && x.solve.id !in s.lost)
    && (forall id :: id in s.lost ==> id < s.nextId)
    && (s.pending.Some? ==> s.pending.value.id < s.nextId && s.pending.value.id !in s.lost
                            && forall k :: 0 <= k < |s.submitted| ==> s.submitted[k].solve.id != s.pending.value.id)
  }

  predicate Safe(s: Coord) { OneOwner(s) && GrindFresh(s) && SubmitsGood(s) }

  lemma NoFrames(s: Coord, i: nat)
    requires OneOwner(s) && i < |s.frames|
    ensures WithoutFrame(s, i).frames == [] && i == 0 && s.busy
  {
  }

  lemma DrainedSafe(s: Coord, allowSubmit: bool, frame: Frame)
    requires s.busy && s.frames == [] && SubmitsGood(s) && !frame.TipCatchUp?
    requires s.grind.Some? ==> s.grind == s.current && s.grind.value.prevHash == s.tip
    ensures var (s', attempted) := Drained(s, allowSubmit, frame);
            && Safe(if attempted then s' else s'.(busy := false))
            && (!attempted ==> s'.frames == [] && s'.pending.None?)
  {
  }

  lemma RebuiltSafe(s: Coord, b: Build)
    requires Safe(s) && !s.busy
    ensures Safe(Rebuilt(s, b))
  {
  }

  lemma NextSafe(s: Coord, e: Event)
    requires Safe(s) && Enabled(s, e)
    ensures Safe(Next(s, e))
  {
    match e
    case SubmitSettled(i, b) =>
      NoFrames(s, i);
      AfterSubmitSafe(WithoutFrame(s, i), s.frames[i], b);
    case CatchUpSettled(i, r, b) =>
      NoFrames(s, i);
      AfterCatchUpSafe(WithoutFrame(s, i), r, b);
    case Solved(nonce) =>
    case Exhausted(b) => if !s.busy { RebuiltSafe(s, b); }
    case TimerFires(b) => if !s.busy { RebuiltSafe(s, b); }
    case Startup(b) => RebuiltSafe(s, b);
    case TipAnnounced =>
    case TipMoves(_) =>
    case Disposed =>
  }

  lemma AfterSubmitSafe(s: Coord, frame: Frame, b: Build)
    requires s.busy && s.frames == [] && SubmitsGood(s) && s.grind.None? && !frame.TipCatchUp?
    requires s.pending.None?
    ensures Safe(AfterSubmit(s, frame, b))
  {
    DrainedSafe(s, true, SolveDrain);
    RebuiltSafe(s.(busy := false), b);
  }

  lemma AfterCatchUpSafe(s: Coord, r: CatchUp, b: Build)
    requires s.busy && s.frames == [] && SubmitsGood(s)
    requires s.grind.Some? ==> s.grind == s.current && (r.Unchanged? ==> s.grind.value.prevHash == s.tip)
    ensures Safe(AfterCatchUp(s, r, b))
  {
    var stopped := if r.Advanced? then Rebuilt(s.(grind := None), b) else if r.Unchanged? then s else s.(grind := None);
    DrainedSafe(stopped, !r.Failed?, TipDrain);
  }

  /** Where a run leads; an event that cannot happen then is skipped. */
  function After(tip: Hash32, events: seq<Event>): Coord {
    if events == [] then Initial(tip)
    else
      var s := After(tip, events[..|events| - 1]);
      if Enabled(s, events[|events| - 1]) then Next(s, events[|events| - 1]) else s
  }

  /**
   * In every state of every run: at most one submit or catch-up is under way;
   * with none under way a running grind is on the chain's tip; everything ever
   * submitted was built on the tip of its moment; and no solve that waited for a
   * catch-up that failed was ever submitted.
   */
  lemma {:induction false} AlwaysSafe(tip: Hash32, events: seq<Event>)
    ensures Safe(After(tip, events))
    decreases |events|
  {
    if events != [] {
      hide Safe, Next;
      var s := After(tip, events[..|events| - 1]);
      AlwaysSafe(tip, events[..|events| - 1]);
      if Enabled(s, events[|events| - 1]) {
        NextSafe(s, events[|events| - 1]);
      }
    } else {
      assert Safe(Initial(tip));
    }
  }

  /** A solve still waiting when its catch-up fails is lost there and then. */
  lemma FailedCatchUpLosesSolve(s: Coord, i: nat, b: Build)
    requires Safe(s) && Enabled(s, CatchUpSettled(i, Failed, b)) && s.pending.Some? && !s.disposed
    ensures s.pending.value.id in Next(s, CatchUpSettled(i, Failed, b)).lost
    ensures Next(s, CatchUpSettled(i, Failed, b)).submitted == s.submitted
  {
  }

  // ------------------------------------------------------------------
  // Getting back to work
  // ------------------------------------------------------------------

  /** A rebuild that works leaves the grind on a template for the tip; one that throws leaves the retry armed. */
  predicate BackToWork(s: Coord, b: Build) {
    if b.Started? then s.grind == s.current == Some(Template(s.tip, b.body)) && !s.retryArmed else s.retryArmed
  }

  /**
   * After a catch-up that changed the chain, unless disposed: a waiting solve for
   * the new tip is being submitted; otherwise it is dropped, the coordinator is
   * free, and it grinds on the new tip or will retry.
   */
  lemma AdvancedResumes(s: Coord, i: nat, b: Build)
    requires Safe(s) && Enabled(s, CatchUpSettled(i, Advanced, b)) && !s.disposed
    ensures var n := Next(s, CatchUpSettled(i, Advanced, b));
            && n.tip == s.tip && n.pending.None? && n.lost == s.lost
            && if s.pending.Some? && s.pending.value.template.prevHash == s.tip
               then n.busy && n.frames == [TipDrain] && n.grind.None?
                    && n.submitted == s.submitted + [Submission(s.pending.value, s.tip)]
               else !n.busy && n.frames == [] && n.submitted == s.submitted && BackToWork(n, b)
  {
    NoFrames(s, i);
  }

  /** After a submit, settled either way: free, and at work on the tip as it is then. */
  lemma SubmitResumes(s: Coord, i: nat, b: Build)
    requires Safe(s) && Enabled(s, SubmitSettled(i, b)) && !s.disposed
    ensures var n := Next(s, SubmitSettled(i, b));
            !n.busy && n.frames == [] && n.tip == s.tip && n.submitted == s.submitted && BackToWork(n, b)
  {
    NoFrames(s, i);
  }

  /** A catch-up that changed nothing leaves the grind alone, unless a waiting solve is submitted now. */
  lemma UnchangedResumes(s: Coord, i: nat, b: Build)
    requires Safe(s) && Enabled(s, CatchUpSettled(i, Unchanged, b)) && !s.disposed
    ensures var n := Next(s, CatchUpSettled(i, Unchanged, b));
            && n.pending.None? && n.current == s.current && n.retryArmed == s.retryArmed
            && if s.pending.Some? && s.pending.value.template.prevHash == s.tip
               then n.frames == [TipDrain] && n.submitted == s.submitted + [Submission(s.pending.value, s.tip)]
               else !n.busy && n.grind == s.grind && n.submitted == s.submitted
  {
    NoFrames(s, i);
  }

  /** A solve found while nothing is under way is submitted with the tip of that moment; otherwise it waits. */
  lemma SolveIsTaken(s: Coord, nonce: nat)
    requires Enabled(s, Solved(nonce)) && s.current.Some?
    ensures var n, solve := Next(s, Solved(nonce)), Solve(s.nextId, s.current.value, nonce);
            && n.nextId == s.nextId + 1
            && if s.busy then n.pending == Some(solve) && n.submitted == s.submitted && n.grind == s.grind
               else n.busy && n.frames == s.frames + [SolveSubmit] && n.grind.None?
                    && n.submitted == s.submitted + [Submission(solve, s.tip)]
  {
  }

  /** Disposed, not yet started, grinding, about to retry, or submitting. */
  predicate Working(s: Coord) {
    || s.disposed || s.current.None? || s.grind.Some? || s.retryArmed
    || exists f :: f in s.frames && !f.TipCatchUp?
  }

  predicate Fails(e: Event) { e.CatchUpSettled? && e.result.Failed? }

  /** Only a failed catch-up can leave a started coordinator with nothing to do. */
  lemma OnlyFailureIdles(s: Coord, e: Event)
    requires Safe(s) && Working(s) && Enabled(s, e) && !Fails(e)
    ensures Working(Next(s, e))
  {
    match e
    case SubmitSettled(i, b) => if !s.disposed { SubmitResumes(s, i, b); }
    case CatchUpSettled(i, r, b) =>
      NoFrames(s, i);
      if !s.disposed && r.Advanced? {
        AdvancedResumes(s, i, b);
        assert TipDrain in [TipDrain];
      } else if !s.disposed {
        UnchangedResumes(s, i, b);
        assert TipDrain in [TipDrain];
      }
    case Solved(nonce) =>
      if s.current.Some? && !s.busy {
        assert Next(s, e).frames == s.frames + [SolveSubmit];
        assert SolveSubmit in Next(s, e).frames;
      }
    case _ =>
  }

  /** So in every run without a failed catch-up the coordinator always has something under way. */
  lemma {:induction false} AlwaysWorking(tip: Hash32, events: seq<Event>)
    requires forall k :: 0 <= k < |events| ==> !Fails(events[k])
    ensures Working(After(tip, events))
    decreases |events|
  {
    if events != [] {
      hide Safe, Next, Working, Enabled;
      var front := events[..|events| - 1];
      AlwaysWorking(tip, front);
      AlwaysSafe(tip, front);
      if Enabled(After(tip, front), events[|events| - 1]) {
        OnlyFailureIdles(After(tip, front), events[|events| - 1]);
      }
    }
  }

  /** A failed catch-up frees the coordinator with the grind stopped, submitting nothing. */
  lemma FailedStops(s: Coord, i: nat, b: Build)
    requires Safe(s) && Enabled(s, CatchUpSettled(i, Failed, b))
    ensures var n := Next(s, CatchUpSettled(i, Failed, b));
            && !n.busy && n.frames == [] && n.grind.None? && n.pending.None?
            && n.submitted == s.submitted && n.current == s.current && n.retryArmed == s.retryArmed
  {
    NoFrames(s, i);
  }

  /** With nothing under way, an exhausted grind, the retry timer and the start all lead to a rebuild on the tip. */
  lemma IdleRebuilds(s: Coord, e: Event, b: Build)
    requires Safe(s) && !s.busy && !s.disposed && Enabled(s, e) && e in {Exhausted(b), TimerFires(b), Startup(b)}
    ensures BackToWork(Next(s, e), b) && !Next(s, e).busy && Next(s, e).submitted == s.submitted
  {
  }

  /** While something is under way, a tip announcement and an exhausted grind wait, and the retry stays armed. */
  lemma BusyWaits(s: Coord, e: Event, b: Build)
    requires s.busy && !s.disposed && Enabled(s, e) && e in {TipAnnounced, Exhausted(b), TimerFires(b)}
    ensures Next(s, e) == s
  {
  }
}
