/** Maintenance passes and recoveries: any number of goroutines over any number of sessions, interleaved step by step. */
module Maintenance {
  import opened Prelude
  import opened Messages
  import opened Blocks
  import opened SessionLog
  import opened Consolidation
  import opened ConsolidationRuns
  import opened Conversation

  // ----- the guard, as one goroutine sees it -----

  /** The set of sessions under consolidation; each method is one critical section. */
  class Guard {
    var consolidating: set<string>

    constructor ()
      ensures consolidating == {}
    {
      consolidating := {};
    }

    method TryEnter(session: string) returns (entered: bool)
      modifies this
      ensures entered <==> session !in old(consolidating)
      ensures consolidating == old(consolidating) + {session}
    {
      if session in consolidating {
        return false;
      }
      consolidating := consolidating + {session};
      entered := true;
    }

    method Leave(session: string)
      modifies this
      ensures consolidating == old(consolidating) - {session}
    {
      consolidating := consolidating - {session};
    }

    /** Nothing when the session is busy, else one pass; either way the guard ends as it began. */
    method RunMaintenance(conv: DefaultConversation, session: string, entry: Option<string>, saved: bool)
      requires conv.Valid()
      modifies this, conv.policy`sidecar
      ensures consolidating == old(consolidating)
      ensures conv.CountNow() <= |conv.log|
      ensures conv.policy.Stored() ==
              if session in old(consolidating) then old(conv.policy.Stored())
              else Maintained(conv.policy.window, conv.log, conv.CountNow(), old(conv.policy.Stored()), entry, saved)
    {
      ServedCount(conv.file, conv.log);
      var entered := TryEnter(session);
      if !entered {
        return;
      }
      conv.PostTurn(false, entry, saved);
      Leave(session);
    }
  }

  // ----- every interleaving -----

  /** A pass is made in the background behind the guard, a recovery by the turn that needs it, without the guard. */
  datatype Kind = Periodic | Reactive

  /** Where a goroutine is, with what it has read so far in its local variables. */
  datatype Pc =
    | Spawned
    | Entered
    | Loaded(state: State)
    | Counted(state: State, total: nat)
    | Asked(state: State, total: nat, chunk: seq<Message>)
    | Answered(state: State, total: nat, chunk: seq<Message>, entry: string)
    | Ready(state: State, total: nat, chunk: seq<Message>, entry: string, result: State)
    | Leaving
    | Done

  datatype Worker = Worker(session: string, kind: Kind, pc: Pc)

  /** Sessions in `clearing` have lost their log already and their sidecar not yet. */
  datatype Host = Host(logs: map<string, seq<Message>>, sidecars: map<string, State>, clearing: set<string>,
                       consolidating: set<string>, workers: seq<Worker>)

  const IDLE := Host(map[], map[], {}, {}, [])

  /** What the outside world answers in one step: a count, a summary, the fate of a write. */
  datatype Draw = Draw(total: nat, entry: Option<string>, saved: bool)

  datatype Action =
    | Write(session: string, messages: seq<Message>)
    | Schedule(session: string)
    | Call(session: string)
    | Overflow(session: string)
    | Advance(worker: nat, draw: Draw)
    | Truncate(session: string)
    | Forget(session: string)

  function LogOf(sys: Host, session: string): seq<Message> {
    if session in sys.logs then sys.logs[session] else []
  }

  function SidecarOf(sys: Host, session: string): State {
    if session in sys.sidecars then sys.sidecars[session] else FRESH
  }

  /** What the sidecar holds once a clear that is under way is through. */
  function StoredOf(sys: Host, session: string): State {
    if session in sys.clearing then FRESH else SidecarOf(sys, session)
  }

  /** A count taken from a session may lag behind its log, never be ahead of it; clears of one session do not overlap. */
  predicate CanAct(sys: Host, a: Action) {
    match a
    case Advance(i, draw) =>
      i < |sys.workers| && (sys.workers[i].pc.Loaded? ==> draw.total <= |LogOf(sys, sys.workers[i].session)|)
    case Truncate(session) => session !in sys.clearing
    case Forget(session) => session in sys.clearing
    case _ => true
  }

  function Moved(sys: Host, i: nat, pc: Pc): Host
    requires i < |sys.workers|
  {
    sys.(workers := sys.workers[i := sys.workers[i].(pc := pc)])
  }

  /** The part of [from, end) that a log has. */
  function Slice(log: seq<Message>, from: nat, end: nat): seq<Message> {
    var stop := if end < |log| then end else |log|;
    if from < stop then log[from..stop] else []
  }

  /** The repaired boundary on a log that may have become shorter than it was counted. */
  function BoundaryIn(log: seq<Message>, end: nat, total: nat): nat {
    var rest := Slice(log, 0, total);
    if end < |rest| then NextSafeCut(rest, end) else end
  }

  /** One step of one goroutine; the chunk is read and the boundary repaired on the log as it is by then. */
  function StepWorker(window: nat, sys: Host, i: nat, draw: Draw): Host
    requires i < |sys.workers|
  {
    var w := sys.workers[i];
    match w.pc
    case Spawned =>
      if w.kind.Reactive? then Moved(sys, i, Entered)
      else if w.session in sys.consolidating then Moved(sys, i, Done)
      else Moved(sys, i, Entered).(consolidating := sys.consolidating + {w.session})
    case Entered => Moved(sys, i, Loaded(SidecarOf(sys, w.session)))
    case Ready(_, _, _, _, result) =>
      Moved(if draw.saved then sys.(sidecars := sys.sidecars[w.session := result]) else sys, i, Leaving)
    case Leaving =>
      Moved(if w.kind.Periodic? then sys.(consolidating := sys.consolidating - {w.session}) else sys, i, Done)
    case Done => sys
    case _ => Moved(sys, i, Worked(window, LogOf(sys, w.session), w.kind, w.pc, draw))
  }

  /** The steps between load and save, which change nothing but the goroutine's own variables. */
  function Worked(window: nat, log: seq<Message>, kind: Kind, pc: Pc, draw: Draw): Pc {
    match pc
    case Loaded(s) =>
      if kind.Periodic? && draw.total - s.summarizedThrough < window then Leaving else Counted(s, draw.total)
    case Counted(s, total) =>
      var chunk := Slice(log, s.summarizedThrough, ChunkEnd(window, s.summarizedThrough, total));
      if chunk == [] then Leaving else Asked(s, total, chunk)
    case Asked(s, total, chunk) =>
      if draw.entry.GetOr("") == "" then Leaving else Answered(s, total, chunk, draw.entry.value)
    case Answered(s, total, chunk, entry) =>
      var cut := BoundaryIn(log, ChunkEnd(window, s.summarizedThrough, total), total);
      Ready(s, total, chunk, entry, State(cut, MergeSummary(s.summary, entry)))
    case _ => pc
  }

  function Act(window: nat, sys: Host, a: Action): Host
    requires CanAct(sys, a)
  {
    match a
    case Write(session, messages) => sys.(logs := sys.logs[session := LogOf(sys, session) + messages])
    case Schedule(session) =>
      if session in sys.consolidating then sys else sys.(workers := sys.workers + [Worker(session, Periodic, Spawned)])
    case Call(session) => sys.(workers := sys.workers + [Worker(session, Periodic, Spawned)])
    case Overflow(session) => sys.(workers := sys.workers + [Worker(session, Reactive, Spawned)])
    case Advance(i, draw) => StepWorker(window, sys, i, draw)
    case Truncate(session) => sys.(logs := sys.logs - {session}, clearing := sys.clearing + {session})
    case Forget(session) => sys.(sidecars := sys.sidecars - {session}, clearing := sys.clearing - {session})
  }

  predicate CanRun(window: nat, actions: seq<Action>)
    decreases |actions|, 0
  {
    actions == [] ||
    var front := actions[..|actions| - 1];
    CanRun(window, front) && CanAct(Reached(window, front), actions[|actions| - 1])
  }

  function Reached(window: nat, actions: seq<Action>): Host
    requires CanRun(window, actions)
    decreases |actions|, 1
  {
    if actions == [] then IDLE
    else Act(window, Reached(window, actions[..|actions| - 1]), actions[|actions| - 1])
  }

  lemma WorkersStay(window: nat, sys: Host, a: Action, i: nat)
    requires CanAct(sys, a) && i < |Act(window, sys, a).workers|
    ensures var w := Act(window, sys, a).workers[i];
      if i < |sys.workers| then
        && w.session == sys.workers[i].session && w.kind == sys.workers[i].kind
        && ((a.Advance? && a.worker == i) || w == sys.workers[i])
      else w.pc.Spawned?
  {
  }

  // ----- at most one pass per session -----

  predicate InFlight(w: Worker) {
    w.kind.Periodic? && !w.pc.Spawned? && !w.pc.Done?
  }

  /** Sessions in the set have exactly one goroutine past the guard, the others none. */
  ghost predicate Guards(consolidating: set<string>, workers: seq<Worker>) {
    && (forall k | k in consolidating :: exists i | 0 <= i < |workers| :: workers[i].session == k && InFlight(workers[i]))
    && (forall i | 0 <= i < |workers| && InFlight(workers[i]) :: workers[i].session in consolidating)
    && (forall i, j | 0 <= i < j < |workers| && InFlight(workers[i]) && InFlight(workers[j]) ::
          workers[i].session != workers[j].session)
  }

  lemma WithinFlightKeepsGuard(consolidating: set<string>, workers: seq<Worker>, i: nat, w: Worker)
    requires Guards(consolidating, workers) && i < |workers|
    requires w.session == workers[i].session && InFlight(w) == InFlight(workers[i])
    ensures Guards(consolidating, workers[i := w])
  {
    var now := workers[i := w];
    forall k | k in consolidating
      ensures exists j | 0 <= j < |now| :: now[j].session == k && InFlight(now[j])
    {
      var j :| 0 <= j < |workers| && workers[j].session == k && InFlight(workers[j]);
      assert now[j].session == k && InFlight(now[j]);
    }
  }

  lemma EnteringKeepsGuard(consolidating: set<string>, workers: seq<Worker>, i: nat, w: Worker)
    requires Guards(consolidating, workers) && i < |workers|
    requires w.session == workers[i].session && w.session !in consolidating && InFlight(w)
    ensures Guards(consolidating + {w.session}, workers[i := w])
  {
    var now := workers[i := w];
    forall k | k in consolidating + {w.session}
      ensures exists j | 0 <= j < |now| :: now[j].session == k && InFlight(now[j])
    {
      if k == w.session {
        assert now[i].session == k;
      } else {
        var j :| 0 <= j < |workers| && workers[j].session == k && InFlight(workers[j]);
        assert now[j].session == k && InFlight(now[j]);
      }
    }
  }

  lemma LeavingKeepsGuard(consolidating: set<string>, workers: seq<Worker>, i: nat, w: Worker)
    requires Guards(consolidating, workers) && i < |workers|
    requires w.session == workers[i].session && InFlight(workers[i]) && !InFlight(w)
    ensures Guards(consolidating - {w.session}, workers[i := w])
  {
    var now := workers[i := w];
    forall k | k in consolidating - {w.session}
      ensures exists j | 0 <= j < |now| :: now[j].session == k && InFlight(now[j])
    {
      var j :| 0 <= j < |workers| && workers[j].session == k && InFlight(workers[j]);
      assert now[j].session == k && InFlight(now[j]);
    }
  }

  lemma SpawningKeepsGuard(consolidating: set<string>, workers: seq<Worker>, w: Worker)
    requires Guards(consolidating, workers) && !InFlight(w)
    ensures Guards(consolidating, workers + [w])
  {
    var now := workers + [w];
    forall k | k in consolidating
      ensures exists j | 0 <= j < |now| :: now[j].session == k && InFlight(now[j])
    {
      var j :| 0 <= j < |workers| && workers[j].session == k && InFlight(workers[j]);
      assert now[j] == workers[j];
    }
  }

  lemma StepMoves(window: nat, sys: Host, i: nat, draw: Draw)
    requires i < |sys.workers|
    ensures var t := StepWorker(window, sys, i, draw);
      && t.logs == sys.logs && t.clearing == sys.clearing && t.workers == sys.workers[i := t.workers[i]]
      && t.workers[i].session == sys.workers[i].session && t.workers[i].kind == sys.workers[i].kind
  {
  }

  /** The guard is taken and left in the same steps as a pass begins and ends. */
  lemma StepGuards(window: nat, sys: Host, i: nat, draw: Draw)
    requires i < |sys.workers|
    ensures var w, t := sys.workers[i], StepWorker(window, sys, i, draw);
      var v := t.workers[i];
      if InFlight(w) == InFlight(v) then t.consolidating == sys.consolidating
      else if InFlight(v) then w.session !in sys.consolidating && t.consolidating == sys.consolidating + {w.session}
      else t.consolidating == sys.consolidating - {w.session}
  {
  }

  lemma WorkerKeepsGuard(window: nat, sys: Host, i: nat, draw: Draw)
    requires Guards(sys.consolidating, sys.workers) && i < |sys.workers|
    ensures var t := StepWorker(window, sys, i, draw); Guards(t.consolidating, t.workers)
  {
    StepMoves(window, sys, i, draw);
    StepGuards(window, sys, i, draw);
    var w, v := sys.workers[i], StepWorker(window, sys, i, draw).workers[i];
    if InFlight(w) == InFlight(v) {
      WithinFlightKeepsGuard(sys.consolidating, sys.workers, i, v);
    } else if InFlight(v) {
      EnteringKeepsGuard(sys.consolidating, sys.workers, i, v);
    } else {
      LeavingKeepsGuard(sys.consolidating, sys.workers, i, v);
    }
  }

  /** The set is exactly the sessions with a pass in flight, one each, whatever is written, recovered or cleared meanwhile. */
  lemma {:induction false} AtMostOnePass(window: nat, actions: seq<Action>)
    requires CanRun(window, actions)
    ensures Guards(Reached(window, actions).consolidating, Reached(window, actions).workers)
  {
    if actions != [] {
      var front, a := actions[..|actions| - 1], actions[|actions| - 1];
      AtMostOnePass(window, front);
      var sys := Reached(window, front);
      match a {
        case Advance(i, draw) => WorkerKeepsGuard(window, sys, i, draw);
        case Schedule(session) => SpawningKeepsGuard(sys.consolidating, sys.workers, Worker(session, Periodic, Spawned));
        case Call(session) => SpawningKeepsGuard(sys.consolidating, sys.workers, Worker(session, Periodic, Spawned));
        case Overflow(session) => SpawningKeepsGuard(sys.consolidating, sys.workers, Worker(session, Reactive, Spawned));
        case _ =>
      }
    }
  }

  // ----- what a goroutine works from -----

  /** The state a goroutine loaded, until it has saved or given up. */
  function Held(pc: Pc): Option<State> {
    match pc
    case Loaded(s) => Some(s)
    case Counted(s, _) => Some(s)
    case Asked(s, _, _) => Some(s)
    case Answered(s, _, _, _) => Some(s)
    case Ready(s, _, _, _, _) => Some(s)
    case _ => None
  }

  predicate IsCount(window: nat, kind: Kind, log: seq<Message>, s: State, total: nat) {
    total <= |log| && (kind.Periodic? ==> total - s.summarizedThrough >= window)
  }

  predicate IsChunk(window: nat, log: seq<Message>, s: State, total: nat, chunk: seq<Message>) {
    var end := ChunkEnd(window, s.summarizedThrough, total);
    s.summarizedThrough < end <= |log| && chunk == log[s.summarizedThrough..end]
  }

  /** What a goroutine holds follows from the state it loaded and from its session's log as it is now. */
  predicate Grounded(window: nat, kind: Kind, log: seq<Message>, pc: Pc) {
    match pc
    case Counted(s, total) => IsCount(window, kind, log, s, total)
    case Asked(s, total, chunk) => IsCount(window, kind, log, s, total) && IsChunk(window, log, s, total, chunk)
    case Answered(s, total, chunk, entry) =>
      IsCount(window, kind, log, s, total) && IsChunk(window, log, s, total, chunk) && entry != ""
    case Ready(s, total, chunk, entry, result) =>
      && IsCount(window, kind, log, s, total) && IsChunk(window, log, s, total, chunk)
      && Pass(window, log, total, s, Some(entry)) == Passed(result, true)
    case _ => true
  }

  lemma AppendsKeepGrounded(window: nat, kind: Kind, log: seq<Message>, more: seq<Message>, pc: Pc)
    requires Grounded(window, kind, log, pc)
    ensures Grounded(window, kind, log + more, pc)
  {
    if pc.Ready? {
      assert (log + more)[..pc.total] == log[..pc.total];
    }
  }

  /** On a log that holds all that was counted the repaired boundary is that of a whole pass. */
  lemma BoundaryOfWholeLog(log: seq<Message>, end: nat, total: nat)
    requires end <= total <= |log|
    ensures BoundaryIn(log, end, total) == RepairedBoundary(log, end, total)
  {
    if total > 0 {
      assert Slice(log, 0, total) == log[..total];
    }
  }

  lemma WorkStaysGrounded(window: nat, kind: Kind, log: seq<Message>, pc: Pc, draw: Draw)
    requires Grounded(window, kind, log, pc) && (pc.Loaded? ==> draw.total <= |log|)
    ensures Grounded(window, kind, log, Worked(window, log, kind, pc, draw))
  {
    if pc.Answered? {
      BoundaryOfWholeLog(log, ChunkEnd(window, pc.state.summarizedThrough, pc.total), pc.total);
    }
  }

  /** Goroutine `i` reads the sidecar in this step. */
  predicate Loads(sys: Host, a: Action, i: nat) {
    a.Advance? && a.worker == i < |sys.workers| && sys.workers[i].pc.Entered?
  }

  /** The session is cleared under goroutine `i`, which has more in its variables than an empty state. */
  predicate CutsOff(sys: Host, a: Action, session: string, i: nat) {
    a == Truncate(session) && i < |sys.workers| && Held(sys.workers[i].pc).Some? && sys.workers[i].pc != Loaded(FRESH)
  }

  function CutOffAfter(sys: Host, a: Action, session: string, i: nat, before: bool): bool {
    if Loads(sys, a, i) then SidecarOf(sys, session) != StoredOf(sys, session)
    else before || CutsOff(sys, a, session, i)
  }

  /** Goroutine `i` works from a session that was cleared since, or whose clear was under way when it loaded. */
  predicate CutOff(window: nat, actions: seq<Action>, session: string, i: nat)
    requires CanRun(window, actions)
  {
    actions != [] &&
    var front := actions[..|actions| - 1];
    CutOffAfter(Reached(window, front), actions[|actions| - 1], session, i, CutOff(window, front, session, i))
  }

  lemma ActStaysGrounded(window: nat, sys: Host, a: Action, i: nat)
    requires CanAct(sys, a) && i < |sys.workers| && !CutsOff(sys, a, sys.workers[i].session, i)
    requires Grounded(window, sys.workers[i].kind, LogOf(sys, sys.workers[i].session), sys.workers[i].pc)
    ensures var w := Act(window, sys, a).workers[i];
      Grounded(window, w.kind, LogOf(Act(window, sys, a), w.session), w.pc)
  {
    WorkersStay(window, sys, a, i);
    var w := sys.workers[i];
    if a.Advance? {
      StepMoves(window, sys, a.worker, a.draw);
      if a.worker == i && Held(w.pc).Some? && !w.pc.Ready? {
        WorkStaysGrounded(window, w.kind, LogOf(sys, w.session), w.pc, a.draw);
      }
    } else if a.Write? {
      AppendsKeepGrounded(window, w.kind, LogOf(sys, w.session), a.messages, w.pc);
    }
  }

  /** Unless it is cut off, what a goroutine counted, read and computed is what its session's log gives now. */
  lemma {:induction false} GroundedUnlessCutOff(window: nat, actions: seq<Action>, i: nat)
    requires CanRun(window, actions) && i < |Reached(window, actions).workers|
    requires !CutOff(window, actions, Reached(window, actions).workers[i].session, i)
    ensures var sys := Reached(window, actions); var w := sys.workers[i];
      Grounded(window, w.kind, LogOf(sys, w.session), w.pc)
  {
    var front, a := actions[..|actions| - 1], actions[|actions| - 1];
    var sys := Reached(window, front);
    WorkersStay(window, sys, a, i);
    if i < |sys.workers| && !Loads(sys, a, i) {
      GroundedUnlessCutOff(window, front, i);
      ActStaysGrounded(window, sys, a, i);
    }
  }

  // ----- what is kept -----

  /** Whole events since the last clear, and the goroutines whose saves are among them, in order. */
  datatype Branch = Branch(events: seq<Event>, savers: seq<nat>)

  /** A save that lasts: one made while a clear is under way is deleted with the sidecar. */
  predicate Lands(sys: Host, a: Action, session: string)
    requires CanAct(sys, a)
  {
    && a.Advance? && a.draw.saved && session !in sys.clearing
    && sys.workers[a.worker].session == session && sys.workers[a.worker].pc.Ready?
  }

  /** The pass or recovery of a goroutine as one atomic event at the moment it is saved. */
  function SaveEvent(w: Worker): Event
    requires w.pc.Ready?
  {
    if w.kind.Periodic? then TurnComplete(w.pc.total, Some(w.pc.entry), true) else Recover(w.pc.total, Some(w.pc.entry), true)
  }

  function Extended(branch: Branch, a: Action, session: string): Branch {
    match a
    case Write(k, messages) => if k == session then branch.(events := branch.events + [Append(messages)]) else branch
    case Truncate(k) => if k == session then Branch([], []) else branch
    case _ => branch
  }

  function Saved(branch: Branch, w: Worker, i: nat): Branch
    requires w.pc.Ready?
  {
    Branch(branch.events + [SaveEvent(w)], branch.savers + [i])
  }

  /** A save puts what its goroutine has in view, `seen`, with its own event, in the place of what was kept. */
  function KeptAfter(sys: Host, a: Action, session: string, kept: Branch, seen: Branch): Branch
    requires CanAct(sys, a)
  {
    if Lands(sys, a, session) then Saved(seen, sys.workers[a.worker], a.worker) else Extended(kept, a, session)
  }

  function SeenAfter(sys: Host, a: Action, session: string, i: nat, kept: Branch, seen: Branch): Branch {
    if Loads(sys, a, i) then kept else Extended(seen, a, session)
  }

  /** What goroutine `i` has in view: what was kept when it loaded, and the appends since. */
  function Seen(window: nat, actions: seq<Action>, session: string, i: nat): Branch
    requires CanRun(window, actions)
    decreases |actions|
  {
    if actions == [] then Branch([], [])
    else
      var front := actions[..|actions| - 1];
      SeenAfter(Reached(window, front), actions[|actions| - 1], session, i,
                Kept(window, front, session), Seen(window, front, session, i))
  }

  /** The events behind what is stored. */
  function Kept(window: nat, actions: seq<Action>, session: string): Branch
    requires CanRun(window, actions)
    decreases |actions|
  {
    if actions == [] then Branch([], [])
    else
      var front, a := actions[..|actions| - 1], actions[|actions| - 1];
      var seen := Seen(window, front, session, if a.Advance? then a.worker else 0);
      KeptAfter(Reached(window, front), a, session, Kept(window, front, session), seen)
  }

  function UnreadAfter(sys: Host, a: Action, session: string, i: nat, unread: seq<nat>): seq<nat>
    requires CanAct(sys, a)
  {
    if Loads(sys, a, i) || a == Truncate(session) then []
    else if Lands(sys, a, session) then unread + [a.worker]
    else unread
  }

  /** The goroutines that saved since goroutine `i` loaded and since the last clear. */
  function Unread(window: nat, actions: seq<Action>, session: string, i: nat): seq<nat>
    requires CanRun(window, actions)
  {
    if actions == [] then []
    else
      var front := actions[..|actions| - 1];
      UnreadAfter(Reached(window, front), actions[|actions| - 1], session, i, Unread(window, front, session, i))
  }

  /** The session's log, and its sidecar once no clear is under way, are those of a serial run. */
  predicate IsRunOf(window: nat, sys: Host, session: string, events: seq<Event>) {
    && PossibleRun(window, events)
    && LogOf(sys, session) == Run(window, events).log && StoredOf(sys, session) == Run(window, events).state
  }

  predicate HaveSaved(workers: seq<Worker>, savers: seq<nat>) {
    forall i | i in savers :: i < |workers| && (workers[i].pc.Leaving? || workers[i].pc.Done?)
  }

  /**
    * What a goroutine has in view leads to the log as it is and to the state it holds. With nothing
    * unread that is what is kept; otherwise the last save kept is one that is not in view.
    */
  predicate InView(window: nat, sys: Host, w: Worker, kept: Branch, seen: Branch, unread: seq<nat>) {
    Held(w.pc).Some? ==>
      && PossibleRun(window, seen.events)
      && Run(window, seen.events).log == LogOf(sys, w.session) && Run(window, seen.events).state == Held(w.pc).value
      && HaveSaved(sys.workers, seen.savers)
      && (unread == [] ==> seen == kept)
      && (unread != [] ==> kept.savers != [] && kept.savers[|kept.savers| - 1] !in seen.savers)
  }

  lemma HaveSavedStays(window: nat, sys: Host, a: Action, savers: seq<nat>)
    requires CanAct(sys, a) && HaveSaved(sys.workers, savers)
    ensures HaveSaved(Act(window, sys, a).workers, savers)
  {
    forall i | i in savers ensures i < |Act(window, sys, a).workers| && !Held(Act(window, sys, a).workers[i].pc).Some? {
      WorkersStay(window, sys, a, i);
    }
  }

  // ----- what is kept is a serial run -----

  lemma OtherActKeeps(window: nat, sys: Host, a: Action, session: string, kept: Branch)
    requires CanAct(sys, a) && !a.Advance? && IsRunOf(window, sys, session, kept.events)
    ensures IsRunOf(window, Act(window, sys, a), session, Extended(kept, a, session).events)
  {
    if a.Write? && a.session == session {
      OneMoreEvent(window, kept.events, Append(a.messages));
    }
  }

  lemma StepKeeps(window: nat, sys: Host, i: nat, draw: Draw, session: string)
    requires CanAct(sys, Advance(i, draw)) && !Lands(sys, Advance(i, draw), session)
    ensures var t := StepWorker(window, sys, i, draw);
      LogOf(t, session) == LogOf(sys, session) && StoredOf(t, session) == StoredOf(sys, session)
  {
  }

  lemma LandingKeeps(window: nat, sys: Host, i: nat, draw: Draw, seen: seq<Event>)
    requires CanAct(sys, Advance(i, draw)) && Lands(sys, Advance(i, draw), sys.workers[i].session)
    requires var w := sys.workers[i];
      && Grounded(window, w.kind, LogOf(sys, w.session), w.pc) && PossibleRun(window, seen)
      && Run(window, seen).log == LogOf(sys, w.session) && Run(window, seen).state == w.pc.state
    ensures var w := sys.workers[i]; var after := seen + [SaveEvent(w)];
      && IsRunOf(window, StepWorker(window, sys, i, draw), w.session, after)
      && Run(window, after).entries == Run(window, seen).entries + [w.pc.entry]
  {
    OneMoreEvent(window, seen, SaveEvent(sys.workers[i]));
  }

  // ----- what a goroutine has in view -----

  lemma LoaderKeepsView(window: nat, sys: Host, i: nat, draw: Draw, kept: Branch)
    requires i < |sys.workers| && sys.workers[i].pc.Entered?
    requires var w := sys.workers[i];
      && IsRunOf(window, sys, w.session, kept.events) && HaveSaved(sys.workers, kept.savers)
      && SidecarOf(sys, w.session) == StoredOf(sys, w.session)
    ensures var t := StepWorker(window, sys, i, draw); InView(window, t, t.workers[i], kept, kept, [])
  {
    HaveSavedStays(window, sys, Advance(i, draw), kept.savers);
  }

  lemma StepHolds(window: nat, sys: Host, i: nat, draw: Draw)
    requires i < |sys.workers| && !sys.workers[i].pc.Entered?
    ensures var v := StepWorker(window, sys, i, draw).workers[i];
      Held(v.pc).Some? ==> Held(v.pc) == Held(sys.workers[i].pc) && !sys.workers[i].pc.Ready?
  {
  }

  /** Goroutine `i` itself moves; from its save on it holds nothing any more. */
  lemma MoverKeepsView(window: nat, sys: Host, i: nat, draw: Draw, kept: Branch, seen: Branch, unread: seq<nat>)
    requires CanAct(sys, Advance(i, draw)) && !sys.workers[i].pc.Entered?
    requires InView(window, sys, sys.workers[i], kept, seen, unread)
    ensures var t := StepWorker(window, sys, i, draw); InView(window, t, t.workers[i], kept, seen, unread)
  {
    StepMoves(window, sys, i, draw);
    StepHolds(window, sys, i, draw);
    if Held(StepWorker(window, sys, i, draw).workers[i].pc).Some? {
      HaveSavedStays(window, sys, Advance(i, draw), seen.savers);
    }
  }

  /** Another goroutine moves; when it saves for good, goroutine `i` has that save unread. */
  lemma OtherStepKeepsView(window: nat, sys: Host, j: nat, draw: Draw, i: nat, kept: Branch, seen: Branch, unread: seq<nat>,
                           saved: Branch)
    requires CanAct(sys, Advance(j, draw)) && i < |sys.workers| && i != j
    requires InView(window, sys, sys.workers[i], kept, seen, unread)
    ensures var w, a, t := sys.workers[i], Advance(j, draw), StepWorker(window, sys, j, draw);
      InView(window, t, w, KeptAfter(sys, a, w.session, kept, saved), seen, UnreadAfter(sys, a, w.session, i, unread))
  {
    var w, a := sys.workers[i], Advance(j, draw);
    StepMoves(window, sys, j, draw);
    if Held(w.pc).Some? {
      HaveSavedStays(window, sys, a, seen.savers);
      assert sys.workers[j].pc.Ready? ==> j !in seen.savers;
    }
  }

  lemma WriteKeepsView(window: nat, sys: Host, session: string, messages: seq<Message>, w: Worker, kept: Branch, seen: Branch,
                       unread: seq<nat>)
    requires InView(window, sys, w, kept, seen, unread)
    ensures var a := Write(session, messages);
      InView(window, Act(window, sys, a), w, Extended(kept, a, w.session), Extended(seen, a, w.session), unread)
  {
    if Held(w.pc).Some? && session == w.session {
      OneMoreEvent(window, seen.events, Append(messages));
    }
  }

  /** Appends are seen by all; a clear takes what was kept from all, and cuts off all that have more than an empty state. */
  lemma OtherActKeepsView(window: nat, sys: Host, a: Action, i: nat, kept: Branch, seen: Branch, unread: seq<nat>)
    requires CanAct(sys, a) && !a.Advance? && i < |sys.workers| && !CutsOff(sys, a, sys.workers[i].session, i)
    requires InView(window, sys, sys.workers[i], kept, seen, unread)
    ensures var w, t := sys.workers[i], Act(window, sys, a);
      InView(window, t, w, Extended(kept, a, w.session), Extended(seen, a, w.session), UnreadAfter(sys, a, w.session, i, unread))
  {
    var w := sys.workers[i];
    if a.Write? {
      WriteKeepsView(window, sys, a.session, a.messages, w, kept, seen, unread);
    } else if Held(w.pc).Some? && a != Truncate(w.session) {
      HaveSavedStays(window, sys, a, seen.savers);
    }
  }

  lemma ActKeepsView(window: nat, sys: Host, a: Action, i: nat, kept: Branch, saved: Branch, seen: Branch, unread: seq<nat>)
    requires CanAct(sys, a) && i < |sys.workers| && !CutsOff(sys, a, sys.workers[i].session, i)
    requires Loads(sys, a, i) ==> SidecarOf(sys, sys.workers[i].session) == StoredOf(sys, sys.workers[i].session)
    requires IsRunOf(window, sys, sys.workers[i].session, kept.events) && HaveSaved(sys.workers, kept.savers)
    requires InView(window, sys, sys.workers[i], kept, seen, unread)
    ensures var session, t := sys.workers[i].session, Act(window, sys, a);
      InView(window, t, t.workers[i], KeptAfter(sys, a, session, kept, saved),
             SeenAfter(sys, a, session, i, kept, seen), UnreadAfter(sys, a, session, i, unread))
  {
    WorkersStay(window, sys, a, i);
    if !a.Advance? {
      OtherActKeepsView(window, sys, a, i, kept, seen, unread);
    } else if a.worker != i {
      OtherStepKeepsView(window, sys, a.worker, a.draw, i, kept, seen, unread, saved);
    } else if sys.workers[i].pc.Entered? {
      LoaderKeepsView(window, sys, i, a.draw, kept);
    } else {
      MoverKeepsView(window, sys, i, a.draw, kept, seen, unread);
      StepHolds(window, sys, i, a.draw);
    }
  }

  // ----- every interleaving -----

  /** Since the last clear no goroutine of the session that was cut off has saved for good. */
  predicate SavesAreUncut(window: nat, actions: seq<Action>, session: string)
    requires CanRun(window, actions)
  {
    actions == [] ||
    var front, a := actions[..|actions| - 1], actions[|actions| - 1];
    a == Truncate(session) ||
    (SavesAreUncut(window, front, session)
     && (Lands(Reached(window, front), a, session) ==> !CutOff(window, front, session, a.worker)))
  }

  ghost predicate AllInView(window: nat, actions: seq<Action>, session: string)
    requires CanRun(window, actions)
  {
    var sys, kept := Reached(window, actions), Kept(window, actions, session);
    forall i | 0 <= i < |sys.workers| && sys.workers[i].session == session && !CutOff(window, actions, session, i) ::
      InView(window, sys, sys.workers[i], kept, Seen(window, actions, session, i), Unread(window, actions, session, i))
  }

  ghost predicate IsKept(window: nat, actions: seq<Action>, session: string)
    requires CanRun(window, actions)
  {
    var sys, kept := Reached(window, actions), Kept(window, actions, session);
    IsRunOf(window, sys, session, kept.events) && HaveSaved(sys.workers, kept.savers)
  }

  lemma OneMoreKept(window: nat, actions: seq<Action>, session: string)
    requires actions != [] && CanRun(window, actions) && SavesAreUncut(window, actions, session)
    requires actions[|actions| - 1] != Truncate(session)
    requires IsKept(window, actions[..|actions| - 1], session) && AllInView(window, actions[..|actions| - 1], session)
    ensures IsKept(window, actions, session)
  {
    var front, a := actions[..|actions| - 1], actions[|actions| - 1];
    var sys, kept := Reached(window, front), Kept(window, front, session);
    if !a.Advance? {
      OtherActKeeps(window, sys, a, session, kept);
      HaveSavedStays(window, sys, a, kept.savers);
    } else if Lands(sys, a, session) {
      var i := a.worker;
      var seen := Seen(window, front, session, i);
      GroundedUnlessCutOff(window, front, i);
      assert InView(window, sys, sys.workers[i], kept, seen, Unread(window, front, session, i));
      LandingKeeps(window, sys, i, a.draw, seen.events);
      HaveSavedStays(window, sys, a, seen.savers);
      assert Act(window, sys, a).workers[i].pc.Leaving?;
    } else {
      StepKeeps(window, sys, a.worker, a.draw, session);
      HaveSavedStays(window, sys, a, kept.savers);
    }
  }

  lemma ClearKeepsNothing(window: nat, actions: seq<Action>, session: string)
    requires actions != [] && CanRun(window, actions) && actions[|actions| - 1] == Truncate(session)
    ensures IsKept(window, actions, session) && AllInView(window, actions, session)
  {
    var front := actions[..|actions| - 1];
    var sys, kept := Reached(window, actions), Kept(window, actions, session);
    assert kept == Branch([], []);
    forall i | 0 <= i < |sys.workers| && sys.workers[i].session == session && !CutOff(window, actions, session, i)
      ensures InView(window, sys, sys.workers[i], kept, Seen(window, actions, session, i), Unread(window, actions, session, i))
    {
      assert Seen(window, actions, session, i) == Branch([], []) && Unread(window, actions, session, i) == [];
    }
  }

  lemma OneMoreInView(window: nat, actions: seq<Action>, session: string, i: nat)
    requires actions != [] && CanRun(window, actions)
    requires IsKept(window, actions[..|actions| - 1], session) && AllInView(window, actions[..|actions| - 1], session)
    requires i < |Reached(window, actions).workers| && Reached(window, actions).workers[i].session == session
    requires !CutOff(window, actions, session, i)
    ensures var sys := Reached(window, actions);
      InView(window, sys, sys.workers[i], Kept(window, actions, session),
             Seen(window, actions, session, i), Unread(window, actions, session, i))
  {
    var front, a := actions[..|actions| - 1], actions[|actions| - 1];
    var sys := Reached(window, front);
    WorkersStay(window, sys, a, i);
    if i < |sys.workers| {
      ActKeepsView(window, sys, a, i, Kept(window, front, session),
                   Seen(window, front, session, if a.Advance? then a.worker else 0),
                   Seen(window, front, session, i), Unread(window, front, session, i));
    }
  }

  /** In every interleaving each session is as the serial run of the events that are kept leaves it. */
  lemma {:induction false} InterleavingsKeepSerialRuns(window: nat, actions: seq<Action>, session: string)
    requires CanRun(window, actions) && SavesAreUncut(window, actions, session)
    ensures IsKept(window, actions, session) && AllInView(window, actions, session)
  {
    if actions != [] && actions[|actions| - 1] == Truncate(session) {
      ClearKeepsNothing(window, actions, session);
    } else if actions != [] {
      InterleavingsKeepSerialRuns(window, actions[..|actions| - 1], session);
      OneMoreKept(window, actions, session);
      var sys := Reached(window, actions);
      forall i | 0 <= i < |sys.workers| && sys.workers[i].session == session && !CutOff(window, actions, session, i)
        ensures InView(window, sys, sys.workers[i], Kept(window, actions, session),
                       Seen(window, actions, session, i), Unread(window, actions, session, i))
      {
        OneMoreInView(window, actions, session, i);
      }
    }
  }

  // ----- lost updates -----

  lemma Then(window: nat, actions: seq<Action>, a: Action)
    requires CanRun(window, actions) && CanAct(Reached(window, actions), a)
    ensures CanRun(window, actions + [a]) && Reached(window, actions + [a]) == Act(window, Reached(window, actions), a)
  {
    assert (actions + [a])[..|actions|] == actions;
  }

  /** What a goroutine works from is all that is kept if and only if no other goroutine saved since it loaded. */
  lemma LoadIsCurrentExactly(window: nat, actions: seq<Action>, i: nat)
    requires CanRun(window, actions) && i < |Reached(window, actions).workers|
    requires Held(Reached(window, actions).workers[i].pc).Some?
    requires var session := Reached(window, actions).workers[i].session;
      SavesAreUncut(window, actions, session) && !CutOff(window, actions, session, i)
    ensures var sys := Reached(window, actions);
      var session, state := sys.workers[i].session, Held(sys.workers[i].pc).value;
      && (Unread(window, actions, session, i) == [] <==> Seen(window, actions, session, i) == Kept(window, actions, session))
      && (Unread(window, actions, session, i) == [] ==> state == StoredOf(sys, session))
  {
    var sys := Reached(window, actions);
    var session := sys.workers[i].session;
    InterleavingsKeepSerialRuns(window, actions, session);
    assert InView(window, sys, sys.workers[i], Kept(window, actions, session),
                  Seen(window, actions, session, i), Unread(window, actions, session, i));
  }

  /**
    * After a save its own event follows what its goroutine had in view. So the save only adds
    * to what was kept if and only if it has nothing unread; else the last save kept is lost.
    */
  lemma SaveLosesExactly(window: nat, actions: seq<Action>, a: Action, session: string)
    requires CanRun(window, actions) && SavesAreUncut(window, actions, session) && CanAct(Reached(window, actions), a)
    requires Lands(Reached(window, actions), a, session) && !CutOff(window, actions, session, a.worker)
    ensures CanRun(window, actions + [a]) && SavesAreUncut(window, actions + [a], session)
    ensures IsKept(window, actions, session) && IsKept(window, actions + [a], session)
    ensures var w := Reached(window, actions).workers[a.worker];
      var seen, unread := Seen(window, actions, session, a.worker), Unread(window, actions, session, a.worker);
      var before, after := Kept(window, actions, session), Kept(window, actions + [a], session);
      && after == Saved(seen, w, a.worker)
      && (after == Saved(before, w, a.worker) <==> unread == [])
      && (unread != [] ==> before.savers != [] && before.savers[|before.savers| - 1] !in after.savers)
      && PossibleRun(window, seen.events)
      && Run(window, after.events).entries == Run(window, seen.events).entries + [w.pc.entry]
      && TrimSpace(StoredOf(Reached(window, actions + [a]), session).summary) == Digest(Run(window, after.events).entries)
  {
    var i, w := a.worker, Reached(window, actions).workers[a.worker];
    SaveIsKept(window, actions, a, session);
    SaverInView(window, actions, a, session);
    SaveLosesUnread(w, i, Kept(window, actions, session), Seen(window, actions, session, i), Unread(window, actions, session, i));
    SaveSummarises(window, actions, a, session);
  }

  lemma SaverInView(window: nat, actions: seq<Action>, a: Action, session: string)
    requires CanRun(window, actions) && SavesAreUncut(window, actions, session) && CanAct(Reached(window, actions), a)
    requires Lands(Reached(window, actions), a, session) && !CutOff(window, actions, session, a.worker)
    ensures IsKept(window, actions, session)
    ensures var kept, seen := Kept(window, actions, session), Seen(window, actions, session, a.worker);
      var unread := Unread(window, actions, session, a.worker);
      && a.worker !in kept.savers && PossibleRun(window, seen.events)
      && (unread == [] ==> seen == kept)
      && (unread != [] ==> kept.savers != [] && kept.savers[|kept.savers| - 1] !in seen.savers)
  {
    var i, sys := a.worker, Reached(window, actions);
    InterleavingsKeepSerialRuns(window, actions, session);
    assert InView(window, sys, sys.workers[i], Kept(window, actions, session),
                  Seen(window, actions, session, i), Unread(window, actions, session, i));
  }

  lemma SaveSummarises(window: nat, actions: seq<Action>, a: Action, session: string)
    requires CanRun(window, actions) && SavesAreUncut(window, actions, session) && CanAct(Reached(window, actions), a)
    requires Lands(Reached(window, actions), a, session) && !CutOff(window, actions, session, a.worker)
    ensures CanRun(window, actions + [a]) && PossibleRun(window, Seen(window, actions, session, a.worker).events)
    ensures var w, seen := Reached(window, actions).workers[a.worker], Seen(window, actions, session, a.worker);
      var after := Saved(seen, w, a.worker);
      && PossibleRun(window, after.events)
      && Run(window, after.events).entries == Run(window, seen.events).entries + [w.pc.entry]
      && TrimSpace(StoredOf(Reached(window, actions + [a]), session).summary) == Digest(Run(window, after.events).entries)
  {
    var i, sys, seen := a.worker, Reached(window, actions), Seen(window, actions, session, a.worker);
    InterleavingsKeepSerialRuns(window, actions, session);
    assert InView(window, sys, sys.workers[i], Kept(window, actions, session), seen, Unread(window, actions, session, i));
    GroundedUnlessCutOff(window, actions, i);
    LandingKeeps(window, sys, i, a.draw, seen.events);
    SummaryHoldsEveryEntry(window, Saved(seen, sys.workers[i], i).events);
    Then(window, actions, a);
  }

  lemma SaveIsKept(window: nat, actions: seq<Action>, a: Action, session: string)
    requires CanRun(window, actions) && SavesAreUncut(window, actions, session) && CanAct(Reached(window, actions), a)
    requires Lands(Reached(window, actions), a, session) && !CutOff(window, actions, session, a.worker)
    ensures CanRun(window, actions + [a]) && SavesAreUncut(window, actions + [a], session)
    ensures IsKept(window, actions + [a], session)
    ensures Kept(window, actions + [a], session) ==
            Saved(Seen(window, actions, session, a.worker), Reached(window, actions).workers[a.worker], a.worker)
  {
    Then(window, actions, a);
    assert (actions + [a])[..|actions|] == actions;
    InterleavingsKeepSerialRuns(window, actions + [a], session);
  }

  lemma SaveLosesUnread(w: Worker, i: nat, kept: Branch, seen: Branch, unread: seq<nat>)
    requires w.pc.Ready? && i !in kept.savers
    requires unread == [] ==> seen == kept
    requires unread != [] ==> kept.savers != [] && kept.savers[|kept.savers| - 1] !in seen.savers
    ensures Saved(seen, w, i) == Saved(kept, w, i) <==> unread == []
    ensures unread != [] ==> kept.savers[|kept.savers| - 1] !in Saved(seen, w, i).savers
  {
    SavedTellsApart(seen, kept, w, i);
    if unread != [] {
      assert kept.savers[|kept.savers| - 1] in kept.savers;
    }
  }

  lemma SavedTellsApart(seen: Branch, kept: Branch, w: Worker, i: nat)
    requires w.pc.Ready?
    ensures Saved(seen, w, i) == Saved(kept, w, i) <==> seen == kept
  {
    assert Saved(seen, w, i).events[..|seen.events|] == seen.events && Saved(seen, w, i).savers[..|seen.savers|] == seen.savers;
    assert Saved(kept, w, i).events[..|kept.events|] == kept.events && Saved(kept, w, i).savers[..|kept.savers|] == kept.savers;
  }

  /** Since the last clear every save of the session was made with nothing unread. */
  predicate SavesAreCurrent(window: nat, actions: seq<Action>, session: string)
    requires CanRun(window, actions)
  {
    actions == [] ||
    var front, a := actions[..|actions| - 1], actions[|actions| - 1];
    a == Truncate(session) ||
    (SavesAreCurrent(window, front, session)
     && (Lands(Reached(window, front), a, session) ==> Unread(window, front, session, a.worker) == []))
  }

  /** All events of the session since its last clear: appends as they happen, passes and recoveries as they are saved. */
  function Everything(window: nat, actions: seq<Action>, session: string): Branch
    requires CanRun(window, actions)
  {
    if actions == [] then Branch([], [])
    else
      var front, a := actions[..|actions| - 1], actions[|actions| - 1];
      KeptAfter(Reached(window, front), a, session, Everything(window, front, session), Everything(window, front, session))
  }

  /** What a goroutine has in view and what it has not are different saves. */
  ghost predicate AllCounted(window: nat, actions: seq<Action>, session: string)
    requires CanRun(window, actions)
  {
    var sys := Reached(window, actions);
    forall i | 0 <= i < |sys.workers| && Held(sys.workers[i].pc).Some? ::
      |Seen(window, actions, session, i).savers| + |Unread(window, actions, session, i)|
      <= |Everything(window, actions, session).savers|
  }

  lemma OneMoreCounted(window: nat, actions: seq<Action>, session: string)
    requires actions != [] && CanRun(window, actions) && AllCounted(window, actions[..|actions| - 1], session)
    requires |Kept(window, actions[..|actions| - 1], session).savers|
             <= |Everything(window, actions[..|actions| - 1], session).savers|
    ensures AllCounted(window, actions, session)
  {
    var front, a := actions[..|actions| - 1], actions[|actions| - 1];
    var sys, now := Reached(window, front), Reached(window, actions);
    forall i | 0 <= i < |now.workers| && Held(now.workers[i].pc).Some?
      ensures |Seen(window, actions, session, i).savers| + |Unread(window, actions, session, i)|
              <= |Everything(window, actions, session).savers|
    {
      WorkersStay(window, sys, a, i);
      if a.Advance? && a.worker == i && !sys.workers[i].pc.Entered? {
        StepHolds(window, sys, i, a.draw);
      }
    }
  }

  /** Everything is kept exactly when every save was current; otherwise saves are missing for good. */
  lemma {:induction false} EverythingIsKeptExactly(window: nat, actions: seq<Action>, session: string)
    requires CanRun(window, actions) && SavesAreUncut(window, actions, session)
    ensures SavesAreCurrent(window, actions, session) <==> Kept(window, actions, session) == Everything(window, actions, session)
    ensures AllCounted(window, actions, session)
    ensures var kept, all := Kept(window, actions, session), Everything(window, actions, session);
      |kept.savers| <= |all.savers| && (|kept.savers| == |all.savers| ==> SavesAreCurrent(window, actions, session))
  {
    if actions != [] && actions[|actions| - 1] != Truncate(session) {
      var front, a := actions[..|actions| - 1], actions[|actions| - 1];
      EverythingIsKeptExactly(window, front, session);
      OneMoreCounted(window, actions, session);
      var sys := Reached(window, front);
      if Lands(sys, a, session) {
        LoadIsCurrentExactly(window, front, a.worker);
        SavedTellsApart(Kept(window, front, session), Everything(window, front, session), sys.workers[a.worker], a.worker);
      }
    }
  }

  /** So when every save was current, each session is as the serial run of all its events leaves it: no update is lost. */
  lemma InterleavingsAreSerial(window: nat, actions: seq<Action>, session: string)
    requires CanRun(window, actions) && SavesAreUncut(window, actions, session) && SavesAreCurrent(window, actions, session)
    ensures IsRunOf(window, Reached(window, actions), session, Everything(window, actions, session).events)
    ensures var sys, world := Reached(window, actions), Run(window, Everything(window, actions, session).events);
      LogOf(sys, session) == world.log && (session !in sys.clearing ==> SidecarOf(sys, session) == world.state)
  {
    InterleavingsKeepSerialRuns(window, actions, session);
    EverythingIsKeptExactly(window, actions, session);
  }

  lemma StepMovesOn(window: nat, sys: Host, i: nat, draw: Draw, session: string)
    requires CanAct(sys, Advance(i, draw))
    requires var w := sys.workers[i];
      Lands(sys, Advance(i, draw), session) ==>
      Grounded(window, w.kind, LogOf(sys, session), w.pc) && w.pc.state == StoredOf(sys, session)
    ensures StoredOf(sys, session).summarizedThrough <= StoredOf(StepWorker(window, sys, i, draw), session).summarizedThrough
  {
    if !Lands(sys, Advance(i, draw), session) {
      StepKeeps(window, sys, i, draw, session);
    }
  }

  /** In every interleaving only a clear, or a save with something unread, moves the pointer of a session back. */
  lemma PointerOnlyMovesOn(window: nat, actions: seq<Action>, a: Action, session: string)
    requires CanRun(window, actions) && SavesAreUncut(window, actions, session) && CanAct(Reached(window, actions), a)
    requires a != Truncate(session)
    requires Lands(Reached(window, actions), a, session) ==>
               !CutOff(window, actions, session, a.worker) && Unread(window, actions, session, a.worker) == []
    ensures var sys := Reached(window, actions);
      && StoredOf(sys, session).summarizedThrough <= StoredOf(Act(window, sys, a), session).summarizedThrough
      && StoredOf(sys, session).summarizedThrough <= |LogOf(sys, session)|
  {
    var sys := Reached(window, actions);
    InterleavingsKeepSerialRuns(window, actions, session);
    RunsStayConsistent(window, Kept(window, actions, session).events);
    if a.Advance? {
      if Lands(sys, a, session) {
        LoadIsCurrentExactly(window, actions, a.worker);
        GroundedUnlessCutOff(window, actions, a.worker);
      }
      StepMovesOn(window, sys, a.worker, a.draw, session);
    }
  }

  // ----- what the guard is good for -----

  predicate NeverRecovered(actions: seq<Action>, session: string) {
    Overflow(session) !in actions
  }

  predicate NeverCleared(actions: seq<Action>, session: string) {
    Truncate(session) !in actions
  }

  lemma {:induction false} OnlyPasses(window: nat, actions: seq<Action>, session: string, i: nat)
    requires CanRun(window, actions) && NeverRecovered(actions, session)
    requires i < |Reached(window, actions).workers| && Reached(window, actions).workers[i].session == session
    ensures Reached(window, actions).workers[i].kind.Periodic?
  {
    var front, a := actions[..|actions| - 1], actions[|actions| - 1];
    var sys := Reached(window, front);
    assert a in actions && forall b | b in front :: b in actions;
    WorkersStay(window, sys, a, i);
    if i < |sys.workers| {
      OnlyPasses(window, front, session, i);
    }
  }

  /** Among passes only, no other one saves between a load and a save. */
  lemma {:induction false} GuardedLoadsStayCurrent(window: nat, actions: seq<Action>, session: string, i: nat)
    requires CanRun(window, actions) && NeverRecovered(actions, session)
    requires i < |Reached(window, actions).workers| && Reached(window, actions).workers[i].session == session
    requires Held(Reached(window, actions).workers[i].pc).Some?
    ensures Unread(window, actions, session, i) == []
  {
    var front, a := actions[..|actions| - 1], actions[|actions| - 1];
    var sys := Reached(window, front);
    assert forall b | b in front :: b in actions;
    WorkersStay(window, sys, a, i);
    if i < |sys.workers| && !Loads(sys, a, i) {
      if a.Advance? && a.worker == i {
        StepHolds(window, sys, i, a.draw);
      }
      GuardedLoadsStayCurrent(window, front, session, i);
      AtMostOnePass(window, front);
      OnlyPasses(window, front, session, i);
      if Lands(sys, a, session) {
        OnlyPasses(window, front, session, a.worker);
      }
    }
  }

  lemma {:induction false} GuardedSavesAreCurrent(window: nat, actions: seq<Action>, session: string)
    requires CanRun(window, actions) && NeverRecovered(actions, session)
    ensures SavesAreCurrent(window, actions, session)
  {
    if actions != [] {
      var front, a := actions[..|actions| - 1], actions[|actions| - 1];
      assert forall b | b in front :: b in actions;
      GuardedSavesAreCurrent(window, front, session);
      if Lands(Reached(window, front), a, session) {
        GuardedLoadsStayCurrent(window, front, session, a.worker);
      }
    }
  }

  lemma {:induction false} NobodyIsCutOff(window: nat, actions: seq<Action>, session: string)
    requires CanRun(window, actions) && NeverCleared(actions, session)
    ensures session !in Reached(window, actions).clearing && SavesAreUncut(window, actions, session)
    ensures forall i: nat :: !CutOff(window, actions, session, i)
  {
    if actions != [] {
      var front, a := actions[..|actions| - 1], actions[|actions| - 1];
      assert a in actions && forall b | b in front :: b in actions;
      NobodyIsCutOff(window, front, session);
      if a.Advance? {
        StepMoves(window, Reached(window, front), a.worker, a.draw);
      }
    }
  }

  /** Any number of passes over a session, however they interleave with each other and with appends, lose nothing. */
  lemma GuardedInterleavingsAreSerial(window: nat, actions: seq<Action>, session: string)
    requires CanRun(window, actions) && NeverRecovered(actions, session) && NeverCleared(actions, session)
    ensures IsRunOf(window, Reached(window, actions), session, Everything(window, actions, session).events)
    ensures var sys, world := Reached(window, actions), Run(window, Everything(window, actions, session).events);
      LogOf(sys, session) == world.log && SidecarOf(sys, session) == world.state
  {
    NobodyIsCutOff(window, actions, session);
    GuardedSavesAreCurrent(window, actions, session);
    InterleavingsAreSerial(window, actions, session);
  }

  // ----- saves across a clear -----

  /** Whatever happens meanwhile, a result lies behind the state it was computed from and carries its summary on. */
  predicate MovesOn(window: nat, pc: Pc) {
    match pc
    case Asked(s, total, chunk) => chunk != [] && s.summarizedThrough < ChunkEnd(window, s.summarizedThrough, total)
    case Answered(s, total, chunk, entry) =>
      chunk != [] && s.summarizedThrough < ChunkEnd(window, s.summarizedThrough, total) && entry != ""
    case Ready(s, total, chunk, entry, result) =>
      && chunk != [] && s.summarizedThrough < result.summarizedThrough && entry != ""
      && result.summary == MergeSummary(s.summary, entry)
    case _ => true
  }

  lemma {:induction false} ResultsMoveOn(window: nat, actions: seq<Action>, i: nat)
    requires CanRun(window, actions) && i < |Reached(window, actions).workers|
    ensures MovesOn(window, Reached(window, actions).workers[i].pc)
  {
    var front, a := actions[..|actions| - 1], actions[|actions| - 1];
    var sys := Reached(window, front);
    WorkersStay(window, sys, a, i);
    if i < |sys.workers| {
      ResultsMoveOn(window, front, i);
    }
  }

  /** What a goroutine had in its variables is still there. */
  predicate Carries(was: Pc, now: Pc) {
    && Held(was).Some? && Held(now) == Held(was)
    && (!was.Loaded? ==> !now.Loaded? && now.total == was.total)
    && (was.Asked? || was.Answered? || was.Ready? ==> !now.Loaded? && !now.Counted? && now.chunk == was.chunk)
  }

  predicate IsPrefix(window: nat, actions: seq<Action>, k: nat)
    requires k < |actions|
  {
    CanRun(window, actions[..k]) && CanAct(Reached(window, actions[..k]), actions[k])
  }

  /**
    * Step `k` cuts goroutine `i` off: it loads a sidecar that a clear is about to delete, or the log goes while
    * it holds more than an empty state. What it has read by then it has read of the old log, and `now` it still has it.
    */
  predicate IsCutAt(window: nat, actions: seq<Action>, session: string, i: nat, k: nat, now: Pc)
    requires k < |actions| && IsPrefix(window, actions, k)
  {
    var sys, a := Reached(window, actions[..k]), actions[k];
    && i < |sys.workers| && sys.workers[i].session == session
    && if Loads(sys, a, i) then session in sys.clearing && SidecarOf(sys, session) != FRESH && Held(now) == Some(SidecarOf(sys, session))
       else
         && CutsOff(sys, a, session, i) && Carries(sys.workers[i].pc, now)
         && Grounded(window, sys.workers[i].kind, LogOf(sys, session), sys.workers[i].pc)
  }

  lemma StepCarries(window: nat, sys: Host, a: Action, i: nat)
    requires CanAct(sys, a) && i < |sys.workers| && Held(Act(window, sys, a).workers[i].pc).Some? && !Loads(sys, a, i)
    ensures Carries(sys.workers[i].pc, Act(window, sys, a).workers[i].pc)
  {
    WorkersStay(window, sys, a, i);
  }

  /** A goroutine that is cut off and still holds a state has been cut off by one step. */
  lemma {:induction false} CutOffSince(window: nat, actions: seq<Action>, i: nat) returns (k: nat)
    requires CanRun(window, actions) && i < |Reached(window, actions).workers|
    requires var w := Reached(window, actions).workers[i]; Held(w.pc).Some? && CutOff(window, actions, w.session, i)
    ensures k < |actions| && IsPrefix(window, actions, k)
    ensures var w := Reached(window, actions).workers[i]; IsCutAt(window, actions, w.session, i, k, w.pc)
  {
    var front, a := actions[..|actions| - 1], actions[|actions| - 1];
    var sys := Reached(window, front);
    WorkersStay(window, sys, a, i);
    var session := sys.workers[i].session;
    if !Loads(sys, a, i) {
      StepCarries(window, sys, a, i);
      if CutOff(window, front, session, i) {
        k := CutOffSince(window, front, i);
        assert actions[..k] == front[..k] && actions[k] == front[k];
        return;
      }
      GroundedUnlessCutOff(window, front, i);
    }
    k := |front|;
    assert actions[..k] == front;
  }

  /**
    * The other half, for all runs: a save across a clear brings back a pointer above 0 and a summary
    * that continues the old one, or is of a chunk or a count taken from the old log.
    */
  lemma SaveAcrossClear(window: nat, actions: seq<Action>, a: Action, session: string) returns (k: nat)
    requires CanRun(window, actions) && CanAct(Reached(window, actions), a)
    requires Lands(Reached(window, actions), a, session) && CutOff(window, actions, session, a.worker)
    ensures k < |actions| && IsPrefix(window, actions, k)
    ensures var pc := Reached(window, actions).workers[a.worker].pc;
      && IsCutAt(window, actions, session, a.worker, k, pc)
      && var stored := StoredOf(Act(window, Reached(window, actions), a), session);
         && stored.summarizedThrough > pc.state.summarizedThrough
         && pc.chunk != [] && stored.summary == MergeSummary(pc.state.summary, pc.entry)
  {
    k := CutOffSince(window, actions, a.worker);
    ResultsMoveOn(window, actions, a.worker);
  }

  // ----- what the guard does not cover -----

  predicate OnlyAdds(actions: seq<Action>, now: seq<Action>) {
    forall a | a in now :: a in actions || !(a.Truncate? || a.Forget?)
  }

  lemma Do(window: nat, actions: seq<Action>, a: Action) returns (now: seq<Action>)
    requires CanRun(window, actions) && CanAct(Reached(window, actions), a)
    ensures now == actions + [a] && CanRun(window, now) && Reached(window, now) == Act(window, Reached(window, actions), a)
  {
    Then(window, actions, a);
    now := actions + [a];
  }

  /** Where a goroutine that loads now is after five steps, when it has something to summarise. */
  function Result(window: nat, sys: Host, session: string, total: nat, entry: string): Pc
    requires total <= |LogOf(sys, session)|
  {
    var s, log := SidecarOf(sys, session), LogOf(sys, session);
    Ready(s, total, Slice(log, s.summarizedThrough, ChunkEnd(window, s.summarizedThrough, total)), entry,
          Pass(window, log, total, s, Some(entry)).state)
  }

  predicate HasWork(window: nat, sys: Host, session: string, kind: Kind, total: nat) {
    var s := SidecarOf(sys, session);
    IsCount(window, kind, LogOf(sys, session), s, total) && s.summarizedThrough < ChunkEnd(window, s.summarizedThrough, total)
  }

  lemma Works(window: nat, actions: seq<Action>, sys: Host, i: nat, pc: Pc, draw: Draw) returns (now: seq<Action>)
    requires CanRun(window, actions) && i < |sys.workers| && Reached(window, actions) == Moved(sys, i, pc)
    requires Held(pc).Some? && !pc.Ready? && draw.total <= |LogOf(sys, sys.workers[i].session)|
    ensures CanRun(window, now) && OnlyAdds(actions, now)
    ensures var w := sys.workers[i];
      Reached(window, now) == Moved(sys, i, Worked(window, LogOf(sys, w.session), w.kind, pc, draw))
  {
    now := Do(window, actions, Advance(i, draw));
    assert forall next :: Moved(Moved(sys, i, pc), i, next).workers == Moved(sys, i, next).workers;
  }

  /** The five steps, on the goroutine's own variables. */
  lemma WorksOut(window: nat, kind: Kind, log: seq<Message>, s: State, total: nat, entry: string)
    requires IsCount(window, kind, log, s, total) && s.summarizedThrough < ChunkEnd(window, s.summarizedThrough, total)
    requires entry != ""
    ensures var draw := Draw(total, Some(entry), true);
      var chunk := Slice(log, s.summarizedThrough, ChunkEnd(window, s.summarizedThrough, total));
      && Worked(window, log, kind, Loaded(s), draw) == Counted(s, total)
      && Worked(window, log, kind, Counted(s, total), draw) == Asked(s, total, chunk)
      && Worked(window, log, kind, Asked(s, total, chunk), draw) == Answered(s, total, chunk, entry)
      && Worked(window, log, kind, Answered(s, total, chunk, entry), draw) ==
         Ready(s, total, chunk, entry, Pass(window, log, total, s, Some(entry)).state)
  {
    BoundaryOfWholeLog(log, ChunkEnd(window, s.summarizedThrough, total), total);
  }

  lemma Computes(window: nat, actions: seq<Action>, i: nat, total: nat, entry: string) returns (now: seq<Action>)
    requires CanRun(window, actions) && i < |Reached(window, actions).workers| && entry != ""
    requires var sys := Reached(window, actions);
      sys.workers[i].pc.Entered? && HasWork(window, sys, sys.workers[i].session, sys.workers[i].kind, total)
    ensures CanRun(window, now) && OnlyAdds(actions, now)
    ensures var sys := Reached(window, actions);
      Reached(window, now) == Moved(sys, i, Result(window, sys, sys.workers[i].session, total, entry))
  {
    var sys, draw := Reached(window, actions), Draw(total, Some(entry), true);
    var w := sys.workers[i];
    WorksOut(window, w.kind, LogOf(sys, w.session), SidecarOf(sys, w.session), total, entry);
    var s, log := SidecarOf(sys, w.session), LogOf(sys, w.session);
    var chunk := Slice(log, s.summarizedThrough, ChunkEnd(window, s.summarizedThrough, total));
    now := Do(window, actions, Advance(i, draw));
    now := Works(window, now, sys, i, Loaded(s), draw);
    now := Works(window, now, sys, i, Counted(s, total), draw);
    now := Works(window, now, sys, i, Asked(s, total, chunk), draw);
    now := Works(window, now, sys, i, Answered(s, total, chunk, entry), draw);
  }

  /** A new pass or recovery, up to its save. */
  lemma Begins(window: nat, actions: seq<Action>, session: string, kind: Kind, total: nat, entry: string)
    returns (now: seq<Action>)
    requires CanRun(window, actions) && entry != "" && HasWork(window, Reached(window, actions), session, kind, total)
    requires kind.Periodic? ==> session !in Reached(window, actions).consolidating
    ensures CanRun(window, now) && OnlyAdds(actions, now)
    ensures var sys := Reached(window, actions);
      Reached(window, now) == sys.(workers := sys.workers + [Worker(session, kind, Result(window, sys, session, total, entry))],
                                   consolidating := sys.consolidating + if kind.Periodic? then {session} else {})
  {
    var sys := Reached(window, actions);
    var i := |sys.workers|;
    now := Do(window, actions, if kind.Periodic? then Call(session) else Overflow(session));
    now := Do(window, now, Advance(i, Draw(0, None, true)));
    var entered := sys.workers + [Worker(session, kind, Entered)];
    var guarded := sys.consolidating + if kind.Periodic? then {session} else {};
    assert Reached(window, now) == sys.(workers := entered, consolidating := guarded);
    now := Computes(window, now, i, total, entry);
  }

  lemma Finishes(window: nat, actions: seq<Action>, i: nat) returns (now: seq<Action>)
    requires CanRun(window, actions) && i < |Reached(window, actions).workers|
    requires Reached(window, actions).workers[i].pc.Ready?
    ensures CanRun(window, now) && OnlyAdds(actions, now)
    ensures var sys := Reached(window, actions);
      var w := sys.workers[i];
      var saved := sys.(sidecars := sys.sidecars[w.session := w.pc.result]);
      Reached(window, now) ==
      Moved(if w.kind.Periodic? then saved.(consolidating := sys.consolidating - {w.session}) else saved, i, Done)
  {
    var sys := Reached(window, actions);
    var w := sys.workers[i];
    var saved := sys.(sidecars := sys.sidecars[w.session := w.pc.result]);
    now := Do(window, actions, Advance(i, Draw(0, None, true)));
    assert Reached(window, now) == Moved(saved, i, Leaving);
    now := Do(window, now, Advance(i, Draw(0, None, true)));
    assert Moved(Moved(saved, i, Leaving), i, Done).workers == Moved(saved, i, Done).workers;
  }

  /** A whole pass or recovery, with its save. */
  lemma Completes(window: nat, actions: seq<Action>, session: string, kind: Kind, total: nat, entry: string)
    returns (now: seq<Action>)
    requires CanRun(window, actions) && entry != "" && HasWork(window, Reached(window, actions), session, kind, total)
    requires kind.Periodic? ==> session !in Reached(window, actions).consolidating
    ensures CanRun(window, now) && OnlyAdds(actions, now)
    ensures var sys := Reached(window, actions);
      Reached(window, now) == sys.(workers := sys.workers + [Worker(session, kind, Done)],
                                   sidecars := sys.sidecars[session := Result(window, sys, session, total, entry).result])
  {
    var sys := Reached(window, actions);
    now := Begins(window, actions, session, kind, total, entry);
    now := Finishes(window, now, |sys.workers|);
    assert Reached(window, now).workers == sys.workers + [Worker(session, kind, Done)];
    assert Reached(window, now).consolidating == sys.consolidating;
  }

  /** The result of a goroutine that takes the whole count in one chunk. */
  lemma ResultOfAll(window: nat, sys: Host, session: string, total: nat, entry: string)
    requires total <= |LogOf(sys, session)| && total <= SidecarOf(sys, session).summarizedThrough + window
    requires SidecarOf(sys, session).summarizedThrough < total && entry != ""
    ensures Result(window, sys, session, total, entry).result.summarizedThrough == total
  {
  }

  lemma Writes(window: nat, k: string, messages: seq<Message>) returns (actions: seq<Action>)
    ensures CanRun(window, actions) && NeverCleared(actions, k)
    ensures Reached(window, actions) == Host(map[k := messages], map[], {}, {}, [])
  {
    assert [] + messages == messages;
    actions := Do(window, [], Write(k, messages));
  }

  /** A save with something unread: another goroutine of the session has saved since this one loaded. */
  ghost predicate IsStaleSave(window: nat, actions: seq<Action>, save: Action, session: string)
    requires CanRun(window, actions) && CanAct(Reached(window, actions), save)
  {
    && SavesAreUncut(window, actions, session) && Lands(Reached(window, actions), save, session)
    && !CutOff(window, actions, session, save.worker) && Unread(window, actions, session, save.worker) != []
  }

  lemma IsStale(window: nat, actions: seq<Action>, session: string)
    requires CanRun(window, actions) && NeverCleared(actions, session) && |Reached(window, actions).workers| > 0
    requires var w := Reached(window, actions).workers[0];
      w.session == session && w.pc.Ready? && w.pc.state != StoredOf(Reached(window, actions), session)
    ensures IsStaleSave(window, actions, Advance(0, Draw(0, None, true)), session)
  {
    NobodyIsCutOff(window, actions, session);
    LoadIsCurrentExactly(window, actions, 0);
  }

  /** A recovery that overtakes an unsaved pass is undone by the save of the pass, and the pointer moves back. */
  lemma UnguardedRecoveryIsUndone(k: string, u: Message) returns (actions: seq<Action>, save: Action)
    ensures CanRun(2, actions) && CanAct(Reached(2, actions), save) && IsStaleSave(2, actions, save, k)
    ensures StoredOf(Reached(2, actions), k).summarizedThrough == 4
    ensures StoredOf(Act(2, Reached(2, actions), save), k).summarizedThrough == 2
  {
    actions := StaleSaveOf(k, u, Periodic, Reactive);
    save := Advance(0, Draw(0, None, true));
  }

  /** A recovery that is overtaken by whole passes undoes them with its own save, and the pointer moves back. */
  lemma GuardedPassesAreUndone(k: string, u: Message) returns (actions: seq<Action>, save: Action)
    ensures CanRun(2, actions) && CanAct(Reached(2, actions), save) && IsStaleSave(2, actions, save, k)
    ensures Reached(2, actions).workers[save.worker].kind.Reactive?
    ensures StoredOf(Reached(2, actions), k).summarizedThrough == 4
    ensures StoredOf(Act(2, Reached(2, actions), save), k).summarizedThrough == 2
  {
    actions := StaleSaveOf(k, u, Reactive, Periodic);
    save := Advance(0, Draw(0, None, true));
  }

  /** One goroutine is about to save, two others have run through since. */
  lemma StaleSaveOf(k: string, u: Message, slow: Kind, fast: Kind) returns (actions: seq<Action>)
    requires slow != fast
    ensures CanRun(2, actions) && NeverCleared(actions, k)
    ensures var sys, save := Reached(2, actions), Advance(0, Draw(0, None, true));
      && CanAct(sys, save) && IsStaleSave(2, actions, save, k) && sys.workers[0].kind == slow
      && StoredOf(sys, k).summarizedThrough == 4 && StoredOf(Act(2, sys, save), k).summarizedThrough == 2
  {
    actions := Writes(2, k, [u, u, u, u]);
    ResultOfAll(2, Reached(2, actions), k, 2, "a");
    actions := Begins(2, actions, k, slow, 2, "a");
    actions := TwoRunThrough(actions, k, fast);
    IsStale(2, actions, k);
  }

  lemma TwoRunThrough(actions: seq<Action>, k: string, kind: Kind) returns (now: seq<Action>)
    requires CanRun(2, actions) && |LogOf(Reached(2, actions), k)| == 4 && SidecarOf(Reached(2, actions), k) == FRESH
    requires kind.Periodic? ==> k !in Reached(2, actions).consolidating
    ensures CanRun(2, now) && OnlyAdds(actions, now)
    ensures var sys, done := Reached(2, actions), Reached(2, now);
      && done.logs == sys.logs && done.clearing == sys.clearing && sys.workers <= done.workers
      && SidecarOf(done, k).summarizedThrough == 4
  {
    ResultOfAll(2, Reached(2, actions), k, 2, "b");
    now := Completes(2, actions, k, kind, 2, "b");
    ResultOfAll(2, Reached(2, now), k, 4, "c");
    now := Completes(2, now, k, kind, 4, "c");
  }

  lemma Clears(window: nat, actions: seq<Action>, k: string) returns (now: seq<Action>)
    requires CanRun(window, actions) && k !in Reached(window, actions).clearing
    ensures CanRun(window, now)
    ensures var sys := Reached(window, actions);
      Reached(window, now) == sys.(logs := sys.logs - {k}, sidecars := sys.sidecars - {k})
  {
    now := Do(window, actions, Truncate(k));
    now := Do(window, now, Forget(k));
  }

  /** A save across a clear: the log is empty, and the pointer lies beyond it. */
  lemma UnguardedClearIsUndone(k: string, u: Message) returns (actions: seq<Action>)
    ensures CanRun(2, actions) && k !in Reached(2, actions).clearing
    ensures LogOf(Reached(2, actions), k) == [] && StoredOf(Reached(2, actions), k).summarizedThrough == 2
  {
    actions := Writes(2, k, [u, u]);
    ResultOfAll(2, Reached(2, actions), k, 2, "a");
    actions := Begins(2, actions, k, Periodic, 2, "a");
    actions := Clears(2, actions, k);
    actions := Finishes(2, actions, 0);
  }
}
