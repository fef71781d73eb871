/** The rolling-summary policy: a sidecar pointer that moves over the append-only log chunk by chunk. */
module Consolidation {
  import opened Prelude
  import opened Messages
  import opened Repair
  import opened Blocks
  import opened SessionLog

  const DEFAULT_WINDOW := 50
  const PREAMBLE := "## Previous Session Summary\n"

  datatype State = State(summarizedThrough: nat, summary: string)

  const FRESH := State(0, "")

  /** The sidecar contents in memory, updated in place by a pass. */
  class ConsolidationState {
    var summarizedThrough: nat
    var summary: string

    constructor (s: State)
      ensures Value() == s
    {
      summarizedThrough, summary := s.summarizedThrough, s.summary;
    }

    function Value(): State
      reads this
    {
      State(summarizedThrough, summary)
    }
  }

  // ----- one pass, as a function -----

  function MergeSummary(existing: string, entry: string): string {
    var head := TrimSpace(existing);
    if head == "" then TrimSpace(entry) else head + "\n\n" + TrimSpace(entry)
  }

  /** The least cut at or after `boundary` that is `total` or a safe cut below it. */
  function RepairedBoundary(log: seq<Message>, boundary: nat, total: nat): nat
    requires boundary <= total <= |log|
  {
    NextSafeCut(log[..total], boundary)
  }

  function ChunkEnd(window: nat, from: nat, total: nat): nat {
    if from + window > total then total else from + window
  }

  datatype Passed = Passed(state: State, advanced: bool)

  /** One summarising pass; `entry` is the summariser's answer, None when it failed. */
  function Pass(window: nat, log: seq<Message>, total: nat, s: State, entry: Option<string>): Passed
    requires total <= |log|
  {
    var end := ChunkEnd(window, s.summarizedThrough, total);
    if end <= s.summarizedThrough || entry.GetOr("") == "" then Passed(s, false)
    else Passed(State(RepairedBoundary(log, end, total), MergeSummary(s.summary, entry.value)), true)
  }

  /** What the provider is shown: the summary, if any, and the log from the pointer on. */
  function Shown(log: seq<Message>, s: State): seq<Message> {
    Preamble(s) + (if s.summarizedThrough <= |log| then log[s.summarizedThrough..] else [])
  }

  function Preamble(s: State): seq<Message> {
    if s.summary == "" then []
    else [Message(System, Text(PREAMBLE + s.summary), None, None, None, map[])]
  }

  /** First a system message that ends in the summary, unless that is empty, then the log from the pointer on. */
  lemma SummaryIsShown(log: seq<Message>, s: State)
    ensures var view := Shown(log, s);
      var tail := if s.summarizedThrough <= |log| then log[s.summarizedThrough..] else [];
      if s.summary == "" then view == tail
      else view != [] && view[1..] == tail
           && view[0] == Message(System, Text("## Previous Session Summary\n" + s.summary), None, None, None, map[])
  {
    if s.summary != "" {
      var tail := if s.summarizedThrough <= |log| then log[s.summarizedThrough..] else [];
      assert Shown(log, s) == Preamble(s) + tail && |Preamble(s)| == 1;
    }
  }

  /** Exactly when a pass changes what is stored, and to what pointer. */
  lemma PassesExactly(window: nat, log: seq<Message>, total: nat, s: State, entry: Option<string>, saved: bool)
    requires total <= |log|
    ensures Recovered(window, log, total, s, entry, saved) != s <==>
            window > 0 && s.summarizedThrough < total && entry.GetOr("") != "" && saved
    ensures Maintained(window, log, total, s, entry, saved) != s <==>
            total - s.summarizedThrough >= window > 0 && entry.GetOr("") != "" && saved
    ensures Maintained(window, log, total, s, entry, saved) != s ==>
            Maintained(window, log, total, s, entry, saved) == Recovered(window, log, total, s, entry, saved)
    ensures var p, q := s.summarizedThrough, Recovered(window, log, total, s, entry, saved).summarizedThrough;
      q != p ==>
      && (if total - p < window then total else p + window) <= q <= total
      && (q < total ==> !log[q].role.Tool? && !(q > 0 && log[q - 1].role.Assistant? && log[q - 1].calls.GetOr([]) != []))
      && forall i | (if total - p < window then total else p + window) <= i < q ::
           log[i].role.Tool? || (i > 0 && log[i - 1].role.Assistant? && log[i - 1].calls.GetOr([]) != [])
  {
    var p := s.summarizedThrough;
    var end := ChunkEnd(window, p, total);
    if p < end {
      var q := RepairedBoundary(log, end, total);
      forall i | end <= i < q
        ensures log[i].role.Tool? || (i > 0 && log[i - 1].role.Assistant? && log[i - 1].calls.GetOr([]) != [])
      {
        assert !SafeCut(log[..total], i);
      }
    }
  }

  // ----- the policy -----

  class SummarizingPolicy {
    const window: nat
    var sidecar: Option<State>

    constructor (memoryWindow: int)
      ensures window > 0 && sidecar == None
      ensures memoryWindow > 0 ==> window == memoryWindow
    {
      window := if memoryWindow <= 0 then DEFAULT_WINDOW else memoryWindow;
      sidecar := None;
    }

    function Stored(): State
      reads this`sidecar
    {
      sidecar.GetOr(FRESH)
    }

    method LoadState() returns (state: ConsolidationState)
      ensures fresh(state) && state.Value() == Stored()
    {
      state := new ConsolidationState(sidecar.GetOr(FRESH));
    }

    method ReadChunk(reader: SessionFile, ghost log: seq<Message>, start: nat, end: nat) returns (chunk: seq<Message>)
      requires Serves(reader, log) && start < end <= |log|
      ensures chunk == log[start..end]
    {
      chunk := reader.Stream(start, end);
      ServedRange(reader, log, start, end);
    }

    method ReadOne(reader: SessionFile, ghost log: seq<Message>, index: nat) returns (m: Option<Message>)
      requires Serves(reader, log) && index < |log|
      ensures m == Some(log[index])
    {
      m := reader.At(index);
      ServedMessage(reader, log, index);
    }

    method RepairBoundary(reader: SessionFile, ghost log: seq<Message>, boundary: nat, total: nat) returns (cut: nat)
      requires Serves(reader, log) && total <= |log|
      ensures boundary <= total ==> cut == RepairedBoundary(log, boundary, total)
      ensures boundary >= total ==> cut == boundary
    {
      if boundary >= total {
        return boundary;
      }
      var prev: Option<Message> := None;
      if boundary > 0 {
        prev := ReadOne(reader, log, boundary - 1);
      }
      var items := ReadChunk(reader, log, boundary, total);
      cut := boundary;
      for k := 0 to |items|
        invariant cut == boundary + k
        invariant cut > 0 ==> prev == Some(log[cut - 1])
        invariant cut == 0 ==> prev == None
        invariant RepairedBoundary(log, boundary, total) == RepairedBoundary(log, cut, total)
      {
        var curr := items[k];
        assert curr == log[cut];
        if curr.role.Tool? || (prev.Some? && DeclaresCalls(prev.value)) {
          cut := cut + 1;
          prev := Some(curr);
        } else {
          break;
        }
      }
    }

    method SummarizeOneChunk(reader: SessionFile, ghost log: seq<Message>, state: ConsolidationState, total: nat,
                             entry: Option<string>)
      returns (advanced: bool, chunk: seq<Message>)
      requires Serves(reader, log) && total <= |log|
      modifies state
      ensures Passed(state.Value(), advanced) == Pass(window, log, total, old(state.Value()), entry)
      ensures advanced ==>
                var from := old(state.summarizedThrough);
                from < total && chunk == log[from..if total - from < window then total else from + window]
      ensures advanced <==> window > 0 && old(state.summarizedThrough) < total && entry.GetOr("") != ""
      ensures !advanced ==> state.Value() == old(state.Value())
    {
      chunk := [];
      ghost var s := state.Value();
      var from := state.summarizedThrough;
      var chunkEndTarget := from + window;
      if chunkEndTarget > total {
        chunkEndTarget := total;
      }
      if chunkEndTarget <= from {
        return false, chunk;
      }
      chunk := ReadChunk(reader, log, from, chunkEndTarget);
      if entry.None? || entry.value == "" {
        return false, chunk;
      }
      var cut := RepairBoundary(reader, log, chunkEndTarget, total);
      var merged := MergeSummary(state.summary, entry.value);
      assert Pass(window, log, total, s, entry) == Passed(State(cut, merged), true);
      state.summarizedThrough := cut;
      state.summary := merged;
      return true, chunk;
    }

    /** At most one pass, and only when a whole window is unconsolidated. `saved` tells whether the sidecar write succeeds. */
    method OnTurnComplete(reader: SessionFile, ghost log: seq<Message>, entry: Option<string>, saved: bool)
      returns (ok: bool, ghost total: nat)
      requires Serves(reader, log)
      modifies this`sidecar
      ensures total <= |log| && total == if reader.cachedTotal.Some? then reader.cachedTotal.value else |log|
      ensures Stored() == Maintained(window, log, total, old(Stored()), entry, saved)
      ensures Stored() != old(Stored()) <==>
                && total - old(Stored().summarizedThrough) >= window > 0
                && entry.GetOr("") != "" && saved
    {
      var state := LoadState();
      var count := reader.Count();
      ServedCount(reader, log);
      total := count;
      PassesExactly(window, log, total, old(Stored()), entry, saved);
      if count - state.summarizedThrough < window {
        return true, total;
      }
      var advanced, chunk := SummarizeOneChunk(reader, log, state, count, entry);
      ok := true;
      if advanced {
        if saved {
          sidecar := Some(state.Value());
        }
        ok := saved;
      }
    }

    /** One pass whatever the backlog; true when the pointer moved and was saved. */
    method RecoverFromOverflow(reader: SessionFile, ghost log: seq<Message>, entry: Option<string>, saved: bool)
      returns (advanced: bool, ok: bool, ghost total: nat)
      requires Serves(reader, log)
      modifies this`sidecar
      ensures total <= |log| && total == if reader.cachedTotal.Some? then reader.cachedTotal.value else |log|
      ensures Stored() == Recovered(window, log, total, old(Stored()), entry, saved)
      ensures advanced <==> saved && Pass(window, log, total, old(Stored()), entry).advanced
      ensures ok <==> (saved || !Pass(window, log, total, old(Stored()), entry).advanced)
    {
      var state := LoadState();
      var count := reader.Count();
      ServedCount(reader, log);
      total := count;
      var chunk;
      advanced, chunk := SummarizeOneChunk(reader, log, state, count, entry);
      ok := true;
      if advanced {
        if !saved {
          return false, false, total;
        }
        sidecar := Some(state.Value());
      }
    }

    method Transform(reader: SessionFile, ghost log: seq<Message>) returns (view: seq<Message>)
      requires Serves(reader, log)
      ensures |log| <= TAIL ==> view == Shown(log, Stored())
      ensures |log| <= TAIL ==>
                var s := Stored();
                var tail := if s.summarizedThrough <= |log| then log[s.summarizedThrough..] else [];
                if s.summary == "" then view == tail
                else view != [] && view[1..] == tail && view[0].role == System && view[0].content.Text?
                     && view[0].content.text == "## Previous Session Summary\n" + s.summary
    {
      var state := LoadState();
      view := [];
      if state.summary != "" {
        view := [Message(System, Text(PREAMBLE + state.summary), None, None, None, map[])];
      }
      var tail := reader.Stream(state.summarizedThrough, -1);
      if |log| <= TAIL {
        ServedTail(reader, log, state.summarizedThrough);
      }
      view := view + tail;
      if |log| <= TAIL {
        SummaryIsShown(log, Stored());
      }
    }

    /** The sidecar goes away with the session's messages. */
    method DeleteState()
      modifies this`sidecar
      ensures sidecar == None
    {
      sidecar := None;
    }
  }

  function Maintained(window: nat, log: seq<Message>, total: nat, s: State, entry: Option<string>, saved: bool): State
    requires total <= |log|
  {
    if total - s.summarizedThrough < window then s else Recovered(window, log, total, s, entry, saved)
  }

  function Recovered(window: nat, log: seq<Message>, total: nat, s: State, entry: Option<string>, saved: bool): State
    requires total <= |log|
  {
    if saved then Pass(window, log, total, s, entry).state else s
  }

  // ----- reading a served log -----

  lemma ServedRange(reader: SessionFile, log: seq<Message>, start: nat, end: nat)
    requires Serves(reader, log) && start <= end <= |log| && start < |log|
    ensures reader.lines.Some? && Range(reader.lines.value, start, end) == log[start..end]
  {
    WrittenFileIsTheSequence(reader.lines, log, start, end);
  }

  lemma ServedMessage(reader: SessionFile, log: seq<Message>, index: nat)
    requires Serves(reader, log) && index < |log|
    ensures reader.lines.Some? && index < |Records(reader.lines.value)|
    ensures Records(reader.lines.value)[index] == MessageLine(log[index])
  {
    HeldRecords(reader.lines.value, log);
  }

  lemma ServedTail(reader: SessionFile, log: seq<Message>, start: nat)
    requires Serves(reader, log) && |log| <= TAIL
    ensures (if reader.lines.Some? then Range(reader.lines.value, start, TAIL) else []) ==
            if start <= |log| then log[start..] else []
  {
    if start <= |log| {
      WrittenFileIsTheSequence(reader.lines, log, start, |log|);
    } else if reader.lines.Some? {
      HeldRecords(reader.lines.value, log);
      assert Window(AsLines(log), start, TAIL) == [];
    }
  }

  lemma ServedCount(reader: SessionFile, log: seq<Message>)
    requires Serves(reader, log)
    ensures (if reader.lines.Some? then Scanned(reader.lines.value) else 0) == |log|
  {
    WrittenFileIsTheSequence(reader.lines, log, 0, 0);
  }
}
