/** Whole runs of the consolidated log: appends, periodic passes, recovery passes and clears in any order. */
module ConsolidationRuns {
  import opened Prelude
  import opened Messages
  import opened Repair
  import opened Blocks
  import opened Consolidation

  /** One successful pass: [start, chunkEnd) was summarised and [chunkEnd, boundary) was skipped over. */
  datatype Span = Span(start: nat, chunkEnd: nat, boundary: nat)

  datatype World = World(log: seq<Message>, state: State, spans: seq<Span>, entries: seq<string>)

  const EMPTY := World([], FRESH, [], [])

  datatype Event =
    | Append(messages: seq<Message>)
    | TurnComplete(total: nat, entry: Option<string>, saved: bool)
    | Recover(total: nat, entry: Option<string>, saved: bool)
    | Clear

  /** The count a pass works with may lag behind the log, never be ahead of it. */
  predicate Possible(s: World, e: Event) {
    match e
    case TurnComplete(total, _, _) => total <= |s.log|
    case Recover(total, _, _) => total <= |s.log|
    case _ => true
  }

  function RecoverStep(window: nat, s: World, total: nat, entry: Option<string>, saved: bool): World
    requires total <= |s.log|
  {
    var result := Recovered(window, s.log, total, s.state, entry, saved);
    if saved && Pass(window, s.log, total, s.state, entry).advanced then
      var p := s.state.summarizedThrough;
      s.(state := result,
         spans := s.spans + [Span(p, ChunkEnd(window, p, total), result.summarizedThrough)],
         entries := s.entries + [entry.value])
    else s
  }

  function Step(window: nat, s: World, e: Event): World
    requires Possible(s, e)
  {
    match e
    case Append(messages) => s.(log := s.log + messages)
    case TurnComplete(total, entry, saved) =>
      if total - s.state.summarizedThrough < window then s else RecoverStep(window, s, total, entry, saved)
    case Recover(total, entry, saved) => RecoverStep(window, s, total, entry, saved)
    case Clear => EMPTY
  }

  predicate PossibleRun(window: nat, events: seq<Event>)
    decreases |events|, 0
  {
    events == [] ||
    var front := events[..|events| - 1];
    PossibleRun(window, front) && Possible(Run(window, front), events[|events| - 1])
  }

  /** The world after a run from the empty log. */
  function Run(window: nat, events: seq<Event>): World
    requires PossibleRun(window, events)
    decreases |events|, 1
  {
    if events == [] then EMPTY
    else Step(window, Run(window, events[..|events| - 1]), events[|events| - 1])
  }

  /** The state part of a step is what the policy's methods store. */
  lemma StepStoresWhatThePolicyStores(window: nat, s: World, total: nat, entry: Option<string>, saved: bool)
    requires total <= |s.log|
    ensures Step(window, s, TurnComplete(total, entry, saved)).state == Maintained(window, s.log, total, s.state, entry, saved)
    ensures Step(window, s, Recover(total, entry, saved)).state == Recovered(window, s.log, total, s.state, entry, saved)
  {
  }

  // ----- partition of the log -----

  /** A position that only a boundary repair can skip: a tool result, or directly after an assistant with calls. */
  predicate Skippable(log: seq<Message>, i: nat)
    requires i < |log|
  {
    log[i].role.Tool? || (i > 0 && DeclaresCalls(log[i - 1]))
  }

  function EndOf(spans: seq<Span>): nat {
    if spans == [] then 0 else spans[|spans| - 1].boundary
  }

  /** The spans lie end to end from 0 to the pointer, and what they skip is skippable. */
  predicate Tiled(log: seq<Message>, spans: seq<Span>) {
    spans == [] ||
    var last := spans[|spans| - 1];
    && Tiled(log, spans[..|spans| - 1])
    && last.start == EndOf(spans[..|spans| - 1])
    && last.start < last.chunkEnd <= last.boundary <= |log|
    && forall i | last.chunkEnd <= i < last.boundary :: Skippable(log, i)
  }

  predicate Consistent(s: World) {
    && Tiled(s.log, s.spans)
    && s.state.summarizedThrough == EndOf(s.spans) <= |s.log|
  }

  lemma {:induction false} TiledStaysTiled(log: seq<Message>, more: seq<Message>, spans: seq<Span>)
    requires Tiled(log, spans)
    ensures Tiled(log + more, spans)
  {
    if spans != [] {
      TiledStaysTiled(log, more, spans[..|spans| - 1]);
      var last := spans[|spans| - 1];
      forall i | last.chunkEnd <= i < last.boundary ensures Skippable(log + more, i) {
        assert Skippable(log, i);
      }
    }
  }

  lemma RecoverStepTiles(window: nat, s: World, total: nat, entry: Option<string>, saved: bool)
    requires Consistent(s) && total <= |s.log|
    ensures Consistent(RecoverStep(window, s, total, entry, saved))
  {
    if saved && Pass(window, s.log, total, s.state, entry).advanced {
      var p := s.state.summarizedThrough;
      var end := ChunkEnd(window, p, total);
      var cut := RepairedBoundary(s.log, end, total);
      forall i | end <= i < cut ensures Skippable(s.log, i) {
        GapIsSkippable(s.log, end, total, i);
      }
      TiledExtends(s.log, s.spans, Span(p, end, cut));
    }
  }

  lemma GapIsSkippable(log: seq<Message>, end: nat, total: nat, i: nat)
    requires end <= total <= |log| && end <= i < RepairedBoundary(log, end, total)
    ensures i < |log| && Skippable(log, i)
  {
    assert !SafeCut(log[..total], i);
  }

  lemma TiledExtends(log: seq<Message>, spans: seq<Span>, last: Span)
    requires Tiled(log, spans) && last.start == EndOf(spans) && last.start < last.chunkEnd <= last.boundary <= |log|
    requires forall i | last.chunkEnd <= i < last.boundary :: Skippable(log, i)
    ensures Tiled(log, spans + [last]) && EndOf(spans + [last]) == last.boundary
  {
    assert (spans + [last])[..|spans|] == spans;
  }

  lemma {:induction false} RunsStayConsistent(window: nat, events: seq<Event>)
    requires PossibleRun(window, events)
    ensures Consistent(Run(window, events))
  {
    if events != [] {
      var front, e := events[..|events| - 1], events[|events| - 1];
      RunsStayConsistent(window, front);
      var s := Run(window, front);
      match e {
        case Append(messages) => TiledStaysTiled(s.log, messages, s.spans);
        case TurnComplete(total, entry, saved) => RecoverStepTiles(window, s, total, entry, saved);
        case Recover(total, entry, saved) => RecoverStepTiles(window, s, total, entry, saved);
        case Clear =>
      }
    }
  }

  /** How many chunks summarised position `i`, and how many repairs skipped it. */
  function Summaries(spans: seq<Span>, i: nat): nat {
    if spans == [] then 0
    else
      var last := spans[|spans| - 1];
      Summaries(spans[..|spans| - 1], i) + (if last.start <= i < last.chunkEnd then 1 else 0)
  }

  function Skips(spans: seq<Span>, i: nat): nat {
    if spans == [] then 0
    else
      var last := spans[|spans| - 1];
      Skips(spans[..|spans| - 1], i) + (if last.chunkEnd <= i < last.boundary then 1 else 0)
  }

  lemma {:induction false} TilesCoverOnce(log: seq<Message>, spans: seq<Span>, i: nat)
    requires Tiled(log, spans)
    ensures EndOf(spans) <= |log|
    ensures Summaries(spans, i) + Skips(spans, i) == if i < EndOf(spans) then 1 else 0
    ensures i < EndOf(spans) && Skips(spans, i) == 1 ==> Skippable(log, i)
  {
    if spans != [] {
      TilesCoverOnce(log, spans[..|spans| - 1], i);
    }
  }

  /** After any run every position of the log is in exactly one of: one summarised chunk, one repair gap, the shown tail. */
  lemma LogIsPartitioned(window: nat, events: seq<Event>, i: nat)
    requires PossibleRun(window, events) && i < |Run(window, events).log|
    ensures var s := Run(window, events);
      && s.state.summarizedThrough <= |s.log|
      && Summaries(s.spans, i) + Skips(s.spans, i) + (if s.state.summarizedThrough <= i then 1 else 0) == 1
      && (Skips(s.spans, i) == 1 ==> Skippable(s.log, i))
  {
    RunsStayConsistent(window, events);
    var s := Run(window, events);
    TilesCoverOnce(s.log, s.spans, i);
  }

  // ----- progress -----

  /** Between clears the pointer never moves back, and a pass that succeeds takes at least min(window, remaining). */
  lemma PointerAdvances(window: nat, s: World, e: Event)
    requires Possible(s, e) && !e.Clear?
    ensures var p, q := s.state.summarizedThrough, Step(window, s, e).state.summarizedThrough;
      && p <= q
      && (|Step(window, s, e).spans| > |s.spans| ==>
            var total := if e.Recover? || e.TurnComplete? then e.total else |s.log|;
            p < total && q >= p + (if window < total - p then window else total - p)
            && Step(window, s, e).spans == s.spans + [Span(p, if total - p < window then total else p + window, q)])
      && (|Step(window, s, e).spans| == |s.spans| ==> q == p)
  {
  }

  /** Recovery attempts on a log that does not grow meanwhile. */
  predicate RecoveriesOnly(log: seq<Message>, events: seq<Event>) {
    forall e | e in events :: e.Recover? && e.total == |log|
  }

  function After(window: nat, s: World, events: seq<Event>): (r: World)
    requires RecoveriesOnly(s.log, events)
    ensures r.log == s.log
  {
    if events == [] then s else Step(window, After(window, s, events[..|events| - 1]), events[|events| - 1])
  }

  /** From s to t the successes each took a window, unless the log ran out. */
  predicate WindowPerSuccess(window: nat, s: World, t: World) {
    var successes := |t.spans| - |s.spans|;
    && successes >= 0
    && (t.state.summarizedThrough >= |s.log| || t.state.summarizedThrough >= s.state.summarizedThrough + successes * window)
    && (successes > 0 ==> (successes - 1) * window < |s.log| - s.state.summarizedThrough)
  }

  lemma RecoverKeepsRate(window: nat, s: World, t: World, e: Event)
    requires window > 0 && WindowPerSuccess(window, s, t) && t.log == s.log && e.Recover? && e.total == |s.log|
    ensures WindowPerSuccess(window, s, Step(window, t, e))
  {
    var u := Step(window, t, e);
    PointerAdvances(window, t, e);
    var successes := |t.spans| - |s.spans|;
    if |u.spans| == |t.spans| + 1 {
      assert (successes + 1) * window == successes * window + window;
      assert t.state.summarizedThrough < |s.log|;
    }
  }

  /** Without appends recovery succeeds at most remaining / window times, rounded up, however often it is tried. */
  lemma {:induction false} RecoveriesAreBounded(window: nat, s: World, events: seq<Event>)
    requires window > 0 && RecoveriesOnly(s.log, events)
    ensures WindowPerSuccess(window, s, After(window, s, events))
  {
    if events != [] {
      RecoveriesAreBounded(window, s, events[..|events| - 1]);
      RecoverKeepsRate(window, s, After(window, s, events[..|events| - 1]), events[|events| - 1]);
    }
  }

  // ----- the summary -----

  /** The non-blank entries, trimmed and separated by blank lines. */
  function Digest(entries: seq<string>): string {
    if entries == [] then ""
    else
      var front, entry := Digest(entries[..|entries| - 1]), TrimSpace(entries[|entries| - 1]);
      if entry == "" then front else if front == "" then entry else front + "\n\n" + entry
  }

  lemma MergeKeepsBoth(existing: string, entry: string)
    ensures var head, tail := TrimSpace(existing), TrimSpace(entry);
      TrimSpace(MergeSummary(existing, entry)) ==
      if tail == "" then head else if head == "" then tail else head + "\n\n" + tail
  {
    var head, tail := TrimSpace(existing), TrimSpace(entry);
    TrimSpaceIsTrimmed(existing);
    TrimSpaceIsTrimmed(entry);
    var core := if tail == "" then head else if head == "" then tail else head + "\n\n" + tail;
    var after := if tail == "" && head != "" then "\n\n" else "";
    assert MergeSummary(existing, entry) == "" + core + after;
    TrimSpaceOfPadded("", core, after);
  }

  predicate SummaryIsDigest(s: World) {
    TrimSpace(s.state.summary) == Digest(s.entries) && |s.entries| == |s.spans|
  }

  lemma RecoverStepDigests(window: nat, s: World, total: nat, entry: Option<string>, saved: bool)
    requires SummaryIsDigest(s) && total <= |s.log|
    ensures SummaryIsDigest(RecoverStep(window, s, total, entry, saved))
  {
    if saved && Pass(window, s.log, total, s.state, entry).advanced {
      assert (s.entries + [entry.value])[..|s.entries|] == s.entries;
      MergeKeepsBoth(s.state.summary, entry.value);
    }
  }

  /** The rolling summary is the digest of every entry since the last clear: none is lost, reordered or repeated. */
  lemma {:induction false} SummaryHoldsEveryEntry(window: nat, events: seq<Event>)
    requires PossibleRun(window, events)
    ensures SummaryIsDigest(Run(window, events))
  {
    if events != [] {
      var front := events[..|events| - 1];
      SummaryHoldsEveryEntry(window, front);
      match events[|events| - 1] {
        case TurnComplete(total, entry, saved) => RecoverStepDigests(window, Run(window, front), total, entry, saved);
        case Recover(total, entry, saved) => RecoverStepDigests(window, Run(window, front), total, entry, saved);
        case _ =>
      }
    }
  }

  function Parted(a: string, b: string): string {
    if a == "" then b else if b == "" then a else a + "\n\n" + b
  }

  lemma PartedThrice(a: string, b: string, c: string)
    ensures Parted(Parted(a, b), c) == Parted(a, Parted(b, c))
  {
    assert a + "\n\n" + b + "\n\n" + c == a + "\n\n" + (b + "\n\n" + c);
  }

  lemma DigestExtends(entries: seq<string>, entry: string)
    ensures Digest(entries + [entry]) == Parted(Digest(entries), TrimSpace(entry))
  {
    assert (entries + [entry])[..|entries|] == entries;
  }

  lemma DigestStep(a: seq<string>, front: seq<string>, last: string)
    requires Digest(a + front) == Parted(Digest(a), Digest(front))
    ensures Digest(a + (front + [last])) == Parted(Digest(a), Digest(front + [last]))
  {
    assert a + (front + [last]) == (a + front) + [last];
    DigestExtends(a + front, last);
    DigestExtends(front, last);
    PartedThrice(Digest(a), Digest(front), TrimSpace(last));
  }

  lemma {:induction false} DigestJoins(a: seq<string>, b: seq<string>)
    ensures Digest(a + b) == Parted(Digest(a), Digest(b))
  {
    if b == [] {
      assert a + b == a;
    } else {
      DigestJoins(a, b[..|b| - 1]);
      DigestStep(a, b[..|b| - 1], b[|b| - 1]);
      assert b == b[..|b| - 1] + [b[|b| - 1]];
    }
  }

  /** What a digest is: of one entry, that entry without outer white space; of two lists, the two parted by a blank line. */
  lemma DigestOfConcat(a: seq<string>, b: seq<string>)
    ensures Digest(a + b) ==
            if Digest(a) == "" then Digest(b) else if Digest(b) == "" then Digest(a) else Digest(a) + "\n\n" + Digest(b)
  {
    DigestJoins(a, b);
  }

  lemma DigestOfOne(entry: string)
    ensures Digest([entry]) == TrimSpace(entry)
  {
    DigestExtends([], entry);
    assert [] + [entry] == [entry];
  }

  /**
    * What the provider gets to see of the past: the repaired view of a run starts with a system message, which says, in
    * order and once each, what the summariser said since the last clear; without anything said there is no such message.
    */
  lemma SummaryReachesThePrompt(window: nat, events: seq<Event>)
    requires PossibleRun(window, events)
    ensures var s := Run(window, events);
      var view := View(Shown(s.log, s.state));
      && (s.state.summary == "" ==> Digest(s.entries) == "")
      && (s.state.summary != "" ==>
            && view != [] && view[0].role == System && view[0].content.Text?
            && "## Previous Session Summary\n" <= view[0].content.text
            && TrimSpace(view[0].content.text[|"## Previous Session Summary\n"|..]) == Digest(s.entries))
  {
    var s := Run(window, events);
    RunsStayConsistent(window, events);
    SummaryHoldsEveryEntry(window, events);
    var shown := Shown(s.log, s.state);
    SummaryIsShown(s.log, s.state);
    if s.state.summary == "" {
      assert TrimSpace("") == "";
    } else {
      LeadingSystemStays(shown);
      var header := "## Previous Session Summary\n";
      assert (header + s.state.summary)[|header|..] == s.state.summary;
    }
  }

  lemma LeadingSystemStays(messages: seq<Message>)
    requires messages != [] && messages[0].role.System?
    ensures View(messages) != [] && View(messages)[0] == Project(messages[0])
  {
    var picked := Survivors(messages, |messages|);
    SurvivorsAreExact(messages, |messages|, 0);
    SurvivorsAreIncreasing(messages, |messages|);
    assert picked[0] == 0;
    ViewIsSelection(messages);
    ViewOfSurvivor(messages, 0);
  }

  // ----- views that need no repair -----

  /** Every pass runs when the counted part of the log ends on a complete block. */
  predicate AtBlockEnds(window: nat, events: seq<Event>)
    requires PossibleRun(window, events)
  {
    events == [] ||
    var front := events[..|events| - 1];
    && AtBlockEnds(window, front)
    && match events[|events| - 1]
       case TurnComplete(total, _, _) => Complete(Run(window, front).log[..total])
       case Recover(total, _, _) => Complete(Run(window, front).log[..total])
       case _ => true
  }

  /** The repaired boundary of a complete log splits it into complete parts. */
  lemma PassKeepsBlocks(window: nat, log: seq<Message>, total: nat, s: State, entry: Option<string>)
    requires total <= |log| && s.summarizedThrough <= |log|
    requires Complete(log[..s.summarizedThrough]) && Complete(log[..total])
    ensures var q := Pass(window, log, total, s, entry).state.summarizedThrough; q <= |log| && Complete(log[..q])
  {
    var r := Pass(window, log, total, s, entry);
    if r.advanced {
      var cut := r.state.summarizedThrough;
      SafeCutsAreBlockBounds(log[..total], cut);
      assert log[..total][..cut] == log[..cut];
    }
  }

  lemma {:induction false} PointerStaysBetweenBlocks(window: nat, events: seq<Event>)
    requires PossibleRun(window, events) && AtBlockEnds(window, events)
    ensures var s := Run(window, events);
      s.state.summarizedThrough <= |s.log| && Complete(s.log[..s.state.summarizedThrough])
  {
    if events != [] {
      var front, e := events[..|events| - 1], events[|events| - 1];
      PointerStaysBetweenBlocks(window, front);
      var s := Run(window, front);
      match e {
        case Append(messages) =>
          assert (s.log + messages)[..s.state.summarizedThrough] == s.log[..s.state.summarizedThrough];
        case TurnComplete(total, entry, saved) => PassKeepsBlocks(window, s.log, total, s.state, entry);
        case Recover(total, entry, saved) => PassKeepsBlocks(window, s.log, total, s.state, entry);
        case Clear =>
      }
    }
  }

  /** A repaired boundary falls between blocks exactly when there is a safe cut from the target up to the count. */
  lemma BoundaryIsBlockBoundExactly(log: seq<Message>, boundary: nat, total: nat)
    requires boundary <= total <= |log| && Complete(log)
    ensures Complete(log[..RepairedBoundary(log, boundary, total)]) <==> exists j | boundary <= j <= total :: SafeCut(log, j)
  {
    SafeCutsAreBlockBounds(log, RepairedBoundary(log, boundary, total));
    BoundaryIsSafeExactly(log, boundary, total);
  }

  lemma BoundaryIsSafeExactly(log: seq<Message>, boundary: nat, total: nat)
    requires boundary <= total <= |log|
    ensures SafeCut(log, RepairedBoundary(log, boundary, total)) <==> exists j | boundary <= j <= total :: SafeCut(log, j)
  {
    var cut := RepairedBoundary(log, boundary, total);
    if cut < total {
      SafeCutOfPrefix(log, total, cut);
    } else {
      forall j | boundary <= j < total ensures !SafeCut(log, j) {
        SafeCutOfPrefix(log, total, j);
      }
    }
  }

  lemma SafeCutOfPrefix(log: seq<Message>, total: nat, j: nat)
    requires j < total <= |log|
    ensures SafeCut(log[..total], j) <==> SafeCut(log, j)
  {
  }

  lemma PreambleIsComplete(s: State)
    ensures Complete(Preamble(s))
  {
    if s.summary != "" {
      PlainIsComplete(Preamble(s)[0]);
    }
  }

  lemma ShownIsComplete(log: seq<Message>, s: State)
    requires s.summarizedThrough <= |log| && Complete(log) && Complete(log[..s.summarizedThrough])
    ensures Complete(Shown(log, s))
  {
    var seen, tail := log[..s.summarizedThrough], log[s.summarizedThrough..];
    assert log == seen + tail;
    CompleteRemainder(seen, tail);
    PreambleIsComplete(s);
    CompleteConcat(Preamble(s), tail);
  }

  /** The view of a complete log from a pointer between blocks is only projected, never cut down. */
  lemma ShownNeedsNoRepair(log: seq<Message>, s: State)
    requires s.summarizedThrough <= |log| && Complete(log) && Complete(log[..s.summarizedThrough])
    ensures Complete(Shown(log, s)) && View(Shown(log, s)) == ProjectAll(Shown(log, s))
  {
    ShownIsComplete(log, s);
    CompletePairs(Shown(log, s));
  }

  /** End to end: after any such run whose log is complete, the repair drops nothing from the view. */
  lemma RunsNeedNoRepair(window: nat, events: seq<Event>)
    requires PossibleRun(window, events) && AtBlockEnds(window, events) && Complete(Run(window, events).log)
    ensures var s := Run(window, events);
      && View(Shown(s.log, s.state)) == ProjectAll(Shown(s.log, s.state))
      && Declared(Shown(s.log, s.state)) == Answered(Shown(s.log, s.state))
  {
    PointerStaysBetweenBlocks(window, events);
    var s := Run(window, events);
    ShownNeedsNoRepair(s.log, s.state);
    CompletePairs(Shown(s.log, s.state));
  }

  lemma OneMoreEvent(window: nat, events: seq<Event>, e: Event)
    requires PossibleRun(window, events) && Possible(Run(window, events), e)
    ensures PossibleRun(window, events + [e]) && Run(window, events + [e]) == Step(window, Run(window, events), e)
  {
    assert (events + [e])[..|events|] == events;
  }

  /** A call and its answer are appended, and a pass runs with a count taken between the two. */
  function PassInsideABlock(ask: Message, reply: Message): seq<Event> {
    [Append([ask, reply])] + [TurnComplete(1, Some("x"), true)]
  }

  lemma PassInsideABlockRuns(ask: Message, reply: Message)
    ensures PossibleRun(1, PassInsideABlock(ask, reply))
    ensures var s := Run(1, PassInsideABlock(ask, reply));
      s.log == [ask, reply] && s.state == Pass(1, [ask, reply], 1, FRESH, Some("x")).state
  {
    assert [] + [ask, reply] == [ask, reply] && [] + [Append([ask, reply])] == [Append([ask, reply])];
    OneMoreEvent(1, [], Append([ask, reply]));
    OneMoreEvent(1, [Append([ask, reply])], TurnComplete(1, Some("x"), true));
  }

  /** The hypothesis matters: that run has a complete log, yet its view has an orphaned answer. */
  lemma CountInsideABlockOrphansAnAnswer(ask: Message, reply: Message)
    requires IsBlock([ask, reply]) && DeclaresCalls(ask) && AnsweredBy(reply) != {}
    ensures var events := PassInsideABlock(ask, reply);
      && PossibleRun(1, events) && Complete(Run(1, events).log)
      && !Paired(Shown(Run(1, events).log, Run(1, events).state))
    ensures !AtBlockEnds(1, PassInsideABlock(ask, reply))
  {
    BlockIsComplete([ask, reply]);
    PassInsideABlockRuns(ask, reply);
    var log := [ask, reply];
    var s := Pass(1, log, 1, FRESH, Some("x")).state;
    assert s.summarizedThrough == 1 && log[1..] == [reply];
    PairingOfConcat(Preamble(s), [reply]);
    assert [reply][..0] == [];
    PreambleIsComplete(s);
    CompletePairs(Preamble(s));
    if Preamble(s) != [] {
      assert Preamble(s)[..0] == [];
    }
    assert reply == [ask, reply][1..][0];
    if AtBlockEnds(1, PassInsideABlock(ask, reply)) {
      RunsNeedNoRepair(1, PassInsideABlock(ask, reply));
      CompletePairs(Shown(log, s));
    }
  }
}
