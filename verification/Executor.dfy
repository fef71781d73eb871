/** The executor's per-turn message buffer, with a prior history that is re-read on every load. */
module Executor {
  import opened Prelude
  import opened Messages

  // ----- finding the history in the prompt -----

  predicate OccursAt(full: seq<Message>, part: seq<Message>, i: nat) {
    i + |part| <= |full| && full[i..i + |part|] == part
  }

  /** What surrounds the history in a prompt. */
  datatype Split = Split(before: seq<Message>, after: seq<Message>)

  /** Finds the leftmost place where a non-empty history occurs contiguously, if there is one. */
  method BuildLazyPriorSource(full: seq<Message>, history: seq<Message>) returns (split: Option<Split>)
    ensures split.Some? <==> history != [] && exists i :: OccursAt(full, history, i)
    ensures split.Some? ==> OccursAt(full, history, |split.value.before|)
    ensures split.Some? ==> forall i | 0 <= i < |split.value.before| :: !OccursAt(full, history, i)
    ensures split.Some? ==> split.value.before + history + split.value.after == full
  {
    if |history| == 0 {
      return None;
    }
    if |history| > |full| {
      return None;
    }
    for i := 0 to |full| - |history| + 1
      invariant forall k | 0 <= k < i :: !OccursAt(full, history, k)
    {
      if full[i] == history[0] {
        var found := true;
        for j := 1 to |history|
          invariant found && full[i..i + j] == history[..j]
        {
          if full[i + j] != history[j] {
            found := false;
            assert full[i..i + |history|][j] != history[j];
            break;
          }
          assert full[i..i + j + 1] == full[i..i + j] + [full[i + j]];
          assert history[..j + 1] == history[..j] + [history[j]];
        }
        if found {
          assert history[..|history|] == history;
          assert OccursAt(full, history, i);
          return Some(Split(full[..i], full[i + |history|..]));
        }
      } else {
        assert full[i..i + |history|][0] != history[0];
      }
    }
    split := None;
  }

  // ----- the buffer of one turn -----

  /** A fixed list, or what to put around the history that a load re-reads. */
  datatype Prior = Fixed(messages: seq<Message>) | Around(split: Split)

  datatype Buffer = Buffer(prior: Prior, delta: seq<Message>)

  const EMPTY := Buffer(Fixed([]), [])

  function Materialised(prior: Prior, reloaded: seq<Message>): seq<Message> {
    match prior
    case Fixed(messages) => messages
    case Around(split) => split.before + reloaded + split.after
  }

  function Contents(b: Buffer, reloaded: seq<Message>): seq<Message> {
    Materialised(b.prior, reloaded) + b.delta
  }

  /** Operations on a buffer; a load carries what re-reading the history returns at that moment. */
  datatype Op = Append(messages: seq<Message>) | Set(messages: seq<Message>) | Load(reloaded: seq<Message>)

  function Applied(b: Buffer, op: Op): Buffer {
    match op
    case Append(messages) => Buffer(b.prior, b.delta + messages)
    case Set(messages) => Buffer(Fixed(messages), [])
    case Load(_) => b
  }

  class TurnState {
    var prior: Prior
    var delta: seq<Message>

    constructor ()
      ensures Value() == EMPTY
    {
      prior, delta := Fixed([]), [];
    }

    function Value(): Buffer
      reads this
    {
      Buffer(prior, delta)
    }
  }

  /** Turns are told apart by the state their context carries; without one they share the fallback. */
  class DirectExecutor {
    var fallback: TurnState?

    constructor ()
      ensures fallback == null
    {
      fallback := null;
    }

    ghost predicate IsStateOf(ctx: TurnState?, s: TurnState)
      reads this
    {
      s == if ctx != null then ctx else fallback
    }

    method StateOf(ctx: TurnState?) returns (s: TurnState)
      modifies this`fallback
      ensures IsStateOf(ctx, s)
      ensures ctx != null || old(fallback) != null ==> fallback == old(fallback)
      ensures ctx == null && old(fallback) == null ==> fresh(s) && s.Value() == EMPTY
    {
      if ctx != null {
        return ctx;
      }
      if fallback == null {
        fallback := new TurnState();
      }
      s := fallback;
    }

    method AppendMessagesCtx(ctx: TurnState?, messages: seq<Message>) returns (ghost s: TurnState)
      modifies this`fallback, if ctx != null then {ctx} else if fallback != null then {fallback} else {}
      ensures IsStateOf(ctx, s)
      ensures if fresh(s) then s.Value() == Applied(EMPTY, Append(messages))
              else s.Value() == Applied(old(s.Value()), Append(messages))
      ensures if fresh(s) then s.prior == Fixed([]) && s.delta == messages
              else s.prior == old(s.prior) && s.delta == old(s.delta) + messages
    {
      var state := StateOf(ctx);
      s := state;
      state.delta := state.delta + messages;
    }

    method LoadMessagesCtx(ctx: TurnState?, reloaded: seq<Message>) returns (messages: seq<Message>, ghost s: TurnState)
      modifies this`fallback
      ensures IsStateOf(ctx, s) && messages == Contents(s.Value(), reloaded)
      ensures messages == (match s.prior
                           case Fixed(list) => list
                           case Around(split) => split.before + reloaded + split.after) + s.delta
      ensures fresh(s) ==> messages == []
    {
      var state := StateOf(ctx);
      s := state;
      var prior := Materialise(state, reloaded);
      messages := prior + state.delta;
    }

    method Materialise(state: TurnState, reloaded: seq<Message>) returns (prior: seq<Message>)
      ensures prior == Materialised(state.prior, reloaded)
    {
      match state.prior {
        case Fixed(messages) => prior := messages;
        case Around(split) => prior := split.before + reloaded + split.after;
      }
    }

    method SetPriorSourceCtx(ctx: TurnState?, source: Prior) returns (ghost s: TurnState)
      modifies this`fallback, if ctx != null then {ctx} else if fallback != null then {fallback} else {}
      ensures IsStateOf(ctx, s) && s.Value() == Buffer(source, [])
    {
      var state := StateOf(ctx);
      s := state;
      state.prior := source;
      state.delta := [];
    }

    method SetMessagesCtx(ctx: TurnState?, messages: seq<Message>) returns (ghost s: TurnState)
      modifies this`fallback, if ctx != null then {ctx} else if fallback != null then {fallback} else {}
      ensures IsStateOf(ctx, s) && forall b :: s.Value() == Applied(b, Set(messages))
      ensures s.prior == Fixed(messages) && s.delta == []
    {
      s := SetPriorSourceCtx(ctx, Fixed(messages));
    }

    /** Seeds the buffer with the prompt, lazily when the conversation loads its history and the prompt contains it. */
    method BuildPrompt(ctx: TurnState?, prompt: seq<Message>, history: Option<seq<Message>>) returns (ghost s: TurnState)
      modifies this`fallback, if ctx != null then {ctx} else if fallback != null then {fallback} else {}
      ensures IsStateOf(ctx, s) && Seeds(s.Value(), prompt, history)
    {
      if history.Some? {
        var split := BuildLazyPriorSource(prompt, history.value);
        if split.Some? {
          s := SetPriorSourceCtx(ctx, Around(split.value));
          return;
        }
      }
      s := SetMessagesCtx(ctx, prompt);
      assert s.Value() == Applied(EMPTY, Set(prompt));
    }
  }

  /** The buffer is lazy when the history occurs in the prompt, fixed otherwise; either way it shows the prompt. */
  predicate Seeds(b: Buffer, prompt: seq<Message>, history: Option<seq<Message>>) {
    && b.delta == []
    && match b.prior
       case Fixed(messages) =>
         && messages == prompt
         && (history.Some? && history.value != [] ==> forall i: nat | i <= |prompt| :: !OccursAt(prompt, history.value, i))
       case Around(split) => history.Some? && history.value != [] && split.before + history.value + split.after == prompt
  }

  // ----- the eager reference -----

  function Final(b: Buffer, ops: seq<Op>): Buffer {
    if ops == [] then b else Applied(Final(b, ops[..|ops| - 1]), ops[|ops| - 1])
  }

  /** What the loads of a run return, in order. */
  function Loads(b: Buffer, ops: seq<Op>): seq<seq<Message>> {
    if ops == [] then []
    else
      var front, last := ops[..|ops| - 1], ops[|ops| - 1];
      Loads(b, front) + (if last.Load? then [Contents(Final(b, front), last.reloaded)] else [])
  }

  /** A plain list that is appended to and replaced. */
  function EagerFinal(list: seq<Message>, ops: seq<Op>): seq<Message> {
    if ops == [] then list
    else
      var front := EagerFinal(list, ops[..|ops| - 1]);
      match ops[|ops| - 1]
      case Append(messages) => front + messages
      case Set(messages) => messages
      case Load(_) => front
  }

  function EagerLoads(list: seq<Message>, ops: seq<Op>): seq<seq<Message>> {
    if ops == [] then []
    else
      var front, last := ops[..|ops| - 1], ops[|ops| - 1];
      EagerLoads(list, front) + (if last.Load? then [EagerFinal(list, front)] else [])
  }

  /** What the plain list is: appending adds at its end, setting replaces it, loading leaves it, and returns it. */
  lemma PlainListExactly(list: seq<Message>, ops: seq<Op>, messages: seq<Message>, reloaded: seq<Message>)
    ensures EagerFinal(list, []) == list
    ensures EagerFinal(list, ops + [Append(messages)]) == EagerFinal(list, ops) + messages
    ensures EagerFinal(list, ops + [Set(messages)]) == messages
    ensures EagerFinal(list, ops + [Load(reloaded)]) == EagerFinal(list, ops)
    ensures EagerLoads(list, []) == []
    ensures EagerLoads(list, ops + [Append(messages)]) == EagerLoads(list, ops)
    ensures EagerLoads(list, ops + [Set(messages)]) == EagerLoads(list, ops)
    ensures EagerLoads(list, ops + [Load(reloaded)]) == EagerLoads(list, ops) + [EagerFinal(list, ops)]
  {
    assert (ops + [Append(messages)])[..|ops|] == ops && (ops + [Set(messages)])[..|ops|] == ops;
    assert (ops + [Load(reloaded)])[..|ops|] == ops;
  }

  /** The operations of a turn in an interleaved run are those tagged with it, in order. */
  lemma {:induction false} OwnExactly(ops: seq<Tagged>, turn: nat) returns (at: seq<nat>)
    ensures Increasing(at, |ops|) && |Own(ops, turn)| == |at|
    ensures forall k | 0 <= k < |at| :: Own(ops, turn)[k] == ops[at[k]].op
    ensures forall i | 0 <= i < |ops| :: i in at <==> ops[i].turn == turn
  {
    at := [];
    if ops != [] {
      var n := |ops| - 1;
      var before := OwnExactly(ops[..n], turn);
      at := before + if ops[n].turn == turn then [n] else [];
      forall k | 0 <= k < |at| ensures Own(ops, turn)[k] == ops[at[k]].op {
        if k < |before| {
          assert ops[..n][before[k]] == ops[before[k]];
        }
      }
    }
  }

  predicate Reloads(ops: seq<Op>, history: seq<Message>) {
    forall i | 0 <= i < |ops| :: ops[i].Load? ==> ops[i].reloaded == history
  }

  lemma {:induction false} LazyHoldsEager(b: Buffer, ops: seq<Op>, history: seq<Message>)
    ensures Contents(Final(b, ops), history) == EagerFinal(Contents(b, history), ops)
  {
    if ops != [] {
      var front, last := ops[..|ops| - 1], ops[|ops| - 1];
      LazyHoldsEager(b, front, history);
      var f := Final(b, front);
      match last {
        case Append(messages) =>
          assert Materialised(f.prior, history) + (f.delta + messages) == Contents(f, history) + messages;
        case Set(messages) =>
          assert messages + [] == messages;
        case Load(_) =>
      }
    }
  }

  /** While re-reading returns the history, every run of operations sees what a plain list would show. */
  lemma {:induction false} LazyRefinesEager(b: Buffer, ops: seq<Op>, history: seq<Message>)
    requires Reloads(ops, history)
    ensures Loads(b, ops) == EagerLoads(Contents(b, history), ops)
  {
    if ops != [] {
      var front := ops[..|ops| - 1];
      assert Reloads(front, history);
      LazyRefinesEager(b, front, history);
      LazyHoldsEager(b, front, history);
    }
  }

  /** A seeded buffer behaves as the prompt itself. */
  lemma SeededBufferIsThePrompt(b: Buffer, prompt: seq<Message>, history: Option<seq<Message>>, ops: seq<Op>)
    requires Seeds(b, prompt, history) && Reloads(ops, history.GetOr([]))
    ensures Loads(b, ops) == EagerLoads(prompt, ops)
  {
    LazyRefinesEager(b, ops, history.GetOr([]));
    assert Contents(b, history.GetOr([])) == prompt;
  }

  /** A lazy buffer shows the eager list exactly when re-reading returns the history: a history that has grown shows through. */
  lemma ReloadMattersExactly(split: Split, delta: seq<Message>, history: seq<Message>, reloaded: seq<Message>)
    ensures var b := Buffer(Around(split), delta);
      Contents(b, reloaded) == Contents(b, history) <==> reloaded == history
  {
    var tail := split.after + delta;
    var a, b := split.before + reloaded + tail, split.before + history + tail;
    assert Contents(Buffer(Around(split), delta), reloaded) == a;
    assert Contents(Buffer(Around(split), delta), history) == b;
    if a == b {
      assert |reloaded| == |history|;
      assert reloaded == a[|split.before|..|split.before| + |reloaded|];
      assert history == b[|split.before|..|split.before| + |history|];
    }
  }

  // ----- turns in parallel -----

  datatype Tagged = Tagged(turn: nat, op: Op)

  function StateOfTurn(states: map<nat, Buffer>, turn: nat): Buffer {
    if turn in states then states[turn] else EMPTY
  }

  function After(states: map<nat, Buffer>, ops: seq<Tagged>): map<nat, Buffer> {
    if ops == [] then states
    else
      var front, last := After(states, ops[..|ops| - 1]), ops[|ops| - 1];
      front[last.turn := Applied(StateOfTurn(front, last.turn), last.op)]
  }

  /** What the loads of one turn return in an interleaved run. */
  function LoadsOf(states: map<nat, Buffer>, ops: seq<Tagged>, turn: nat): seq<seq<Message>> {
    if ops == [] then []
    else
      var front, last := ops[..|ops| - 1], ops[|ops| - 1];
      LoadsOf(states, front, turn) +
      (if last.turn == turn && last.op.Load? then [Contents(StateOfTurn(After(states, front), turn), last.op.reloaded)] else [])
  }

  function Own(ops: seq<Tagged>, turn: nat): seq<Op> {
    if ops == [] then []
    else Own(ops[..|ops| - 1], turn) + (if ops[|ops| - 1].turn == turn then [ops[|ops| - 1].op] else [])
  }

  lemma OneMoreOp(b: Buffer, ops: seq<Op>, op: Op)
    ensures Final(b, ops + [op]) == Applied(Final(b, ops), op)
    ensures Loads(b, ops + [op]) == Loads(b, ops) + (if op.Load? then [Contents(Final(b, ops), op.reloaded)] else [])
  {
    assert (ops + [op])[..|ops|] == ops;
  }

  /** A turn sees only its own operations. */
  lemma {:induction false} TurnsAreIsolated(states: map<nat, Buffer>, ops: seq<Tagged>, turn: nat)
    ensures StateOfTurn(After(states, ops), turn) == Final(StateOfTurn(states, turn), Own(ops, turn))
    ensures LoadsOf(states, ops, turn) == Loads(StateOfTurn(states, turn), Own(ops, turn))
  {
    if ops != [] {
      var front, last := ops[..|ops| - 1], ops[|ops| - 1];
      TurnsAreIsolated(states, front, turn);
      if last.turn == turn {
        OneMoreOp(StateOfTurn(states, turn), Own(front, turn), last.op);
      } else {
        assert Own(ops, turn) == Own(front, turn);
      }
    }
  }

  /** However turns interleave, a seeded turn sees its prompt and its own appends, as an eager list would show them. */
  lemma ParallelTurnsSeeTheirPrompt(states: map<nat, Buffer>, ops: seq<Tagged>, turn: nat, prompt: seq<Message>,
                                    history: Option<seq<Message>>)
    requires Seeds(StateOfTurn(states, turn), prompt, history) && Reloads(Own(ops, turn), history.GetOr([]))
    ensures LoadsOf(states, ops, turn) == EagerLoads(prompt, Own(ops, turn))
  {
    TurnsAreIsolated(states, ops, turn);
    SeededBufferIsThePrompt(StateOfTurn(states, turn), prompt, history, Own(ops, turn));
  }
}
